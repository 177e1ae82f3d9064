/**
  What a batch of recipient events from DocuSign means for a contract, said without a fold:
  every field comes from the last event that concerns it. `ContractRecord.UpdateByDocusign`
  is the loop that is proved to compute this.
 */
module SignerStatus {
  import opened Common
  import opened Contracts

  datatype RecipientStatus = RecipientSent | RecipientSigned | RecipientOther

  datatype RecipientEvent = RecipientEvent(email: string, status: RecipientStatus, date: Date)

  /** Where the offset of the project completion date is read from. */
  datatype QuoteLookup =
    | NoQuote
    | NoSnapshot
    | Snapshot(completionDateOffset: int)

  const DEFAULT_PROJECT_COMPLETION_DATE_OFFSET := 90

  function OffsetDays(quote: QuoteLookup): int {
    if quote.Snapshot? && quote.completionDateOffset != 0
    then quote.completionDateOffset
    else DEFAULT_PROJECT_COMPLETION_DATE_OFFSET
  }

  /** The event is routed to signer `i`: the first one with its email. */
  predicate RoutedTo(signers: seq<Signer>, i: int, e: RecipientEvent) {
    i >= 0 && FindIndex(signers, HasEmail(e.email)) == i
  }

  predicate SignsPrimaryOwner(signers: seq<Signer>, e: RecipientEvent) {
    var i := FindIndex(signers, HasEmail(e.email));
    i >= 0 && e.status == RecipientSigned && signers[i].role == PRIMARY_OWNER
  }

  /** The four things a field of the contract can depend on. */
  datatype Topic = SignStatusOf(i: int) | SentOnOf(i: int) | SignedOnOf(i: int) | CompletionDate

  predicate Concerns(signers: seq<Signer>, topic: Topic, e: RecipientEvent) {
    match topic
    case SignStatusOf(i) => RoutedTo(signers, i, e) && e.status != RecipientOther
    case SentOnOf(i) => RoutedTo(signers, i, e) && e.status == RecipientSent
    case SignedOnOf(i) => RoutedTo(signers, i, e) && e.status == RecipientSigned
    case CompletionDate => SignsPrimaryOwner(signers, e)
  }

  /** The last event about the topic, or -1. */
  function LastOn(signers: seq<Signer>, topic: Topic, events: seq<RecipientEvent>): (j: int)
    ensures -1 <= j < |events|
  {
    if events == [] then -1
    else if Concerns(signers, topic, Last(events)) then |events| - 1
    else LastOn(signers, topic, Init(events))
  }

  lemma {:induction false} LastOnIsLast(signers: seq<Signer>, topic: Topic, events: seq<RecipientEvent>)
    ensures var j := LastOn(signers, topic, events);
            && (j >= 0 ==> Concerns(signers, topic, events[j]))
            && forall k :: j < k < |events| ==> !Concerns(signers, topic, events[k])
  {
    if events != [] {
      LastOnIsLast(signers, topic, Init(events));
    }
  }

  function DateOn(signers: seq<Signer>, topic: Topic, events: seq<RecipientEvent>, otherwise: Option<Date>)
    : Option<Date>
  {
    var j := LastOn(signers, topic, events);
    if j < 0 then otherwise else Some(events[j].date)
  }

  function SignStatusAfter(signers: seq<Signer>, i: nat, events: seq<RecipientEvent>): Option<SignStatus>
    requires i < |signers|
  {
    var j := LastOn(signers, SignStatusOf(i), events);
    if j < 0 then signers[i].signStatus
    else if events[j].status == RecipientSent then Some(SignStatus.Sent)
    else Some(SignStatus.Signed)
  }

  function SignerAfter(signers: seq<Signer>, i: nat, events: seq<RecipientEvent>): Signer
    requires i < |signers|
  {
    signers[i].(signStatus := SignStatusAfter(signers, i, events),
                sentOn := DateOn(signers, SentOnOf(i), events, signers[i].sentOn),
                signedOn := DateOn(signers, SignedOnOf(i), events, signers[i].signedOn))
  }

  function SignersAfter(signers: seq<Signer>, events: seq<RecipientEvent>): (after: seq<Signer>)
    ensures |after| == |signers|
  {
    seq(|signers|, i requires 0 <= i < |signers| => SignerAfter(signers, i, events))
  }

  function CompletionDateAfter(signers: seq<Signer>, completion: Option<Date>, events: seq<RecipientEvent>,
                               quote: QuoteLookup): Option<Date>
  {
    var j := LastOn(signers, CompletionDate, events);
    if j < 0 then completion else Some(events[j].date + OffsetDays(quote) * MILLISECONDS_PER_DAY)
  }

  /** Emails, roles and order agree, so events are routed alike. */
  predicate SameRouting(before: seq<Signer>, after: seq<Signer>) {
    |after| == |before|
    && forall i :: 0 <= i < |before| ==>
      after[i].(signStatus := None, sentOn := None, signedOn := None)
      == before[i].(signStatus := None, sentOn := None, signedOn := None)
  }

  /** The whole callback. It throws, saving nothing, when a signing needs an offset the quote does not hold. */
  function Callback(c: Contract, events: seq<RecipientEvent>, completed: bool, quote: QuoteLookup)
    : Result<Contract, ContractError>
  {
    if quote.NoSnapshot? && LastOn(c.signerDetails, CompletionDate, events) >= 0 then
      Err(SnapshotMissing)
    else
      Ok(c.(signerDetails := SignersAfter(c.signerDetails, events),
            projectCompletionDate := CompletionDateAfter(c.signerDetails, c.projectCompletionDate, events, quote),
            contractStatus := if completed then Completed else c.contractStatus))
  }

  lemma RoutingIsStable(before: seq<Signer>, after: seq<Signer>, topic: Topic, e: RecipientEvent)
    requires SameRouting(before, after)
    ensures Concerns(after, topic, e) <==> Concerns(before, topic, e)
  {
    SameIndex(before, after, e.email);
  }

  lemma SameIndex(before: seq<Signer>, after: seq<Signer>, email: string)
    requires SameRouting(before, after)
    ensures FindIndex(after, HasEmail(email)) == FindIndex(before, HasEmail(email))
  {
    var r, r' := FindIndex(before, HasEmail(email)), FindIndex(after, HasEmail(email));
    if r >= 0 {
      assert after[r].email == email;
    }
    if r' >= 0 {
      assert before[r'].email == email;
    }
  }

  /** What one event changes, as the assignments of the callback make it. */
  function SignersWith(signers: seq<Signer>, e: RecipientEvent): seq<Signer> {
    var i := FindIndex(signers, HasEmail(e.email));
    if i < 0 then signers
    else match e.status
      case RecipientSent => signers[i := signers[i].(signStatus := Some(SignStatus.Sent), sentOn := Some(e.date))]
      case RecipientSigned => signers[i := signers[i].(signStatus := Some(SignStatus.Signed), signedOn := Some(e.date))]
      case RecipientOther => signers
  }

  /** One more assignment keeps the signers what the last events say. */
  lemma OneMoreEvent(signers: seq<Signer>, events: seq<RecipientEvent>, e: RecipientEvent)
    ensures SignersAfter(signers, events + [e]) == SignersWith(SignersAfter(signers, events), e)
  {
    InitLast(events, e);
    SignersAfterKeepRouting(signers, events);
    SameIndex(signers, SignersAfter(signers, events), e.email);
  }

  lemma LastOnOneMore(signers: seq<Signer>, topic: Topic, events: seq<RecipientEvent>, e: RecipientEvent)
    ensures LastOn(signers, topic, events + [e])
         == if Concerns(signers, topic, e) then |events| else LastOn(signers, topic, events)
  {
    InitLast(events, e);
  }

  lemma CompletionDateOneMore(signers: seq<Signer>, completion: Option<Date>, events: seq<RecipientEvent>,
                              e: RecipientEvent, quote: QuoteLookup)
    ensures CompletionDateAfter(signers, completion, events + [e], quote)
         == if Concerns(signers, CompletionDate, e) then Some(e.date + OffsetDays(quote) * MILLISECONDS_PER_DAY)
            else CompletionDateAfter(signers, completion, events, quote)
  {
    LastOnOneMore(signers, CompletionDate, events, e);
  }

  /** Looking through two batches in a row is looking through the second, then the first. */
  lemma {:induction false} LastOnAppend(before: seq<Signer>, after: seq<Signer>, topic: Topic,
                                       first: seq<RecipientEvent>, second: seq<RecipientEvent>)
    requires SameRouting(before, after)
    ensures var j := LastOn(after, topic, second);
            LastOn(before, topic, first + second) == if j >= 0 then |first| + j else LastOn(before, topic, first)
    decreases |second|
  {
    if second == [] {
      assert first + second == first;
    } else {
      assert Init(first + second) == first + Init(second);
      RoutingIsStable(before, after, topic, Last(second));
      LastOnAppend(before, after, topic, first, Init(second));
    }
  }

  lemma SignersAfterKeepRouting(signers: seq<Signer>, events: seq<RecipientEvent>)
    ensures SameRouting(signers, SignersAfter(signers, events))
  {
  }

  /**
    Two batches in a row are one batch, the second after the first, completed if either was: the same contract
    results, or the same failure. (If the second one fails alone, the first stays stored.)
   */
  lemma CallbacksCompose(c: Contract, first: seq<RecipientEvent>, second: seq<RecipientEvent>,
                         firstCompleted: bool, secondCompleted: bool, quote: QuoteLookup)
    ensures var mid := Callback(c, first, firstCompleted, quote);
            var whole := Callback(c, first + second, firstCompleted || secondCompleted, quote);
            if mid.Err? then whole == mid else Callback(mid.value, second, secondCompleted, quote) == whole
  {
    var before, after := c.signerDetails, SignersAfter(c.signerDetails, first);
    SignersAfterKeepRouting(before, first);
    forall i | 0 <= i < |before|
      ensures SignerAfter(after, i, second) == SignerAfter(before, i, first + second)
    {
      SignersCompose(before, i, first, second);
    }
    assert SignersAfter(after, second) == SignersAfter(before, first + second);
    LastOnAppend(before, after, CompletionDate, first, second);
    CompletionDatesCompose(before, after, c.projectCompletionDate, first, second, quote);
  }

  lemma CompletionDatesCompose(before: seq<Signer>, after: seq<Signer>, completion: Option<Date>,
                               first: seq<RecipientEvent>, second: seq<RecipientEvent>, quote: QuoteLookup)
    requires SameRouting(before, after)
    ensures CompletionDateAfter(after, CompletionDateAfter(before, completion, first, quote), second, quote)
         == CompletionDateAfter(before, completion, first + second, quote)
  {
    LastOnAppend(before, after, CompletionDate, first, second);
  }

  lemma SignersCompose(before: seq<Signer>, i: nat, first: seq<RecipientEvent>, second: seq<RecipientEvent>)
    requires i < |before|
    ensures SignerAfter(SignersAfter(before, first), i, second) == SignerAfter(before, i, first + second)
  {
    var after := SignersAfter(before, first);
    SignersAfterKeepRouting(before, first);
    assert after[i] == SignerAfter(before, i, first);
    SignStatusesCompose(before, after, i, first, second);
    DatesCompose(before, after, SentOnOf(i), first, second, before[i].sentOn);
    DatesCompose(before, after, SignedOnOf(i), first, second, before[i].signedOn);
  }

  lemma SignStatusesCompose(before: seq<Signer>, after: seq<Signer>, i: nat,
                            first: seq<RecipientEvent>, second: seq<RecipientEvent>)
    requires SameRouting(before, after) && i < |before|
    requires after[i].signStatus == SignStatusAfter(before, i, first)
    ensures SignStatusAfter(after, i, second) == SignStatusAfter(before, i, first + second)
  {
    LastOnAppend(before, after, SignStatusOf(i), first, second);
  }

  lemma DatesCompose(before: seq<Signer>, after: seq<Signer>, topic: Topic,
                     first: seq<RecipientEvent>, second: seq<RecipientEvent>, otherwise: Option<Date>)
    requires SameRouting(before, after)
    ensures DateOn(after, topic, second, DateOn(before, topic, first, otherwise))
         == DateOn(before, topic, first + second, otherwise)
  {
    LastOnAppend(before, after, topic, first, second);
  }

  /** Delivering a batch twice is delivering it once: signers, completion date, status and failure alike. */
  lemma CallbackIsIdempotent(c: Contract, events: seq<RecipientEvent>, completed: bool, quote: QuoteLookup)
    ensures var once := Callback(c, events, completed, quote);
            once.Ok? ==> Callback(once.value, events, completed, quote) == once
  {
    var once := Callback(c, events, completed, quote);
    if once.Ok? {
      var before, after := c.signerDetails, once.value.signerDetails;
      SignersAfterKeepRouting(before, events);
      forall i | 0 <= i < |before|
        ensures SignerAfter(after, i, events) == after[i]
      {
        LookupIsStable(before, after, SignStatusOf(i), events);
        LookupIsStable(before, after, SentOnOf(i), events);
        LookupIsStable(before, after, SignedOnOf(i), events);
      }
      assert SignersAfter(after, events) == after;
      LookupIsStable(before, after, CompletionDate, events);
    }
  }

  lemma LookupIsStable(before: seq<Signer>, after: seq<Signer>, topic: Topic, events: seq<RecipientEvent>)
    requires SameRouting(before, after)
    ensures LastOn(after, topic, events) == LastOn(before, topic, events)
  {
    LastOnAppend(before, after, topic, [], events);
    assert [] + events == events;
  }

  /** A signer whose email an earlier signer shares hears nothing, and neither does one no event names. */
  lemma UnroutedSignerIsUntouched(signers: seq<Signer>, i: nat, events: seq<RecipientEvent>)
    requires i < |signers|
    requires (exists k :: 0 <= k < i && signers[k].email == signers[i].email)
          || (forall j :: 0 <= j < |events| ==> events[j].email != signers[i].email)
    ensures SignersAfter(signers, events)[i] == signers[i]
  {
    LastOnIsLast(signers, SignStatusOf(i), events);
    LastOnIsLast(signers, SentOnOf(i), events);
    LastOnIsLast(signers, SignedOnOf(i), events);
    forall j | 0 <= j < |events|
      ensures !RoutedTo(signers, i, events[j])
    {
      if events[j].email == signers[i].email {
        var k :| 0 <= k < i && signers[k].email == signers[i].email;
      }
    }
  }

  /** The callback throws exactly when a primary owner signs in the batch while the quote holds no snapshot. */
  lemma CallbackFailsExactly(c: Contract, events: seq<RecipientEvent>, completed: bool, quote: QuoteLookup)
    ensures Callback(c, events, completed, quote).Err?
       <==> quote.NoSnapshot? && exists j :: 0 <= j < |events| && SignsPrimaryOwner(c.signerDetails, events[j])
  {
    LastOnIsLast(c.signerDetails, CompletionDate, events);
    forall j | 0 <= j < |events|
      ensures Concerns(c.signerDetails, CompletionDate, events[j]) <==> SignsPrimaryOwner(c.signerDetails, events[j])
    {
    }
  }

  // ---------------------------------------------------------------- the batch, on the fields of its events

  /** The event reaches signer `i`: no earlier one has its email. */
  ghost predicate Reaches(signers: seq<Signer>, i: int, e: RecipientEvent) {
    && 0 <= i < |signers| && signers[i].email == e.email
    && forall k :: 0 <= k < i ==> signers[k].email != e.email
  }

  lemma ReachingIsRouting(signers: seq<Signer>, i: int, e: RecipientEvent)
    ensures Reaches(signers, i, e) <==> RoutedTo(signers, i, e)
  {
    var r := FindIndex(signers, HasEmail(e.email));
    assert r >= 0 ==> signers[r].email == e.email;
    assert forall k :: 0 <= k < |signers| && signers[k].email == e.email ==> HasEmail(e.email)(signers[k]);
  }

  /** No event from `from` on that reaches signer `i` has one of these statuses. */
  ghost predicate Silent(signers: seq<Signer>, i: int, events: seq<RecipientEvent>, from: nat,
                         statuses: set<RecipientStatus>)
  {
    forall k :: from <= k < |events| && Reaches(signers, i, events[k]) ==> events[k].status !in statuses
  }

  lemma ReachingThroughout(signers: seq<Signer>, i: nat, events: seq<RecipientEvent>)
    ensures forall k :: 0 <= k < |events| ==> (Reaches(signers, i, events[k]) <==> RoutedTo(signers, i, events[k]))
  {
    forall k | 0 <= k < |events|
      ensures Reaches(signers, i, events[k]) <==> RoutedTo(signers, i, events[k])
    {
      ReachingIsRouting(signers, i, events[k]);
    }
  }

  /** The last SENT event to reach a signer sets `sentOn`, the last SIGNED one `signedOn`, the last of both the rest. */
  lemma LastEventWins(signers: seq<Signer>, events: seq<RecipientEvent>, i: nat, j: nat)
    requires i < |signers| && j < |events| && Reaches(signers, i, events[j])
    ensures var s, e := SignersAfter(signers, events)[i], events[j];
            && (e.status == RecipientSent && Silent(signers, i, events, j + 1, {RecipientSent}) ==>
                  s.sentOn == Some(e.date))
            && (e.status == RecipientSigned && Silent(signers, i, events, j + 1, {RecipientSigned}) ==>
                  s.signedOn == Some(e.date))
            && (e.status == RecipientSent && Silent(signers, i, events, j + 1, {RecipientSent, RecipientSigned}) ==>
                  s.signStatus == Some(SignStatus.Sent))
            && (e.status == RecipientSigned && Silent(signers, i, events, j + 1, {RecipientSent, RecipientSigned}) ==>
                  s.signStatus == Some(SignStatus.Signed))
  {
    ReachingThroughout(signers, i, events);
    LastOnIsLast(signers, SentOnOf(i), events);
    LastOnIsLast(signers, SignedOnOf(i), events);
    LastOnIsLast(signers, SignStatusOf(i), events);
  }

  /** Without such an event the field is what it was; identity never changes. */
  lemma OtherFieldsStay(signers: seq<Signer>, events: seq<RecipientEvent>, i: nat)
    requires i < |signers|
    ensures var s, after := signers[i], SignersAfter(signers, events)[i];
            && after == s.(signStatus := after.signStatus, sentOn := after.sentOn, signedOn := after.signedOn)
            && (Silent(signers, i, events, 0, {RecipientSent}) ==> after.sentOn == s.sentOn)
            && (Silent(signers, i, events, 0, {RecipientSigned}) ==> after.signedOn == s.signedOn)
            && (Silent(signers, i, events, 0, {RecipientSent, RecipientSigned}) ==> after.signStatus == s.signStatus)
  {
    ReachingThroughout(signers, i, events);
    LastOnIsLast(signers, SentOnOf(i), events);
    LastOnIsLast(signers, SignedOnOf(i), events);
    LastOnIsLast(signers, SignStatusOf(i), events);
  }

  /** A primary owner signs: the first signer with the email has that role. */
  ghost predicate OwnerSigns(signers: seq<Signer>, e: RecipientEvent) {
    e.status == RecipientSigned && exists i :: Reaches(signers, i, e) && signers[i].role == "Primary Owner"
  }

  lemma OwnerSignsIs(signers: seq<Signer>, e: RecipientEvent)
    ensures OwnerSigns(signers, e) <==> SignsPrimaryOwner(signers, e)
  {
    var r := FindIndex(signers, HasEmail(e.email));
    ReachingIsRouting(signers, r, e);
    forall i | Reaches(signers, i, e)
      ensures i == r
    {
      ReachingIsRouting(signers, i, e);
    }
  }

  /** When no primary owner signs, the callback succeeds and the completion date stays. */
  lemma WithoutOwnerDateStays(c: Contract, events: seq<RecipientEvent>, completed: bool, quote: QuoteLookup)
    requires forall j :: 0 <= j < |events| ==> !OwnerSigns(c.signerDetails, events[j])
    ensures var r := Callback(c, events, completed, quote);
            r.Ok? && r.value.projectCompletionDate == c.projectCompletionDate
  {
    OwnerSignsThroughout(c.signerDetails, events);
  }

  lemma OwnerSignsThroughout(signers: seq<Signer>, events: seq<RecipientEvent>)
    ensures forall j :: 0 <= j < |events| ==>
              (OwnerSigns(signers, events[j]) <==> Concerns(signers, CompletionDate, events[j]))
    ensures var j := LastOn(signers, CompletionDate, events);
            && (j >= 0 ==> OwnerSigns(signers, events[j]))
            && forall k :: j < k < |events| ==> !OwnerSigns(signers, events[k])
  {
    forall j | 0 <= j < |events|
      ensures OwnerSigns(signers, events[j]) <==> Concerns(signers, CompletionDate, events[j])
    {
      OwnerSignsIs(signers, events[j]);
    }
    LastOnIsLast(signers, CompletionDate, events);
  }

  /**
    Otherwise it is as many days after the last such signing as the quote says, or 90 when there is no quote or the
    quote says none; if the quote cannot say, the callback fails.
   */
  lemma OwnerSetsDate(c: Contract, events: seq<RecipientEvent>, completed: bool, quote: QuoteLookup, j: nat)
    requires j < |events| && OwnerSigns(c.signerDetails, events[j])
    requires forall k :: j < k < |events| ==> !OwnerSigns(c.signerDetails, events[k])
    ensures var r := Callback(c, events, completed, quote);
            && (quote == NoSnapshot ==> r == Err(SnapshotMissing))
            && (quote == NoQuote || quote == Snapshot(0) ==>
                  r.Ok? && r.value.projectCompletionDate == Some(events[j].date + 90 * 86_400_000))
            && (forall days: int :: quote == Snapshot(days) && days != 0 ==>
                  r.Ok? && r.value.projectCompletionDate == Some(events[j].date + days * 86_400_000))
  {
    OwnerSignsThroughout(c.signerDetails, events);
  }

  /** A callback that succeeds stores signers, completion date and COMPLETED if DocuSign says so, nothing else. */
  lemma CallbackStores(c: Contract, events: seq<RecipientEvent>, completed: bool, quote: QuoteLookup)
    ensures var r := Callback(c, events, completed, quote);
            r.Ok? ==> r.value == c.(signerDetails := SignersAfter(c.signerDetails, events),
                                    projectCompletionDate := r.value.projectCompletionDate,
                                    contractStatus := if completed then Completed else c.contractStatus)
  {
  }
}
