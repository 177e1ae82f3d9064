/**
  When an actual amount, once recorded, is carried by every later record of its opportunity, whatever happens
  (customer-payment.service.ts).
 */
module CarriedPayments {
  import opened Common
  import opened Contracts
  import opened CustomerPayments
  import opened PaymentLedger
  import opened CopiedPayments

  /** An amount recorded on record `q` of an opportunity. */
  datatype Recording = Recording(opportunityId: string, q: nat, field: Field, amount: real)

  function Record(l: Ledger, selection: Selection, r: Recording): Ledger {
    Apply(l, selection, RecordActual(r.q, r.field, r.amount))
  }

  /** Contract ids are new and the amount is not overwritten; anything else may happen. */
  predicate Leaves(l: Ledger, r: Recording, e: Event) {
    match e
    case CreateContract(_, _, _, _) => IsNew(l, e)
    case RecordActual(k, g, a) =>
      g == r.field && r.q <= k < |l.payments| && OfOpportunity(l.payments[k], r.opportunityId) ==> a == r.amount
    case _ => true
  }

  ghost predicate RunLeaves(l: Ledger, selection: Selection, r: Recording, events: seq<Event>) {
    forall n :: 0 <= n < |events| ==> Leaves(Run(l, selection, events[..n]), r, events[n])
  }

  ghost predicate CarriesFrom(l: Ledger, from: nat, r: Recording) {
    forall k :: from <= k < |l.payments| && OfOpportunity(l.payments[k], r.opportunityId)
      ==> Number(l.payments[k], r.field) == r.amount
  }

  /** A later contract of the opportunity, not of grid services, stands in front of the one at `i`. */
  ghost predicate Overtaken(l: Ledger, opportunityId: string, i: int) {
    exists j :: 0 <= j < |l.contracts| && i < j && OrdinaryOf(l.contracts[j], opportunityId)
  }

  predicate OrdinaryOf(c: StoredContract, opportunityId: string) {
    c.opportunityId == opportunityId && c.contractType != GridServicesPacket
  }

  /**
    No record before `q` can be copied again: there is none of the opportunity or, where the service does not look
    at statuses, the contract of each is overtaken.
   */
  ghost predicate Settled(l: Ledger, selection: Selection, opportunityId: string, q: nat) {
    && q < |l.payments| && OfOpportunity(l.payments[q], opportunityId)
    && forall k, i :: 0 <= k < q && 0 <= i < |l.contracts| && IsRecordOf(l, opportunityId, k, i)
         ==> selection == IdOnly && Overtaken(l, opportunityId, i)
  }

  predicate IsRecordOf(l: Ledger, opportunityId: string, k: nat, i: nat)
    requires k < |l.payments| && i < |l.contracts|
  {
    l.contracts[i].opportunityId == opportunityId && MadeFor(l.payments[k], l.contracts[i])
  }

  ghost predicate IsNewest(l: Ledger, opportunityId: string, q: nat) {
    forall k :: q < k < |l.payments| ==> !OfOpportunity(l.payments[k], opportunityId)
  }

  ghost predicate CarriedAlways(l: Ledger, selection: Selection, opportunityId: string, q: nat, f: Field) {
    forall amount: real, events: seq<Event> ::
      var r := Recording(opportunityId, q, f, amount);
      RunLeaves(Record(l, selection, r), selection, r, events)
      ==> CarriesFrom(Run(Record(l, selection, r), selection, events), |l.payments|, r)
  }

  /**
    In a ledger as runs leave it, whatever amount is recorded on a record, every later record of the opportunity
    carries it in every run that leaves it alone, exactly when the record is the newest and settled.
   */
  lemma CarriedEverAfterExactly(l: Ledger, selection: Selection, opportunityId: string, q: nat, f: Field)
    requires Linked(l) && q < |l.payments| && OfOpportunity(l.payments[q], opportunityId) && IsActual(f)
    ensures CarriedAlways(l, selection, opportunityId, q, f)
       <==> IsNewest(l, opportunityId, q) && Settled(l, selection, opportunityId, q)
  {
    if !IsNewest(l, opportunityId, q) {
      var r, events := NotNewestIsLost(l, selection, opportunityId, q, f);
    } else if !Settled(l, selection, opportunityId, q) {
      var r, events := UnsettledIsLost(l, selection, opportunityId, q, f);
    } else {
      forall amount: real, events: seq<Event> |
        var r := Recording(opportunityId, q, f, amount);
        RunLeaves(Record(l, selection, r), selection, r, events)
        ensures var r := Recording(opportunityId, q, f, amount);
                CarriesFrom(Run(Record(l, selection, r), selection, events), |l.payments|, r)
      {
        var r := Recording(opportunityId, q, f, amount);
        RecordingSettles(l, selection, r);
        SettledForever(Record(l, selection, r), selection, r, events);
      }
    }
  }

  // ---------------------------------------------------------------- a settled record is carried

  lemma RecordingSettles(l: Ledger, selection: Selection, r: Recording)
    requires Linked(l) && IsActual(r.field)
    requires IsNewest(l, r.opportunityId, r.q) && Settled(l, selection, r.opportunityId, r.q)
    ensures var after := Record(l, selection, r);
            Linked(after) && Settled(after, selection, r.opportunityId, r.q) && CarriesFrom(after, r.q, r)
  {
    StepKeepsLinked(l, selection, RecordActual(r.q, r.field, r.amount));
    RecordKeepsSettled(l, selection, r.opportunityId, r.q, RecordActual(r.q, r.field, r.amount));
  }

  lemma RecordKeepsSettled(l: Ledger, selection: Selection, opportunityId: string, q: nat, e: Event)
    requires Settled(l, selection, opportunityId, q) && e.RecordActual?
    ensures Settled(Apply(l, selection, e), selection, opportunityId, q)
  {
    var after := Apply(l, selection, e);
    forall k | 0 <= k < |l.payments|
      ensures SameTexts(l.payments[k], after.payments[k])
    {
    }
    forall k, i | 0 <= k < q && 0 <= i < |l.contracts| && IsRecordOf(after, opportunityId, k, i)
      ensures selection == IdOnly && Overtaken(after, opportunityId, i)
    {
      assert IsRecordOf(l, opportunityId, k, i);
      assert Overtaken(l, opportunityId, i);
    }
  }

  /** Statuses and change-order updates neither take a contract's place nor make one grid services. */
  lemma ContractKeepsSettled(l: Ledger, selection: Selection, opportunityId: string, q: nat, e: Event)
    requires Settled(l, selection, opportunityId, q) && (e.SetStatus? || e.MakeChangeOrder?)
    ensures Settled(Apply(l, selection, e), selection, opportunityId, q)
  {
    var after := Apply(l, selection, e);
    forall k, i | 0 <= k < q && 0 <= i < |after.contracts| && IsRecordOf(after, opportunityId, k, i)
      ensures selection == IdOnly && Overtaken(after, opportunityId, i)
    {
      assert IsRecordOf(l, opportunityId, k, i);
      assert Overtaken(l, opportunityId, i);
      var j :| 0 <= j < |l.contracts| && i < j && OrdinaryOf(l.contracts[j], opportunityId);
      assert OrdinaryOf(after.contracts[j], opportunityId);
    }
  }

  lemma GrowingKeepsSettled(l: Ledger, after: Ledger, selection: Selection, opportunityId: string, q: nat,
                            c: StoredContract)
    requires Linked(l) && Settled(l, selection, opportunityId, q)
    requires forall i :: 0 <= i < |l.contracts| ==> l.contracts[i].id != c.id
    requires after.contracts == l.contracts + [c] && l.payments <= after.payments
    ensures Settled(after, selection, opportunityId, q)
  {
    forall k, i | 0 <= k < q && 0 <= i < |after.contracts| && IsRecordOf(after, opportunityId, k, i)
      ensures selection == IdOnly && Overtaken(after, opportunityId, i)
    {
      OldRecordOldContract(l, c, k, i);
      assert IsRecordOf(l, opportunityId, k, i);
      assert Overtaken(l, opportunityId, i);
      var j :| 0 <= j < |l.contracts| && i < j && OrdinaryOf(l.contracts[j], opportunityId);
      assert OrdinaryOf(after.contracts[j], opportunityId);
    }
  }

  /** The next contract of the opportunity copies the settled record or a later one. */
  lemma NextIsNotOlder(l: Ledger, selection: Selection, opportunityId: string, q: nat, c: StoredContract)
    requires Linked(l) && Settled(l, selection, opportunityId, q) && c.opportunityId == opportunityId
    requires forall i :: 0 <= i < |l.contracts| ==> l.contracts[i].id != c.id
    ensures q <= Copied(l, selection, c) < |l.payments|
    ensures OfOpportunity(l.payments[Copied(l, selection, c)], opportunityId)
  {
    CopiedIs(l, selection, c);
    var previous := PreviousContract(l.contracts, c.id, opportunityId, selection);
    if previous < 0 {
      NoneWithoutContract(l, opportunityId);
    } else {
      var k := RecordOf(l, previous, opportunityId);
      NothingOvertakesPrevious(l, selection, opportunityId, c);
      if k >= 0 {
        assert IsRecordOf(l, opportunityId, k, previous);
      }
    }
  }

  lemma NothingOvertakesPrevious(l: Ledger, selection: Selection, opportunityId: string, c: StoredContract)
    requires c.opportunityId == opportunityId
    requires forall i :: 0 <= i < |l.contracts| ==> l.contracts[i].id != c.id
    ensures selection == IdOnly ==>
              !Overtaken(l, opportunityId, PreviousContract(l.contracts, c.id, opportunityId, selection))
  {
    if selection == IdOnly {
      AsWrittenTakesNewest(l.contracts, c.id, opportunityId);
      forall j | 0 <= j < |l.contracts| && OrdinaryOf(l.contracts[j], opportunityId)
        ensures j <= PreviousContract(l.contracts, c.id, opportunityId, selection)
      {
        assert IsEarlier(l.contracts[j], c.id, opportunityId);
      }
    }
  }

  lemma StepKeepsSettled(l: Ledger, selection: Selection, r: Recording, e: Event)
    requires Linked(l) && IsActual(r.field) && Leaves(l, r, e)
    requires Settled(l, selection, r.opportunityId, r.q) && CarriesFrom(l, r.q, r)
    ensures var after := Apply(l, selection, e);
            Linked(after) && Settled(after, selection, r.opportunityId, r.q) && CarriesFrom(after, r.q, r)
  {
    StepKeepsLinked(l, selection, e);
    match e
    case CreateContract(c, quote, now, paymentId) =>
      GrowingKeepsSettled(l, Apply(l, selection, e), selection, r.opportunityId, r.q, c);
      CreateKeepsCarrying(l, selection, r, c, quote, now, paymentId);
    case SetStatus(_, _) =>
      ContractKeepsSettled(l, selection, r.opportunityId, r.q, e);
    case MakeChangeOrder(_) =>
      ContractKeepsSettled(l, selection, r.opportunityId, r.q, e);
    case RecordActual(_, _, _) =>
      RecordKeepsSettled(l, selection, r.opportunityId, r.q, e);
      RecordKeepsCarrying(l, selection, r, e);
  }

  lemma CreateKeepsCarrying(l: Ledger, selection: Selection, r: Recording, c: StoredContract, quote: Quote, now: int,
                            paymentId: string)
    requires Linked(l) && IsActual(r.field)
    requires forall i :: 0 <= i < |l.contracts| ==> l.contracts[i].id != c.id
    requires Settled(l, selection, r.opportunityId, r.q) && CarriesFrom(l, r.q, r)
    ensures CarriesFrom(Create(l, selection, c, quote, now, paymentId), r.q, r)
  {
    var after := Create(l, selection, c, quote, now, paymentId);
    if |after.payments| > |l.payments| {
      NewRecordOf(l, selection, c, quote, now, paymentId);
      if c.opportunityId == r.opportunityId {
        NextIsNotOlder(l, selection, r.opportunityId, r.q, c);
        assert Number(Last(after.payments), r.field) == r.amount;
      }
      forall k | r.q <= k < |after.payments| && OfOpportunity(after.payments[k], r.opportunityId)
        ensures Number(after.payments[k], r.field) == r.amount
      {
        assert k < |l.payments| ==> after.payments[k] == l.payments[k];
      }
    }
  }

  lemma RecordKeepsCarrying(l: Ledger, selection: Selection, r: Recording, e: Event)
    requires e.RecordActual? && Leaves(l, r, e) && CarriesFrom(l, r.q, r)
    ensures CarriesFrom(Apply(l, selection, e), r.q, r)
  {
    var after := Apply(l, selection, e);
    forall k | r.q <= k < |l.payments| && OfOpportunity(after.payments[k], r.opportunityId)
      ensures Number(after.payments[k], r.field) == r.amount
    {
      assert OfOpportunity(l.payments[k], r.opportunityId);
    }
  }

  lemma {:induction false} SettledForever(l: Ledger, selection: Selection, r: Recording, events: seq<Event>)
    requires Linked(l) && IsActual(r.field) && RunLeaves(l, selection, r, events)
    requires Settled(l, selection, r.opportunityId, r.q) && CarriesFrom(l, r.q, r)
    ensures var after := Run(l, selection, events);
            Linked(after) && Settled(after, selection, r.opportunityId, r.q) && CarriesFrom(after, r.q, r)
  {
    if events != [] {
      var n := |events| - 1;
      assert events[..n] == Init(events);
      forall m | 0 <= m < n
        ensures Init(events)[..m] == events[..m]
      {
      }
      SettledForever(l, selection, r, Init(events));
      StepKeepsSettled(Run(l, selection, Init(events)), selection, r, events[n]);
    }
  }

  // ---------------------------------------------------------------- any other record can be lost

  /** An id longer than all ids in use. */
  function NewId(contracts: seq<StoredContract>): (id: string)
    ensures forall i :: 0 <= i < |contracts| ==> |contracts[i].id| < |id|
  {
    if contracts == [] then "x"
    else
      var id := NewId(Init(contracts));
      if |Last(contracts).id| < |id| then id else Last(contracts).id + "x"
  }

  const UNCOUNTABLE := Quote(0.0, [None], [], [], None, None, NonCash)
  const FREE := Quote(0.0, [], [], [], None, None, NonCash)

  function Further(l: Ledger, opportunityId: string): StoredContract {
    StoredContract(NewId(l.contracts), opportunityId, PrimaryContract, Completed, "", "")
  }

  function Add(l: Ledger, opportunityId: string, quote: Quote): Event {
    CreateContract(Further(l, opportunityId), quote, 0, "")
  }

  lemma LeavesOneMore(l: Ledger, selection: Selection, r: Recording, events: seq<Event>, e: Event)
    requires RunLeaves(l, selection, r, events) && Leaves(Run(l, selection, events), r, e)
    ensures RunLeaves(l, selection, r, events + [e])
    ensures Run(l, selection, events + [e]) == Apply(Run(l, selection, events), selection, e)
  {
    var all := events + [e];
    InitLast(events, e);
    forall n | 0 <= n < |all|
      ensures Leaves(Run(l, selection, all[..n]), r, all[n])
    {
      if n < |events| {
        assert all[..n] == events[..n];
      } else {
        assert all[..n] == events;
      }
    }
  }

  /** What recording leaves as it was. */
  lemma RecordedIs(l: Ledger, selection: Selection, r: Recording)
    ensures var recorded := Record(l, selection, r);
            && recorded.contracts == l.contracts && |recorded.payments| == |l.payments|
            && forall k :: 0 <= k < |l.payments| && k != r.q ==> recorded.payments[k] == l.payments[k]
  {
  }

  /** If the next contract copies a record without the amount, the amount is not carried. */
  lemma OtherIsCopied(start: Ledger, selection: Selection, r: Recording, events: seq<Event>, before: Ledger, k: nat)
    requires IsActual(r.field) && before == Run(start, selection, events) && RunLeaves(start, selection, r, events)
    requires k < |before.payments| && Copied(before, selection, Further(before, r.opportunityId)) == k
    requires Number(before.payments[k], r.field) != r.amount
    ensures var more := events + [Add(before, r.opportunityId, FREE)];
            && RunLeaves(start, selection, r, more)
            && !CarriesFrom(Run(start, selection, more), |before.payments|, r)
  {
    LeavesOneMore(start, selection, r, events, Add(before, r.opportunityId, FREE));
    NextShowsCopied(before, selection, r, k);
  }

  lemma NextShowsCopied(l: Ledger, selection: Selection, r: Recording, k: nat)
    requires IsActual(r.field) && k < |l.payments|
    requires Copied(l, selection, Further(l, r.opportunityId)) == k && Number(l.payments[k], r.field) != r.amount
    ensures !CarriesFrom(Apply(l, selection, Add(l, r.opportunityId, FREE)), |l.payments|, r)
  {
    var c := Further(l, r.opportunityId);
    var after := Create(l, selection, c, FREE, 0, "");
    FreeComputes(None, c);
    NewRecordOf(l, selection, c, FREE, 0, "");
    NextCopies(l, selection, c, FREE, 0, "", r.field);
    assert after.payments[|l.payments|] == Last(after.payments);
  }

  lemma FreeComputes(latest: Option<Document>, c: StoredContract)
    ensures Computes(FREE) && NewPayment(latest, c.id, c.opportunityId, FREE, 0).Ok?
  {
  }

  /** A contract whose payment cannot be computed makes the service fall back to the newest record. */
  lemma NotNewestIsLost(l: Ledger, selection: Selection, opportunityId: string, q: nat, f: Field)
    returns (r: Recording, events: seq<Event>)
    requires Linked(l) && q < |l.payments| && OfOpportunity(l.payments[q], opportunityId) && IsActual(f)
    requires !IsNewest(l, opportunityId, q)
    ensures r == Recording(opportunityId, q, f, r.amount)
    ensures RunLeaves(Record(l, selection, r), selection, r, events)
    ensures !CarriesFrom(Run(Record(l, selection, r), selection, events), |l.payments|, r)
  {
    var k := NewestPayment(l.payments, opportunityId, None, false);
    assert k > q;
    r := Recording(opportunityId, q, f, Number(l.payments[k], f) + 1.0);
    RecordedIs(l, selection, r);
    RecordingKeepsNewest(l, selection, r);
    RecordingKeepsLinked(l, selection, r);
    events := FallBackRun(Record(l, selection, r), selection, r, k);
  }

  lemma RecordingKeepsLinked(l: Ledger, selection: Selection, r: Recording)
    requires Linked(l)
    ensures Linked(Record(l, selection, r))
  {
    StepKeepsLinked(l, selection, RecordActual(r.q, r.field, r.amount));
  }

  lemma FallBackRun(l: Ledger, selection: Selection, r: Recording, k: nat) returns (events: seq<Event>)
    requires Linked(l) && IsActual(r.field) && k < |l.payments|
    requires k == NewestPayment(l.payments, r.opportunityId, None, false) && Number(l.payments[k], r.field) != r.amount
    ensures RunLeaves(l, selection, r, events) && !CarriesFrom(Run(l, selection, events), |l.payments|, r)
  {
    var add := Add(l, r.opportunityId, UNCOUNTABLE);
    var before := Apply(l, selection, add);
    FallsBack(l, selection, r.opportunityId);
    LeavesOneMore(l, selection, r, [], add);
    assert [] + [add] == [add];
    OtherIsCopied(l, selection, r, [add], before, k);
    events := [add] + [Add(before, r.opportunityId, FREE)];
  }

  lemma RecordingKeepsNewest(l: Ledger, selection: Selection, r: Recording)
    ensures NewestPayment(Record(l, selection, r).payments, r.opportunityId, None, false)
         == NewestPayment(l.payments, r.opportunityId, None, false)
  {
    var after := Record(l, selection, r);
    if r.q < |l.payments| && IsActual(r.field) {
      assert forall k :: 0 <= k < |l.payments| ==> SameTexts(l.payments[k], after.payments[k]);
      NewestReadsTexts(l.payments, after.payments, r.opportunityId, None, false);
    }
  }

  lemma FallsBack(l: Ledger, selection: Selection, opportunityId: string)
    requires Linked(l)
    ensures var after := Apply(l, selection, Add(l, opportunityId, UNCOUNTABLE));
            && after == l.(contracts := l.contracts + [Further(l, opportunityId)])
            && Copied(after, selection, Further(after, opportunityId))
               == NewestPayment(l.payments, opportunityId, None, false)
  {
    var added := Further(l, opportunityId);
    var after := l.(contracts := l.contracts + [added]);
    UncountableAddsNothing(l, selection, opportunityId);
    var c := Further(after, opportunityId);
    var n := |l.contracts|;
    assert IsLastEarlier(after, c, n, false) && IsLastEarlier(after, c, n, true);
    IsPrevious(after, selection, c, n);
    CopiedIs(after, selection, c);
    forall k | 0 <= k < |l.payments|
      ensures !MadeFor(l.payments[k], added)
    {
      if MadeFor(l.payments[k], added) {
        OldRecordOldContract(l, added, k, n);
      }
    }
    var exact := RecordOf(after, n, opportunityId);
    assert exact >= 0 ==> MadeFor(l.payments[exact], added);
  }

  lemma UncountableAddsNothing(l: Ledger, selection: Selection, opportunityId: string)
    ensures Apply(l, selection, Add(l, opportunityId, UNCOUNTABLE))
         == l.(contracts := l.contracts + [Further(l, opportunityId)])
  {
    assert Last(UNCOUNTABLE.rebateAmounts) == None && Init(UNCOUNTABLE.rebateAmounts) == [];
    assert SumBy(UNCOUNTABLE.rebateAmounts).Err?;
  }

  /** The last earlier contract, and the last completed one, is the one the service takes as previous. */
  lemma IsPrevious(l: Ledger, selection: Selection, c: StoredContract, i: int)
    requires selection == IdOnly ==> IsLastEarlier(l, c, i, false)
    requires selection == WithStatus ==> IsLastEarlier(l, c, i, true)
    ensures PreviousContract(l.contracts, c.id, c.opportunityId, selection) == i
  {
    if selection == IdOnly {
      AsWrittenTakesNewest(l.contracts, c.id, c.opportunityId);
      LastEarlierIsNewest(l, c, i, false);
    } else {
      LastEarlierIsNewest(l, c, i, true);
    }
  }

  /** All contracts back to INITIATED, then the one at `i` a completed change order. */
  function Demotions(n: nat): seq<Event> {
    if n == 0 then [] else Demotions(n - 1) + [SetStatus(n - 1, Initiated)]
  }

  function Favouring(n: nat, i: nat): seq<Event> {
    Demotions(n) + [MakeChangeOrder(i)] + [SetStatus(i, Completed)]
  }

  function Demoted(contracts: seq<StoredContract>, n: nat): seq<StoredContract> {
    seq(|contracts|, k requires 0 <= k < |contracts| =>
      if k < n then contracts[k].(contractStatus := Initiated) else contracts[k])
  }

  lemma {:induction false} Demoting(l: Ledger, selection: Selection, n: nat)
    requires n <= |l.contracts|
    ensures Run(l, selection, Demotions(n)) == l.(contracts := Demoted(l.contracts, n))
  {
    if n == 0 {
      assert Demoted(l.contracts, 0) == l.contracts;
    } else {
      Demoting(l, selection, n - 1);
      InitLast(Demotions(n - 1), SetStatus(n - 1, Initiated));
      DemoteOneMore(l, selection, n);
    }
  }

  predicate TouchesContract(e: Event) {
    e.SetStatus? || e.MakeChangeOrder?
  }

  lemma {:induction false} DemotionsTouchContracts(n: nat)
    ensures forall m :: 0 <= m < |Demotions(n)| ==> TouchesContract(Demotions(n)[m])
  {
    if n > 0 {
      DemotionsTouchContracts(n - 1);
    }
  }

  lemma TouchingContractsLeaves(l: Ledger, selection: Selection, r: Recording, events: seq<Event>)
    requires forall n :: 0 <= n < |events| ==> TouchesContract(events[n])
    ensures RunLeaves(l, selection, r, events)
  {
    forall n | 0 <= n < |events|
      ensures Leaves(Run(l, selection, events[..n]), r, events[n])
    {
      assert TouchesContract(events[n]);
    }
  }

  lemma DemoteOneMore(l: Ledger, selection: Selection, n: nat)
    requires 0 < n <= |l.contracts|
    ensures Apply(l.(contracts := Demoted(l.contracts, n - 1)), selection, SetStatus(n - 1, Initiated))
         == l.(contracts := Demoted(l.contracts, n))
  {
    var earlier := Demoted(l.contracts, n - 1);
    assert earlier[n - 1 := earlier[n - 1].(contractStatus := Initiated)] == Demoted(l.contracts, n);
  }

  function Favoured(l: Ledger, i: nat): Ledger
    requires i < |l.contracts|
  {
    l.(contracts := Demoted(l.contracts, |l.contracts|)[i :=
         l.contracts[i].(contractStatus := Completed, contractType := ChangeOrder)])
  }

  lemma FavouringIs(l: Ledger, selection: Selection, r: Recording, i: nat)
    requires i < |l.contracts|
    ensures Run(l, selection, Favouring(|l.contracts|, i)) == Favoured(l, i)
    ensures RunLeaves(l, selection, r, Favouring(|l.contracts|, i))
  {
    var n := |l.contracts|;
    Demoting(l, selection, n);
    DemotionsTouchContracts(n);
    TouchingContractsLeaves(l, selection, r, Favouring(n, i));
    InitLast(Demotions(n), MakeChangeOrder(i));
    InitLast(Demotions(n) + [MakeChangeOrder(i)], SetStatus(i, Completed));
    FavouredIs(l, selection, i);
  }

  lemma FavouredIs(l: Ledger, selection: Selection, i: nat)
    requires i < |l.contracts|
    ensures var demoted := l.(contracts := Demoted(l.contracts, |l.contracts|));
            Apply(Apply(demoted, selection, MakeChangeOrder(i)), selection, SetStatus(i, Completed)) == Favoured(l, i)
  {
  }

  /** The contract of an older record can be made the previous one, unless it is overtaken. */
  lemma UnsettledIsLost(l: Ledger, selection: Selection, opportunityId: string, q: nat, f: Field)
    returns (r: Recording, events: seq<Event>)
    requires Linked(l) && q < |l.payments| && OfOpportunity(l.payments[q], opportunityId) && IsActual(f)
    requires !Settled(l, selection, opportunityId, q)
    ensures r == Recording(opportunityId, q, f, r.amount)
    ensures RunLeaves(Record(l, selection, r), selection, r, events)
    ensures !CarriesFrom(Run(Record(l, selection, r), selection, events), |l.payments|, r)
  {
    var k: nat, i: nat :| k < q && i < |l.contracts| && IsRecordOf(l, opportunityId, k, i)
      && !(selection == IdOnly && Overtaken(l, opportunityId, i));
    r := Recording(opportunityId, q, f, Number(l.payments[k], f) + 1.0);
    RecordedIs(l, selection, r);
    RecordingKeepsLinked(l, selection, r);
    assert Overtaken(Record(l, selection, r), opportunityId, i) <==> Overtaken(l, opportunityId, i);
    events := FavouringRun(Record(l, selection, r), selection, r, k, i);
  }

  lemma FavouringRun(l: Ledger, selection: Selection, r: Recording, k: nat, i: nat) returns (events: seq<Event>)
    requires Linked(l) && IsActual(r.field) && k < |l.payments| && i < |l.contracts|
    requires IsRecordOf(l, r.opportunityId, k, i) && (selection == IdOnly ==> !Overtaken(l, r.opportunityId, i))
    requires Number(l.payments[k], r.field) != r.amount
    ensures RunLeaves(l, selection, r, events) && !CarriesFrom(Run(l, selection, events), |l.payments|, r)
  {
    var before := Favoured(l, i);
    FavouringIs(l, selection, r, i);
    FavouredIsCopied(l, selection, r.opportunityId, k, i);
    OtherIsCopied(l, selection, r, Favouring(|l.contracts|, i), before, k);
    events := Favouring(|l.contracts|, i) + [Add(before, r.opportunityId, FREE)];
  }

  lemma FavouredIsCopied(l: Ledger, selection: Selection, opportunityId: string, k: nat, i: nat)
    requires Linked(l) && k < |l.payments| && i < |l.contracts|
    requires l.contracts[i].opportunityId == opportunityId && MadeFor(l.payments[k], l.contracts[i])
    requires selection == IdOnly ==> !Overtaken(l, opportunityId, i)
    ensures var after := Favoured(l, i);
            Copied(after, selection, Further(after, opportunityId)) == k
  {
    var after := Favoured(l, i);
    SameLinks(l, after);
    FavouredIsPrevious(l, selection, opportunityId, i);
    assert MadeFor(after.payments[k], after.contracts[i]);
    CopiedExactly(after, selection, Further(after, opportunityId), k);
  }

  lemma FavouredIsPrevious(l: Ledger, selection: Selection, opportunityId: string, i: nat)
    requires i < |l.contracts| && l.contracts[i].opportunityId == opportunityId
    requires selection == IdOnly ==> !Overtaken(l, opportunityId, i)
    ensures var after := Favoured(l, i);
            var c := Further(after, opportunityId);
            PreviousContract(after.contracts, c.id, opportunityId, selection) == i
  {
    var after := Favoured(l, i);
    var c := Further(after, opportunityId);
    assert IsEarlier(after.contracts[i], c.id, opportunityId);
    if selection == IdOnly {
      forall m | i < m < |after.contracts|
        ensures !IsEarlier(after.contracts[m], c.id, opportunityId)
      {
        assert !OrdinaryOf(l.contracts[m], opportunityId);
      }
    }
    IsPrevious(after, selection, c, i);
  }
}
