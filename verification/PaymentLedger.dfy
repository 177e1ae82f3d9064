/**
  Payments carried forward along the contracts of an opportunity (customer-payment.service.ts): which
  earlier payment a new record copies, and what every run of contracts and payments keeps.
 */
module PaymentLedger {
  import opened Common
  import opened Contracts
  import opened CustomerPayments

  datatype StoredContract = StoredContract(
    id: string,
    opportunityId: string,
    contractType: ContractType,
    contractStatus: ProcessStatus,
    primaryContractId: string,
    referenceId: string)

  /** Contracts and payments in order of creation. */
  datatype Ledger = Ledger(contracts: seq<StoredContract>, payments: seq<Document>)

  /**
    What the query for earlier contracts selects. The service writes `.select('_id')`, so the status it then
    looks at is absent; `WithStatus` is the selection its next line means.
   */
  datatype Selection = IdOnly | WithStatus

  function ProjectedStatus(selection: Selection, c: StoredContract): Option<ProcessStatus> {
    if selection == IdOnly then None else Some(c.contractStatus)
  }

  predicate IsEarlier(c: StoredContract, contractId: string, opportunityId: string) {
    c.opportunityId == opportunityId && c.contractType != GridServicesPacket && c.id != contractId
  }

  /** Position of the newest earlier contract, if asked one whose projected status is COMPLETED, or -1. */
  function NewestEarlier(contracts: seq<StoredContract>, contractId: string, opportunityId: string,
                         selection: Selection, completedOnly: bool): (r: int)
    ensures -1 <= r < |contracts|
    ensures r >= 0 ==> IsEarlier(contracts[r], contractId, opportunityId)
                       && (completedOnly ==> ProjectedStatus(selection, contracts[r]) == Some(Completed))
    ensures forall k :: r < k < |contracts| && IsEarlier(contracts[k], contractId, opportunityId)
              ==> completedOnly && ProjectedStatus(selection, contracts[k]) != Some(Completed)
  {
    if contracts == [] then -1
    else
      var c := Last(contracts);
      if IsEarlier(c, contractId, opportunityId)
         && (completedOnly ==> ProjectedStatus(selection, c) == Some(Completed))
      then |contracts| - 1
      else NewestEarlier(Init(contracts), contractId, opportunityId, selection, completedOnly)
  }

  /** `previousContractList.find(COMPLETED) || previousContractList[0]`, as a position. */
  function PreviousContract(contracts: seq<StoredContract>, contractId: string, opportunityId: string,
                            selection: Selection): int
  {
    var completed := NewestEarlier(contracts, contractId, opportunityId, selection, true);
    if completed >= 0 then completed else NewestEarlier(contracts, contractId, opportunityId, selection, false)
  }

  function TextOf(d: Document, f: Field): Option<string> {
    if f in d && d[f].Text? then Some(d[f].text) else None
  }

  /** Position of the newest payment of the opportunity, if asked one made for the given contract, or -1. */
  function NewestPayment(payments: seq<Document>, opportunityId: string, contractId: Option<string>, ofContract: bool)
    : (r: int)
    ensures -1 <= r < |payments|
    ensures r >= 0 ==> TextOf(payments[r], OpportunityId) == Some(opportunityId)
                       && (ofContract ==> TextOf(payments[r], WqtContractId) == contractId)
    ensures forall k :: r < k < |payments| && TextOf(payments[k], OpportunityId) == Some(opportunityId)
              ==> ofContract && TextOf(payments[k], WqtContractId) != contractId
  {
    if payments == [] then -1
    else
      var d := Last(payments);
      if TextOf(d, OpportunityId) == Some(opportunityId) && (ofContract ==> TextOf(d, WqtContractId) == contractId)
      then |payments| - 1
      else NewestPayment(Init(payments), opportunityId, contractId, ofContract)
  }

  /** `getLatestCustomerPayment`, as a position or -1. */
  function LatestPayment(l: Ledger, contractId: string, opportunityId: string, selection: Selection): (r: int)
    ensures -1 <= r < |l.payments|
  {
    var previous := PreviousContract(l.contracts, contractId, opportunityId, selection);
    var previousId := if previous >= 0 then Some(l.contracts[previous].id) else None;
    var exact := NewestPayment(l.payments, opportunityId, previousId, true);
    if exact >= 0 then exact else NewestPayment(l.payments, opportunityId, previousId, false)
  }

  function PaymentAt(l: Ledger, k: int): Option<Document>
    requires -1 <= k < |l.payments|
  {
    if k < 0 then None else Some(l.payments[k])
  }

  // ---------------------------------------------------------------- what the selection really does

  /** As written, the service always takes the newest earlier contract, completed or not. */
  lemma AsWrittenTakesNewest(contracts: seq<StoredContract>, contractId: string, opportunityId: string)
    ensures PreviousContract(contracts, contractId, opportunityId, IdOnly)
         == NewestEarlier(contracts, contractId, opportunityId, WithStatus, false)
  {
    SelectionDoesNotMatterForNewest(contracts, contractId, opportunityId);
  }

  lemma {:induction false} SelectionDoesNotMatterForNewest(contracts: seq<StoredContract>, contractId: string,
                                                           opportunityId: string)
    ensures NewestEarlier(contracts, contractId, opportunityId, IdOnly, false)
         == NewestEarlier(contracts, contractId, opportunityId, WithStatus, false)
    ensures NewestEarlier(contracts, contractId, opportunityId, IdOnly, true) == -1
  {
    if contracts != [] {
      SelectionDoesNotMatterForNewest(Init(contracts), contractId, opportunityId);
    }
  }

  ghost predicate NewestIsCompleted(contracts: seq<StoredContract>, contractId: string, opportunityId: string) {
    exists k :: 0 <= k < |contracts| && IsEarlier(contracts[k], contractId, opportunityId)
                && contracts[k].contractStatus == Completed
                && forall m :: k < m < |contracts| ==> !IsEarlier(contracts[m], contractId, opportunityId)
  }

  ghost predicate NoneIsCompleted(contracts: seq<StoredContract>, contractId: string, opportunityId: string) {
    forall k :: 0 <= k < |contracts| && IsEarlier(contracts[k], contractId, opportunityId)
                ==> contracts[k].contractStatus != Completed
  }

  /**
    That is the contract it means to take exactly when the newest earlier contract is completed or no earlier
    contract is.
   */
  lemma AsWrittenIsAsMeantExactly(contracts: seq<StoredContract>, contractId: string, opportunityId: string)
    ensures PreviousContract(contracts, contractId, opportunityId, IdOnly)
              == PreviousContract(contracts, contractId, opportunityId, WithStatus)
       <==> NewestIsCompleted(contracts, contractId, opportunityId)
            || NoneIsCompleted(contracts, contractId, opportunityId)
  {
    AsWrittenTakesNewest(contracts, contractId, opportunityId);
    var newest := NewestEarlier(contracts, contractId, opportunityId, WithStatus, false);
    var completed := NewestEarlier(contracts, contractId, opportunityId, WithStatus, true);
    if completed >= 0 {
      assert contracts[completed].contractStatus == Completed && completed <= newest;
    } else {
      forall k | 0 <= k < |contracts| && IsEarlier(contracts[k], contractId, opportunityId)
        ensures contracts[k].contractStatus != Completed
      {
        assert ProjectedStatus(WithStatus, contracts[k]) != Some(Completed);
      }
    }
  }

  // ---------------------------------------------------------------- runs

  datatype Event =
    | CreateContract(contract: StoredContract, quote: Quote, now: int, paymentId: string)
    | SetStatus(position: nat, status: ProcessStatus)
    | MakeChangeOrder(position: nat)
    | RecordActual(paymentPosition: nat, field: Field, amount: real)

  predicate IsActual(f: Field) {
    f == ActualDepositMade || f == ActualPayment1Made || f == ActualPayment2Made
  }

  /** The contract is stored first; a quote whose amounts are not numbers leaves it without a payment. */
  function Create(l: Ledger, selection: Selection, c: StoredContract, quote: Quote, now: int, paymentId: string)
    : Ledger
  {
    var stored := l.(contracts := l.contracts + [c]);
    var latest := PaymentAt(stored, LatestPayment(stored, c.id, c.opportunityId, selection));
    match NewPayment(latest, c.id, c.opportunityId, quote, now)
    case Ok(d) => stored.(payments := l.payments + [d[Id := Text(paymentId)]])
    case Err(_) => stored
  }

  function Apply(l: Ledger, selection: Selection, e: Event): Ledger {
    match e
    case CreateContract(c, quote, now, paymentId) => Create(l, selection, c, quote, now, paymentId)
    case SetStatus(i, status) =>
      if i < |l.contracts| then l.(contracts := l.contracts[i := l.contracts[i].(contractStatus := status)]) else l
    case MakeChangeOrder(i) =>
      if i < |l.contracts| && l.contracts[i].contractStatus == Initiated
      then l.(contracts := l.contracts[i := l.contracts[i].(contractType := ChangeOrder)]) else l
    case RecordActual(k, f, amount) =>
      if k < |l.payments| && IsActual(f) then l.(payments := l.payments[k := l.payments[k][f := Num(amount)]]) else l
  }

  function Run(l: Ledger, selection: Selection, events: seq<Event>): Ledger {
    if events == [] then l else Apply(Run(l, selection, Init(events)), selection, Last(events))
  }

  predicate Records(e: Event, k: nat, f: Field) {
    e.RecordActual? && e.paymentPosition == k && e.field == f && IsActual(f)
  }

  /** No record is ever dropped or rewritten: only recording an actual amount changes it, and only that amount. */
  lemma {:induction false} RecordsPersist(l: Ledger, selection: Selection, events: seq<Event>, k: nat, f: Field)
    requires k < |l.payments|
    requires forall n :: 0 <= n < |events| ==> !Records(events[n], k, f)
    ensures var after := Run(l, selection, events).payments;
            && k < |after|
            && (f in after[k] <==> f in l.payments[k])
            && (f in l.payments[k] ==> after[k][f] == l.payments[k][f])
  {
    if events != [] {
      RecordsPersist(l, selection, Init(events), k, f);
      RecordPersists(Run(l, selection, Init(events)), selection, Last(events), k, f);
    }
  }

  lemma RecordPersists(l: Ledger, selection: Selection, e: Event, k: nat, f: Field)
    requires k < |l.payments| && !Records(e, k, f)
    ensures var after := Apply(l, selection, e).payments;
            && k < |after|
            && (f in after[k] <==> f in l.payments[k])
            && (f in l.payments[k] ==> after[k][f] == l.payments[k][f])
  {
  }

  // ---------------------------------------------------------------- an amount once paid

  predicate OfOpportunity(d: Document, opportunityId: string) {
    TextOf(d, OpportunityId) == Some(opportunityId)
  }

  /** The actual amount of a field, recorded on the record at `q`, of the contract at `pivot`. */
  datatype Paid = Paid(opportunityId: string, pivot: int, q: int, field: Field, amount: real)

  predicate CompletedOf(c: StoredContract, opportunityId: string) {
    c.opportunityId == opportunityId && c.contractType != GridServicesPacket && c.contractStatus == Completed
  }

  /** When statuses are looked at, no completed contract before `pivot` is preferred to those from `pivot` on. */
  ghost predicate NoOlderPreferred(contracts: seq<StoredContract>, selection: Selection, opportunityId: string,
                                   pivot: int)
  {
    (selection == WithStatus
     && exists j :: 0 <= j < |contracts| && j < pivot && CompletedOf(contracts[j], opportunityId))
    ==> exists i :: 0 <= i < |contracts| && pivot <= i && CompletedOf(contracts[i], opportunityId)
  }

  /**
    It was recorded, every later record of the opportunity carries it, and no older contract is preferred to the
    one it was recorded for.
   */
  ghost predicate PaidSince(l: Ledger, selection: Selection, p: Paid) {
    && IsActual(p.field)
    && 0 <= p.pivot < |l.contracts| && 0 <= p.q < |l.payments|
    && l.contracts[p.pivot].opportunityId == p.opportunityId
    && l.contracts[p.pivot].contractType != GridServicesPacket
    && NoOlderPreferred(l.contracts, selection, p.opportunityId, p.pivot)
    && OfOpportunity(l.payments[p.q], p.opportunityId)
    && (forall k :: p.q <= k < |l.payments| && OfOpportunity(l.payments[k], p.opportunityId)
          ==> Number(l.payments[k], p.field) == p.amount)
    && (forall k, i :: 0 <= k < p.q && p.pivot <= i < |l.contracts| ==> !MadeFor(l.payments[k], l.contracts[i]))
  }

  predicate MadeFor(d: Document, c: StoredContract) {
    OfOpportunity(d, c.opportunityId) && TextOf(d, WqtContractId) == Some(c.id)
  }

  /**
    What the world around the service must respect: ids are new, the recorded amount is not overwritten, and
    no status makes the service prefer an older contract.
   */
  ghost predicate Respects(l: Ledger, selection: Selection, p: Paid, e: Event) {
    match e
    case CreateContract(c, _, _, _) =>
      && (forall i :: 0 <= i < |l.contracts| ==> l.contracts[i].id != c.id)
      && (forall k :: 0 <= k < |l.payments| ==> TextOf(l.payments[k], WqtContractId) != Some(c.id))
    case SetStatus(_, _) => NoOlderPreferred(Apply(l, selection, e).contracts, selection, p.opportunityId, p.pivot)
    case MakeChangeOrder(_) => true
    case RecordActual(k, f, a) =>
      f == p.field && p.q <= k < |l.payments| && OfOpportunity(l.payments[k], p.opportunityId) ==> a == p.amount
  }

  /** The payment a further contract copies is then one that carries the amount. */
  lemma LatestCarries(l: Ledger, selection: Selection, p: Paid, c: StoredContract)
    requires PaidSince(l, selection, p)
    requires c.opportunityId == p.opportunityId
    requires forall i :: 0 <= i < |l.contracts| ==> l.contracts[i].id != c.id
    ensures var stored := l.(contracts := l.contracts + [c]);
            var k := LatestPayment(stored, c.id, p.opportunityId, selection);
            p.q <= k < |l.payments| && OfOpportunity(l.payments[k], p.opportunityId)
  {
    var contracts := l.contracts + [c];
    assert contracts[p.pivot] == l.contracts[p.pivot];
    var previous := PreviousContract(contracts, c.id, p.opportunityId, selection);
    PreviousIsNotOlder(l, selection, p, c);
    assert contracts[previous] == l.contracts[previous];
    var exact := NewestPayment(l.payments, p.opportunityId, Some(contracts[previous].id), true);
    if 0 <= exact {
      assert MadeFor(l.payments[exact], l.contracts[previous]);
    }
  }

  lemma PreviousIsNotOlder(l: Ledger, selection: Selection, p: Paid, c: StoredContract)
    requires PaidSince(l, selection, p)
    requires c.opportunityId == p.opportunityId
    requires forall i :: 0 <= i < |l.contracts| ==> l.contracts[i].id != c.id
    ensures p.pivot <= PreviousContract(l.contracts + [c], c.id, p.opportunityId, selection) < |l.contracts|
  {
    var contracts := l.contracts + [c];
    assert contracts[p.pivot] == l.contracts[p.pivot];
    assert IsEarlier(contracts[p.pivot], c.id, p.opportunityId);
    var completed := NewestEarlier(contracts, c.id, p.opportunityId, selection, true);
    if selection == WithStatus
       && exists i :: 0 <= i < |l.contracts| && p.pivot <= i && CompletedOf(l.contracts[i], p.opportunityId) {
      var i :| 0 <= i < |l.contracts| && p.pivot <= i && CompletedOf(l.contracts[i], p.opportunityId);
      assert contracts[i] == l.contracts[i] && IsEarlier(contracts[i], c.id, p.opportunityId);
      assert ProjectedStatus(selection, contracts[i]) == Some(Completed);
    } else {
      assert forall j :: 0 <= j < p.pivot ==> contracts[j] == l.contracts[j];
      assert forall j :: 0 <= j < p.pivot && selection == WithStatus ==> !CompletedOf(contracts[j], p.opportunityId);
    }
  }

  lemma StepKeepsPaid(l: Ledger, selection: Selection, p: Paid, e: Event)
    requires PaidSince(l, selection, p)
    requires Respects(l, selection, p, e)
    ensures PaidSince(Apply(l, selection, e), selection, p)
  {
    match e
    case CreateContract(c, quote, now, paymentId) => CreateKeepsPaid(l, selection, p, c, quote, now, paymentId);
    case SetStatus(_, _) => ContractKeepsPaid(l, selection, p, e);
    case MakeChangeOrder(_) => ContractKeepsPaid(l, selection, p, e);
    case RecordActual(_, _, _) => RecordKeepsPaid(l, selection, p, e);
  }

  lemma ContractKeepsPaid(l: Ledger, selection: Selection, p: Paid, e: Event)
    requires e.SetStatus? || e.MakeChangeOrder?
    requires PaidSince(l, selection, p)
    requires Respects(l, selection, p, e)
    ensures PaidSince(Apply(l, selection, e), selection, p)
  {
    var after := Apply(l, selection, e);
    forall k, i | 0 <= k < p.q && p.pivot <= i < |after.contracts|
      ensures !MadeFor(after.payments[k], after.contracts[i])
    {
      assert !MadeFor(l.payments[k], l.contracts[i]);
    }
    if e.MakeChangeOrder? {
      forall i | 0 <= i < |l.contracts|
        ensures CompletedOf(after.contracts[i], p.opportunityId) <==> CompletedOf(l.contracts[i], p.opportunityId)
      {
      }
      SamePreference(l.contracts, after.contracts, selection, p.opportunityId, p.pivot);
    }
  }

  lemma SamePreference(before: seq<StoredContract>, after: seq<StoredContract>, selection: Selection,
                       opportunityId: string, pivot: int)
    requires NoOlderPreferred(before, selection, opportunityId, pivot)
    requires |before| <= |after| && pivot < |before|
    requires forall i :: 0 <= i < |before| ==>
               (CompletedOf(after[i], opportunityId) <==> CompletedOf(before[i], opportunityId))
    ensures NoOlderPreferred(after, selection, opportunityId, pivot)
  {
    if selection == WithStatus && exists j :: 0 <= j < pivot && j < |after| && CompletedOf(after[j], opportunityId) {
      var j :| 0 <= j < pivot && j < |after| && CompletedOf(after[j], opportunityId);
      assert CompletedOf(before[j], opportunityId);
      var i :| 0 <= i < |before| && pivot <= i && CompletedOf(before[i], opportunityId);
      assert CompletedOf(after[i], opportunityId);
    }
  }

  lemma RecordKeepsPaid(l: Ledger, selection: Selection, p: Paid, e: Event)
    requires e.RecordActual?
    requires PaidSince(l, selection, p)
    requires Respects(l, selection, p, e)
    ensures PaidSince(Apply(l, selection, e), selection, p)
  {
    var after := Apply(l, selection, e);
    forall k | 0 <= k < |l.payments|
      ensures TextOf(after.payments[k], OpportunityId) == TextOf(l.payments[k], OpportunityId)
      ensures TextOf(after.payments[k], WqtContractId) == TextOf(l.payments[k], WqtContractId)
    {
    }
    forall k, i | 0 <= k < p.q && p.pivot <= i < |after.contracts|
      ensures !MadeFor(after.payments[k], after.contracts[i])
    {
      assert !MadeFor(l.payments[k], l.contracts[i]);
    }
  }

  lemma CreateKeepsPaid(l: Ledger, selection: Selection, p: Paid,
                        c: StoredContract, quote: Quote, now: int, paymentId: string)
    requires PaidSince(l, selection, p)
    requires Respects(l, selection, p, CreateContract(c, quote, now, paymentId))
    ensures PaidSince(Create(l, selection, c, quote, now, paymentId), selection, p)
  {
    OlderStayOlder(l, selection, p, c, quote, now, paymentId);
    SamePreference(l.contracts, l.contracts + [c], selection, p.opportunityId, p.pivot);
    if |Create(l, selection, c, quote, now, paymentId).payments| > |l.payments| {
      NewRecordOf(l, selection, c, quote, now, paymentId);
      if c.opportunityId == p.opportunityId {
        LatestCarries(l, selection, p, c);
      }
    }
  }

  /** No record before the paid one belongs to its contract or a later one, the new one included. */
  lemma OlderStayOlder(l: Ledger, selection: Selection, p: Paid,
                       c: StoredContract, quote: Quote, now: int, paymentId: string)
    requires PaidSince(l, selection, p)
    requires Respects(l, selection, p, CreateContract(c, quote, now, paymentId))
    ensures var after := Create(l, selection, c, quote, now, paymentId);
            && |l.payments| <= |after.payments|
            && forall k, i :: 0 <= k < p.q && p.pivot <= i < |after.contracts|
                 ==> !MadeFor(after.payments[k], after.contracts[i])
  {
    var after := Create(l, selection, c, quote, now, paymentId);
    forall k, i | 0 <= k < p.q && p.pivot <= i < |after.contracts|
      ensures !MadeFor(after.payments[k], after.contracts[i])
    {
      assert after.payments[k] == l.payments[k];
      if i < |l.contracts| {
        assert !MadeFor(l.payments[k], l.contracts[i]);
      }
    }
  }

  /** The payment a new contract copies. */
  function CopiedBy(l: Ledger, selection: Selection, c: StoredContract): Option<Document> {
    PaymentAt(l, LatestPayment(l.(contracts := l.contracts + [c]), c.id, c.opportunityId, selection))
  }

  /** The record a new contract appends: of its opportunity and contract, with the actual amounts it copied. */
  lemma NewRecordOf(l: Ledger, selection: Selection, c: StoredContract, quote: Quote, now: int, paymentId: string)
    requires |Create(l, selection, c, quote, now, paymentId).payments| > |l.payments|
    ensures var after := Create(l, selection, c, quote, now, paymentId).payments;
            && |after| == |l.payments| + 1 && Init(after) == l.payments
            && IsRecordFor(Last(after), CopiedBy(l, selection, c).GetOr(map[]), c, quote)
  {
    var latest := CopiedBy(l, selection, c);
    var d := NewPayment(latest, c.id, c.opportunityId, quote, now).value;
    InitLast(l.payments, d[Id := Text(paymentId)]);
    RecordFor(latest, c, quote, now, d, paymentId);
  }

  ghost predicate IsRecordFor(d: Document, latest: Document, c: StoredContract, quote: Quote) {
    && MadeFor(d, c)
    && Number(d, ActualDepositMade) == Number(latest, ActualDepositMade)
    && Number(d, ActualPayment1Made) == Number(latest, ActualPayment1Made)
    && Number(d, ActualPayment2Made) == Number(latest, ActualPayment2Made)
    && Number(d, Deposit) == Number(Billing(latest, quote), Deposit)
    && Number(d, Payment1) == Number(Billing(latest, quote), Payment1)
    && Number(d, Payment2) == Number(Billing(latest, quote), Payment2)
  }

  lemma RecordFor(latest: Option<Document>, c: StoredContract, quote: Quote, now: int, d: Document, paymentId: string)
    requires NewPayment(latest, c.id, c.opportunityId, quote, now) == Ok(d)
    ensures IsRecordFor(d[Id := Text(paymentId)], latest.GetOr(map[]), c, quote)
  {
    var copied, stored := latest.GetOr(map[]), d[Id := Text(paymentId)];
    RecordCarriesSplit(latest, c.id, c.opportunityId, quote, now, d);
    IdentityOfNewPayment(latest, c, quote, now, d);
    forall f | IsActual(f)
      ensures Number(stored, f) == Number(copied, f)
    {
      OtherKeysAreCopied(latest, c.id, c.opportunityId, quote, now, d, f);
      OtherThanId(d, paymentId, f);
    }
    OtherThanId(d, paymentId, Deposit);
    OtherThanId(d, paymentId, Payment1);
    OtherThanId(d, paymentId, Payment2);
    assert MadeFor(stored, c);
  }

  lemma OtherThanId(d: Document, paymentId: string, f: Field)
    requires f != Id
    ensures Number(d[Id := Text(paymentId)], f) == Number(d, f)
  {
  }

  lemma IdentityOfNewPayment(latest: Option<Document>, c: StoredContract, quote: Quote, now: int, d: Document)
    requires NewPayment(latest, c.id, c.opportunityId, quote, now) == Ok(d)
    ensures MadeFor(d, c)
  {
    var rebate, promotions := SumBy(quote.rebateAmounts).value, SumBy(quote.promotionAmounts).value;
    var header := Header(latest.GetOr(map[]), c.id, c.opportunityId, quote, rebate, promotions, now);
    var billing := Billing(latest.GetOr(map[]), quote);
    assert d == header + billing;
    assert OpportunityId !in billing && WqtContractId !in billing;
    assert header[OpportunityId] == Text(c.opportunityId) && header[WqtContractId] == Text(c.id);
  }

  /** The run respects the payment at every step. */
  ghost predicate RunRespects(l: Ledger, selection: Selection, p: Paid,
                              events: seq<Event>)
  {
    forall n :: 0 <= n < |events| ==>
      Respects(Run(l, selection, events[..n]), selection, p, events[n])
  }

  /**
    An actual amount paid is never lost, whatever contracts, change orders, voids, completions and payments follow:
    every later record of the opportunity still carries it.
   */
  lemma {:induction false} PaidForever(l: Ledger, selection: Selection, p: Paid,
                                       events: seq<Event>)
    requires PaidSince(l, selection, p)
    requires RunRespects(l, selection, p, events)
    ensures PaidSince(Run(l, selection, events), selection, p)
  {
    if events != [] {
      var n := |events| - 1;
      assert events[..n] == Init(events);
      forall m | 0 <= m < n
        ensures Init(events)[..m] == events[..m]
      {
      }
      PaidForever(l, selection, p, Init(events));
      StepKeepsPaid(Run(l, selection, Init(events)), selection, p, events[n]);
    }
  }

  /** Payment 1 made, every later cash record bills exactly that amount, payment 2 making up the rest. */
  lemma LaterCashRecordBillsIt(l: Ledger, selection: Selection, p: Paid,
                               events: seq<Event>, c: StoredContract, quote: Quote, now: int, paymentId: string)
    requires PaidSince(l, selection, p) && p.field == ActualPayment1Made && p.amount != 0.0
    requires RunRespects(l, selection, p, events)
    requires Respects(Run(l, selection, events), selection, p,
                      CreateContract(c, quote, now, paymentId))
    requires c.opportunityId == p.opportunityId && quote.product.Cash?
    ensures var before := Run(l, selection, events);
            var after := Create(before, selection, c, quote, now, paymentId).payments;
            |after| > |before.payments| ==> BillsPaid(Last(after), quote, p.amount)
  {
    var before := Run(l, selection, events);
    PaidForever(l, selection, p, events);
    CashRecordBillsIt(before, selection, p, c, quote, now, paymentId);
  }

  lemma CashRecordBillsIt(l: Ledger, selection: Selection, p: Paid,
                          c: StoredContract, quote: Quote, now: int, paymentId: string)
    requires PaidSince(l, selection, p) && p.field == ActualPayment1Made && p.amount != 0.0
    requires forall i :: 0 <= i < |l.contracts| ==> l.contracts[i].id != c.id
    requires c.opportunityId == p.opportunityId && quote.product.Cash?
    ensures var after := Create(l, selection, c, quote, now, paymentId).payments;
            |after| > |l.payments| ==> BillsPaid(Last(after), quote, p.amount)
  {
    LatestCarries(l, selection, p, c);
    var after := Create(l, selection, c, quote, now, paymentId).payments;
    if |after| > |l.payments| {
      NewRecordOf(l, selection, c, quote, now, paymentId);
      RecordBillsPaid(Last(after), CopiedBy(l, selection, c).value, c, quote, p.amount);
    }
  }

  /** Payment 1 is billed as it was made, payment 2 is what is left of the net amount. */
  ghost predicate BillsPaid(d: Document, quote: Quote, amount: real)
    requires quote.product.Cash?
  {
    && Number(d, Payment1) == amount
    && Number(d, Payment2) == RoundCents(AfterDeposit(quote) - amount)
    && -0.005 < Number(d, Deposit) + amount + Number(d, Payment2) - quote.netAmount <= 0.005
  }

  lemma RecordBillsPaid(d: Document, latest: Document, c: StoredContract, quote: Quote, amount: real)
    requires IsRecordFor(d, latest, c, quote)
    requires quote.product.Cash? && Number(latest, ActualPayment1Made) == amount != 0.0
    ensures BillsPaid(d, quote, amount)
  {
    PaidPaymentIsBilled(latest, quote);
  }

  // ---------------------------------------------------------------- from the first contract on

  /** Contract ids are distinct, every payment has its contract, and payments come in the order of their contracts. */
  ghost predicate Linked(l: Ledger) {
    && (forall i, j :: 0 <= i < j < |l.contracts| ==> l.contracts[i].id != l.contracts[j].id)
    && (forall k :: 0 <= k < |l.payments| ==> HasContract(l, l.payments[k]))
    && (forall k, m, i, j ::
          (0 <= k < m < |l.payments| && 0 <= i < |l.contracts| && 0 <= j < |l.contracts|
           && MadeFor(l.payments[k], l.contracts[i]) && MadeFor(l.payments[m], l.contracts[j])) ==> i < j)
  }

  ghost predicate HasContract(l: Ledger, d: Document) {
    exists i :: 0 <= i < |l.contracts| && MadeFor(d, l.contracts[i])
  }

  predicate IsNew(l: Ledger, e: Event) {
    e.CreateContract? ==> forall i :: 0 <= i < |l.contracts| ==> l.contracts[i].id != e.contract.id
  }

  /** Whatever happens to contracts and payments, as long as contract ids are new, they stay linked. */
  lemma {:induction false} EveryRunIsLinked(selection: Selection, events: seq<Event>)
    requires forall n :: 0 <= n < |events| ==> IsNew(Run(Ledger([], []), selection, events[..n]), events[n])
    ensures Linked(Run(Ledger([], []), selection, events))
  {
    if events != [] {
      var n := |events| - 1;
      assert events[..n] == Init(events);
      forall m | 0 <= m < n
        ensures Init(events)[..m] == events[..m]
      {
      }
      EveryRunIsLinked(selection, Init(events));
      StepKeepsLinked(Run(Ledger([], []), selection, Init(events)), selection, events[n]);
    }
  }

  lemma StepKeepsLinked(l: Ledger, selection: Selection, e: Event)
    requires Linked(l) && IsNew(l, e)
    ensures Linked(Apply(l, selection, e))
  {
    match e
    case CreateContract(c, quote, now, paymentId) =>
      CreateKeepsLinked(l, selection, c, quote, now, paymentId);
    case SetStatus(_, _) =>
      SameLinks(l, Apply(l, selection, e));
    case MakeChangeOrder(_) =>
      SameLinks(l, Apply(l, selection, e));
    case RecordActual(_, _, _) =>
      SameLinks(l, Apply(l, selection, e));
  }

  lemma CreateKeepsLinked(l: Ledger, selection: Selection, c: StoredContract, quote: Quote, now: int, paymentId: string)
    requires Linked(l) && forall i :: 0 <= i < |l.contracts| ==> l.contracts[i].id != c.id
    ensures Linked(Create(l, selection, c, quote, now, paymentId))
  {
    if |Create(l, selection, c, quote, now, paymentId).payments| > |l.payments| {
      NewRecordOf(l, selection, c, quote, now, paymentId);
    }
    CreatedIsLinked(l, Create(l, selection, c, quote, now, paymentId), c);
  }

  lemma CreatedIsLinked(l: Ledger, after: Ledger, c: StoredContract)
    requires Linked(l) && forall i :: 0 <= i < |l.contracts| ==> l.contracts[i].id != c.id
    requires after.contracts == l.contracts + [c]
    requires after.payments == l.payments
             || (after.payments != [] && Init(after.payments) == l.payments && MadeFor(Last(after.payments), c))
    ensures Linked(after)
  {
    CreatedHasContract(l, after, c);
    forall k, m, i, j | 0 <= k < m < |after.payments| && 0 <= i < |after.contracts| && 0 <= j < |after.contracts|
      && MadeFor(after.payments[k], after.contracts[i]) && MadeFor(after.payments[m], after.contracts[j])
      ensures i < j
    {
      OldRecordOldContract(l, c, k, i);
      if m < |l.payments| {
        OldRecordOldContract(l, c, m, j);
      }
    }
  }

  /** A record of before is not one of the new contract. */
  lemma OldRecordOldContract(l: Ledger, c: StoredContract, k: int, i: int)
    requires Linked(l) && forall i :: 0 <= i < |l.contracts| ==> l.contracts[i].id != c.id
    requires 0 <= k < |l.payments| && 0 <= i <= |l.contracts| && MadeFor(l.payments[k], (l.contracts + [c])[i])
    ensures i < |l.contracts| && MadeFor(l.payments[k], l.contracts[i])
  {
    assert HasContract(l, l.payments[k]);
  }

  lemma CreatedHasContract(l: Ledger, after: Ledger, c: StoredContract)
    requires Linked(l)
    requires after.contracts == l.contracts + [c]
    requires after.payments == l.payments
             || (after.payments != [] && Init(after.payments) == l.payments && MadeFor(Last(after.payments), c))
    ensures forall k :: 0 <= k < |after.payments| ==> HasContract(after, after.payments[k])
  {
    forall k | 0 <= k < |after.payments|
      ensures HasContract(after, after.payments[k])
    {
      if k < |l.payments| {
        assert HasContract(l, l.payments[k]);
        var i :| 0 <= i < |l.contracts| && MadeFor(l.payments[k], l.contracts[i]);
        assert MadeFor(after.payments[k], after.contracts[i]);
      } else {
        assert MadeFor(after.payments[k], after.contracts[|l.contracts|]);
      }
    }
  }

  lemma SameLinks(l: Ledger, after: Ledger)
    requires Linked(l)
    requires |after.contracts| == |l.contracts| && |after.payments| == |l.payments|
    requires forall i :: 0 <= i < |l.contracts| ==>
      after.contracts[i].id == l.contracts[i].id && after.contracts[i].opportunityId == l.contracts[i].opportunityId
    requires forall k :: 0 <= k < |l.payments| ==>
      && TextOf(after.payments[k], OpportunityId) == TextOf(l.payments[k], OpportunityId)
      && TextOf(after.payments[k], WqtContractId) == TextOf(l.payments[k], WqtContractId)
    ensures Linked(after)
  {
    forall k, i | 0 <= k < |l.payments| && 0 <= i < |l.contracts|
      ensures MadeFor(after.payments[k], after.contracts[i]) <==> MadeFor(l.payments[k], l.contracts[i])
    {
    }
    forall k | 0 <= k < |after.payments|
      ensures HasContract(after, after.payments[k])
    {
      assert HasContract(l, l.payments[k]);
      var i :| 0 <= i < |l.contracts| && MadeFor(l.payments[k], l.contracts[i]);
      assert MadeFor(after.payments[k], after.contracts[i]);
    }
  }

  /** Record `q` is the newest of its opportunity, made for the contract at `pivot`. */
  ghost predicate IsNewestRecord(l: Ledger, selection: Selection, pivot: int, q: int) {
    && 0 <= pivot < |l.contracts| && 0 <= q < |l.payments|
    && MadeFor(l.payments[q], l.contracts[pivot]) && l.contracts[pivot].contractType != GridServicesPacket
    && NoOlderPreferred(l.contracts, selection, l.contracts[pivot].opportunityId, pivot)
    && forall k :: q < k < |l.payments| ==> !OfOpportunity(l.payments[k], l.contracts[pivot].opportunityId)
  }

  function Recorded(l: Ledger, selection: Selection, p: Paid): Ledger
    requires 0 <= p.q
  {
    Apply(l, selection, RecordActual(p.q, p.field, p.amount))
  }

  /** Recording an amount on the newest record of the opportunity is where it starts to be carried for good. */
  lemma RecordingStartsIt(l: Ledger, selection: Selection, p: Paid)
    requires Linked(l) && IsNewestRecord(l, selection, p.pivot, p.q) && IsActual(p.field)
    requires p.opportunityId == l.contracts[p.pivot].opportunityId
    ensures PaidSince(Recorded(l, selection, p), selection, p)
  {
    var after := Recorded(l, selection, p);
    forall k, i | 0 <= k < p.q && p.pivot <= i < |l.contracts|
      ensures !MadeFor(after.payments[k], after.contracts[i])
    {
      assert after.payments[k] == l.payments[k];
    }
  }

  /** An empty ledger after these events and then the amount recorded. */
  function AfterPaying(selection: Selection, earlier: seq<Event>, p: Paid): Ledger
    requires 0 <= p.q
  {
    Recorded(Run(Ledger([], []), selection, earlier), selection, p)
  }

  /** What leads to the payment: any contracts and payments with new ids, then the record it is made on. */
  ghost predicate Leads(selection: Selection, earlier: seq<Event>, p: Paid) {
    && (forall n :: 0 <= n < |earlier| ==> IsNew(Run(Ledger([], []), selection, earlier[..n]), earlier[n]))
    && IsNewestRecord(Run(Ledger([], []), selection, earlier), selection, p.pivot, p.q)
    && p.opportunityId == Run(Ledger([], []), selection, earlier).contracts[p.pivot].opportunityId
    && IsActual(p.field)
  }

  /** The first contract of all leads to such a payment, on its own record. */
  lemma FirstContractLeads(selection: Selection, c: StoredContract, quote: Quote, now: int, paymentId: string,
                           f: Field, amount: real)
    requires c.contractType != GridServicesPacket && IsActual(f)
    requires NewPayment(None, c.id, c.opportunityId, quote, now).Ok?
    ensures Leads(selection, [CreateContract(c, quote, now, paymentId)], Paid(c.opportunityId, 0, 0, f, amount))
  {
    RunOfOne(Ledger([], []), selection, CreateContract(c, quote, now, paymentId));
    FirstRecord(selection, c, quote, now, paymentId);
  }

  lemma RunOfOne(l: Ledger, selection: Selection, e: Event)
    ensures Run(l, selection, [e]) == Apply(l, selection, e) && Run(l, selection, [e][..0]) == l
  {
    assert Init([e]) == [] && Last([e]) == e;
  }

  lemma FirstRecord(selection: Selection, c: StoredContract, quote: Quote, now: int, paymentId: string)
    requires c.contractType != GridServicesPacket
    requires NewPayment(None, c.id, c.opportunityId, quote, now).Ok?
    ensures var after := Create(Ledger([], []), selection, c, quote, now, paymentId);
            after.contracts == [c] && IsNewestRecord(after, selection, 0, 0)
  {
    NewRecordOf(Ledger([], []), selection, c, quote, now, paymentId);
  }

  /**
    The whole chain, for deposit and both payments: from an empty ledger through any contracts and payments, the
    amount is recorded on the newest record of an opportunity; whatever follows, each further record carries it.
   */
  lemma PaidOnceCarriedEverAfter(selection: Selection, earlier: seq<Event>, p: Paid, later: seq<Event>)
    requires Leads(selection, earlier, p)
    requires RunRespects(AfterPaying(selection, earlier, p), selection, p, later)
    ensures PaidSince(Run(AfterPaying(selection, earlier, p), selection, later), selection, p)
  {
    EveryRunIsLinked(selection, earlier);
    RecordingStartsIt(Run(Ledger([], []), selection, earlier), selection, p);
    PaidForever(AfterPaying(selection, earlier, p), selection, p, later);
  }

  /** And payment 1, once made, is what each further cash record bills. */
  lemma PaidOnceBilledEverAfter(selection: Selection, earlier: seq<Event>, p: Paid, later: seq<Event>,
                                c: StoredContract, quote: Quote, now: int, paymentId: string)
    requires Leads(selection, earlier, p) && p.field == ActualPayment1Made && p.amount != 0.0
    requires RunRespects(AfterPaying(selection, earlier, p), selection, p,
                         later + [CreateContract(c, quote, now, paymentId)])
    requires c.opportunityId == p.opportunityId && quote.product.Cash?
    ensures var before := Run(AfterPaying(selection, earlier, p), selection, later);
            var after := Create(before, selection, c, quote, now, paymentId).payments;
            |after| > |before.payments| ==> BillsPaid(Last(after), quote, p.amount)
  {
    var paid := AfterPaying(selection, earlier, p);
    RespectsOneMore(paid, selection, p, later, CreateContract(c, quote, now, paymentId));
    PaidOnceCarriedEverAfter(selection, earlier, p, later);
    CashRecordBillsIt(Run(paid, selection, later), selection, p, c, quote, now, paymentId);
  }

  lemma RespectsOneMore(l: Ledger, selection: Selection, p: Paid, events: seq<Event>, e: Event)
    requires RunRespects(l, selection, p, events + [e])
    ensures RunRespects(l, selection, p, events) && Respects(Run(l, selection, events), selection, p, e)
  {
    var all := events + [e];
    forall n | 0 <= n < |events|
      ensures Respects(Run(l, selection, events[..n]), selection, p, events[n])
    {
      assert all[..n] == events[..n] && all[n] == events[n];
    }
    assert all[..|events|] == events && all[|events|] == e;
  }
}
