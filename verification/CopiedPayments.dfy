/**
  Which earlier record the next contract of an opportunity copies, and so which recorded amounts it shows
  (customer-payment.service.ts).
 */
module CopiedPayments {
  import opened Common
  import opened Contracts
  import opened CustomerPayments
  import opened PaymentLedger

  ghost predicate HasRecord(l: Ledger, i: int)
    requires 0 <= i < |l.contracts|
  {
    exists k :: 0 <= k < |l.payments| && MadeFor(l.payments[k], l.contracts[i])
  }

  /** Record `q` is that of the previous contract or, if that one has none, the newest of the opportunity. */
  ghost predicate IsCopied(l: Ledger, selection: Selection, c: StoredContract, q: int)
    requires 0 <= q < |l.payments|
  {
    var previous := PreviousContract(l.contracts, c.id, c.opportunityId, selection);
    if previous >= 0 && HasRecord(l, previous)
    then MadeFor(l.payments[q], l.contracts[previous])
    else OfOpportunity(l.payments[q], c.opportunityId)
         && forall k :: q < k < |l.payments| ==> !OfOpportunity(l.payments[k], c.opportunityId)
  }

  function Copied(l: Ledger, selection: Selection, c: StoredContract): int {
    LatestPayment(l.(contracts := l.contracts + [c]), c.id, c.opportunityId, selection)
  }

  lemma PreviousIgnoresItself(l: Ledger, selection: Selection, c: StoredContract)
    ensures PreviousContract(l.contracts + [c], c.id, c.opportunityId, selection)
         == PreviousContract(l.contracts, c.id, c.opportunityId, selection)
  {
    InitLast(l.contracts, c);
  }

  /** The newest record of the contract at `i`, or of the opportunity when there is no such contract. */
  function RecordOf(l: Ledger, i: int, opportunityId: string): int
    requires i < |l.contracts|
  {
    NewestPayment(l.payments, opportunityId, if i >= 0 then Some(l.contracts[i].id) else None, true)
  }

  lemma CopiedIs(l: Ledger, selection: Selection, c: StoredContract)
    ensures var previous := PreviousContract(l.contracts, c.id, c.opportunityId, selection);
            && -1 <= previous < |l.contracts|
            && (previous >= 0 ==> l.contracts[previous].opportunityId == c.opportunityId)
            && Copied(l, selection, c)
               == if RecordOf(l, previous, c.opportunityId) >= 0 then RecordOf(l, previous, c.opportunityId)
                  else NewestPayment(l.payments, c.opportunityId, None, false)
  {
    PreviousIgnoresItself(l, selection, c);
    var previous := PreviousContract(l.contracts, c.id, c.opportunityId, selection);
    if previous >= 0 {
      AnyContract(l.payments, c.opportunityId, Some(l.contracts[previous].id));
    }
  }

  lemma {:induction false} AnyContract(payments: seq<Document>, opportunityId: string, contractId: Option<string>)
    ensures NewestPayment(payments, opportunityId, contractId, false)
         == NewestPayment(payments, opportunityId, None, false)
  {
    if payments != [] {
      AnyContract(Init(payments), opportunityId, contractId);
    }
  }

  /** In a ledger as runs leave it, that is the record the next contract copies. */
  lemma CopiedExactly(l: Ledger, selection: Selection, c: StoredContract, q: int)
    requires Linked(l) && 0 <= q < |l.payments|
    ensures Copied(l, selection, c) == q <==> IsCopied(l, selection, c, q)
  {
    var previous := PreviousContract(l.contracts, c.id, c.opportunityId, selection);
    CopiedIs(l, selection, c);
    if previous >= 0 {
      RecordOfIs(l, previous, q);
    } else {
      NoneWithoutContract(l, c.opportunityId);
    }
  }

  lemma RecordOfIs(l: Ledger, i: int, q: int)
    requires Linked(l) && 0 <= i < |l.contracts| && 0 <= q < |l.payments|
    ensures var r := RecordOf(l, i, l.contracts[i].opportunityId);
            (r >= 0 <==> HasRecord(l, i)) && (r == q <==> MadeFor(l.payments[q], l.contracts[i]))
  {
    var r := RecordOf(l, i, l.contracts[i].opportunityId);
    if r >= 0 {
      assert MadeFor(l.payments[r], l.contracts[i]);
    }
    if r >= 0 && MadeFor(l.payments[q], l.contracts[i]) {
      OneRecordEach(l, i, q, r);
    }
  }

  lemma OneRecordEach(l: Ledger, i: int, k: int, m: int)
    requires Linked(l) && 0 <= i < |l.contracts| && 0 <= k < |l.payments| && 0 <= m < |l.payments|
    requires MadeFor(l.payments[k], l.contracts[i]) && MadeFor(l.payments[m], l.contracts[i])
    ensures k == m
  {
  }

  lemma NoneWithoutContract(l: Ledger, opportunityId: string)
    requires Linked(l)
    ensures NewestPayment(l.payments, opportunityId, None, true) == -1
  {
    forall k | 0 <= k < |l.payments|
      ensures TextOf(l.payments[k], WqtContractId).Some?
    {
      assert HasContract(l, l.payments[k]);
    }
  }

  /** The quote's rebates and promotions are numbers, so a payment can be computed. */
  predicate Computes(quote: Quote) {
    SumBy(quote.rebateAmounts).Ok? && SumBy(quote.promotionAmounts).Ok?
  }

  /** The record the next contract appends. */
  function NextRecord(l: Ledger, selection: Selection, c: StoredContract, quote: Quote, now: int, paymentId: string)
    : Document
    requires Computes(quote)
  {
    Last(Create(l, selection, c, quote, now, paymentId).payments)
  }

  lemma NextCopies(l: Ledger, selection: Selection, c: StoredContract, quote: Quote, now: int, paymentId: string,
                   f: Field)
    requires Computes(quote) && IsActual(f)
    ensures Number(NextRecord(l, selection, c, quote, now, paymentId), f)
         == Shown(l, selection, c, f)
  {
    NewRecordOf(l, selection, c, quote, now, paymentId);
  }

  /** Whatever amount is recorded on record `q`, the next record shows it: exactly when `q` is the one copied. */
  lemma RecordingIsSeenExactly(l: Ledger, selection: Selection, q: nat, f: Field, c: StoredContract, quote: Quote,
                               now: int, paymentId: string)
    requires Linked(l) && q < |l.payments| && IsActual(f) && Computes(quote)
    ensures (forall amount: real :: Number(NextRecord(Apply(l, selection, RecordActual(q, f, amount)), selection, c,
                                                      quote, now, paymentId), f) == amount)
       <==> IsCopied(l, selection, c, q)
  {
    CopiedExactly(l, selection, c, q);
    forall amount: real
      ensures Number(NextRecord(Apply(l, selection, RecordActual(q, f, amount)), selection, c, quote, now,
                                paymentId), f)
           == if Copied(l, selection, c) == q then amount else Shown(l, selection, c, f)
    {
      NextShows(l, selection, q, f, amount, c, quote, now, paymentId);
    }
    if Copied(l, selection, c) != q {
      var other := Shown(l, selection, c, f) + 1.0;
      assert Number(NextRecord(Apply(l, selection, RecordActual(q, f, other)), selection, c, quote, now, paymentId), f)
          != other;
    }
  }

  function Shown(l: Ledger, selection: Selection, c: StoredContract, f: Field): real {
    Number(PaymentAt(l, Copied(l, selection, c)).GetOr(map[]), f)
  }

  lemma NextShows(l: Ledger, selection: Selection, q: nat, f: Field, amount: real, c: StoredContract, quote: Quote,
                  now: int, paymentId: string)
    requires q < |l.payments| && IsActual(f) && Computes(quote)
    ensures Number(NextRecord(Apply(l, selection, RecordActual(q, f, amount)), selection, c, quote, now, paymentId), f)
         == if Copied(l, selection, c) == q then amount else Shown(l, selection, c, f)
  {
    var after := Apply(l, selection, RecordActual(q, f, amount));
    RecordingKeepsCopied(l, selection, q, f, amount, c);
    NextCopies(after, selection, c, quote, now, paymentId, f);
  }

  lemma RecordingKeepsCopied(l: Ledger, selection: Selection, q: nat, f: Field, amount: real, c: StoredContract)
    requires IsActual(f)
    ensures Copied(Apply(l, selection, RecordActual(q, f, amount)), selection, c) == Copied(l, selection, c)
  {
    var after := Apply(l, selection, RecordActual(q, f, amount));
    var previous := PreviousContract(l.contracts + [c], c.id, c.opportunityId, selection);
    var previousId := if previous >= 0 then Some((l.contracts + [c])[previous].id) else None;
    assert forall k :: 0 <= k < |l.payments| ==> SameTexts(l.payments[k], after.payments[k]);
    NewestReadsTexts(l.payments, after.payments, c.opportunityId, previousId, true);
    NewestReadsTexts(l.payments, after.payments, c.opportunityId, previousId, false);
  }

  predicate SameTexts(before: Document, after: Document) {
    && TextOf(after, OpportunityId) == TextOf(before, OpportunityId)
    && TextOf(after, WqtContractId) == TextOf(before, WqtContractId)
  }

  lemma {:induction false} NewestReadsTexts(before: seq<Document>, after: seq<Document>, opportunityId: string,
                                            contractId: Option<string>, ofContract: bool)
    requires |after| == |before| && forall k :: 0 <= k < |before| ==> SameTexts(before[k], after[k])
    ensures NewestPayment(after, opportunityId, contractId, ofContract)
         == NewestPayment(before, opportunityId, contractId, ofContract)
  {
    if before != [] {
      assert SameTexts(Last(before), Last(after));
      NewestReadsTexts(Init(before), Init(after), opportunityId, contractId, ofContract);
    }
  }

  /** The last of the earlier contracts with the property. */
  ghost predicate IsLastEarlier(l: Ledger, c: StoredContract, i: int, completed: bool) {
    && 0 <= i < |l.contracts| && IsEarlier(l.contracts[i], c.id, c.opportunityId)
    && (completed ==> l.contracts[i].contractStatus == Completed)
    && forall m :: i < m < |l.contracts| && IsEarlier(l.contracts[m], c.id, c.opportunityId)
         ==> completed && l.contracts[m].contractStatus != Completed
  }

  /**
    So as written money is lost: when the newest earlier contract is not the newest completed one, the next record
    has the amounts of the former, and those made on the latter are missing, which the selection meant would copy.
   */
  lemma PaymentOnOlderContractIsNotSeen(l: Ledger, older: int, q: int, newer: int, n: int, c: StoredContract,
                                        quote: Quote, now: int, paymentId: string, f: Field)
    requires Linked(l) && Computes(quote) && IsActual(f)
    requires IsLastEarlier(l, c, newer, false) && IsLastEarlier(l, c, older, true) && older != newer
    requires 0 <= q < |l.payments| && MadeFor(l.payments[q], l.contracts[older])
    requires 0 <= n < |l.payments| && MadeFor(l.payments[n], l.contracts[newer])
    ensures Number(NextRecord(l, IdOnly, c, quote, now, paymentId), f) == Number(l.payments[n], f)
    ensures Number(NextRecord(l, WithStatus, c, quote, now, paymentId), f) == Number(l.payments[q], f)
  {
    AsWrittenTakesNewest(l.contracts, c.id, c.opportunityId);
    LastEarlierIsNewest(l, c, newer, false);
    LastEarlierIsNewest(l, c, older, true);
    CopiedIs(l, IdOnly, c);
    CopiedIs(l, WithStatus, c);
    RecordOfIs(l, newer, n);
    RecordOfIs(l, older, q);
    NextCopies(l, IdOnly, c, quote, now, paymentId, f);
    NextCopies(l, WithStatus, c, quote, now, paymentId, f);
  }

  lemma LastEarlierIsNewest(l: Ledger, c: StoredContract, i: int, completed: bool)
    requires IsLastEarlier(l, c, i, completed)
    ensures NewestEarlier(l.contracts, c.id, c.opportunityId, WithStatus, completed) == i
  {
    var r := NewestEarlier(l.contracts, c.id, c.opportunityId, WithStatus, completed);
    assert ProjectedStatus(WithStatus, l.contracts[i]) == Some(l.contracts[i].contractStatus);
    assert r >= i;
  }

  // ---------------------------------------------------------------- how it happens

  /** Two contracts of one opportunity and then the first one completed. */
  function TwoContracts(a: StoredContract, b: StoredContract, quote: Quote, now: int): Ledger {
    Apply(Create(Create(Ledger([], []), IdOnly, a, quote, now, ""), IdOnly, b, quote, now, ""), IdOnly,
          SetStatus(0, Completed))
  }

  ghost predicate OneAfterTheOther(a: StoredContract, b: StoredContract, c: StoredContract) {
    && a.opportunityId == b.opportunityId == c.opportunityId && a.id != b.id && c.id != a.id && c.id != b.id
    && a.contractType != GridServicesPacket && b.contractType != GridServicesPacket && b.contractStatus != Completed
  }

  /** One record for each contract and nothing paid on any. */
  ghost predicate Unpaid(l: Ledger) {
    && |l.payments| == |l.contracts|
    && forall k :: 0 <= k < |l.payments| ==> MadeFor(l.payments[k], l.contracts[k]) && NothingPaid(l.payments[k])
  }

  ghost predicate NothingPaid(d: Document) {
    forall f :: IsActual(f) ==> Number(d, f) == 0.0
  }

  lemma NextIsUnpaid(l: Ledger, c: StoredContract, quote: Quote, now: int)
    requires Unpaid(l) && Computes(quote)
    ensures NothingPaid(NextRecord(l, IdOnly, c, quote, now, ""))
  {
    var k := Copied(l, IdOnly, c);
    forall f | IsActual(f)
      ensures Number(NextRecord(l, IdOnly, c, quote, now, ""), f) == 0.0
    {
      NextCopies(l, IdOnly, c, quote, now, "", f);
      assert k >= 0 ==> NothingPaid(l.payments[k]);
    }
  }

  lemma AppendUnpaid(l: Ledger, after: Ledger, c: StoredContract, d: Document)
    requires Unpaid(l) && after == Ledger(l.contracts + [c], l.payments + [d])
    requires MadeFor(d, c) && NothingPaid(d)
    ensures Unpaid(after)
  {
    forall k | 0 <= k < |l.payments|
      ensures MadeFor(after.payments[k], after.contracts[k]) && NothingPaid(after.payments[k])
    {
      assert after.payments[k] == l.payments[k] && after.contracts[k] == l.contracts[k];
    }
  }

  lemma CreateUnpaid(l: Ledger, c: StoredContract, quote: Quote, now: int)
    requires Unpaid(l) && Computes(quote)
    ensures var after := Create(l, IdOnly, c, quote, now, "");
            Unpaid(after) && after.contracts == l.contracts + [c]
  {
    var after := Create(l, IdOnly, c, quote, now, "");
    NewRecordOf(l, IdOnly, c, quote, now, "");
    NextIsUnpaid(l, c, quote, now);
    assert after == Ledger(l.contracts + [c], l.payments + [Last(after.payments)]);
    AppendUnpaid(l, after, c, Last(after.payments));
  }

  lemma CompleteUnpaid(l: Ledger)
    requires Unpaid(l) && l.contracts != []
    ensures var after := Apply(l, IdOnly, SetStatus(0, Completed));
            Unpaid(after) && after.contracts == l.contracts[0 := l.contracts[0].(contractStatus := Completed)]
  {
    var after := Apply(l, IdOnly, SetStatus(0, Completed));
    forall k | 0 <= k < |l.payments|
      ensures MadeFor(after.payments[k], after.contracts[k]) && NothingPaid(after.payments[k])
    {
      assert MadeFor(l.payments[k], l.contracts[k]);
    }
  }

  lemma TwoContractsAreLinked(a: StoredContract, b: StoredContract, quote: Quote, now: int)
    requires a.id != b.id
    ensures Linked(TwoContracts(a, b, quote, now))
  {
    var one := Create(Ledger([], []), IdOnly, a, quote, now, "");
    var two := Create(one, IdOnly, b, quote, now, "");
    FirstIsLinked(a, quote, now);
    CreateKeepsLinked(one, IdOnly, b, quote, now, "");
    CompletingKeepsLinked(two);
  }

  lemma FirstIsLinked(a: StoredContract, quote: Quote, now: int)
    ensures var one := Create(Ledger([], []), IdOnly, a, quote, now, "");
            Linked(one) && one.contracts == [a]
  {
    CreateKeepsLinked(Ledger([], []), IdOnly, a, quote, now, "");
  }

  lemma CompletingKeepsLinked(l: Ledger)
    requires Linked(l)
    ensures Linked(Apply(l, IdOnly, SetStatus(0, Completed)))
  {
    SameLinks(l, Apply(l, IdOnly, SetStatus(0, Completed)));
  }

  lemma TwoUnpaid(a: StoredContract, b: StoredContract, quote: Quote, now: int)
    requires Computes(quote)
    ensures var two := Create(Create(Ledger([], []), IdOnly, a, quote, now, ""), IdOnly, b, quote, now, "");
            Unpaid(two) && two.contracts == [a] + [b]
  {
    CreateUnpaid(Ledger([], []), a, quote, now);
    CreateUnpaid(Create(Ledger([], []), IdOnly, a, quote, now, ""), b, quote, now);
  }

  lemma TwoContractsAre(a: StoredContract, b: StoredContract, quote: Quote, now: int)
    requires Computes(quote)
    ensures var l := TwoContracts(a, b, quote, now);
            Unpaid(l) && l.contracts == [a.(contractStatus := Completed), b]
  {
    TwoUnpaid(a, b, quote, now);
    CompleteUnpaid(Create(Create(Ledger([], []), IdOnly, a, quote, now, ""), IdOnly, b, quote, now, ""));
  }

  /** What is paid on the first contract after the second was opened: as written the next record shows nothing of it. */
  lemma OlderPaymentHappens(a: StoredContract, b: StoredContract, c: StoredContract, quote: Quote, now: int, f: Field,
                            amount: real)
    requires OneAfterTheOther(a, b, c) && Computes(quote) && IsActual(f)
    ensures var l := Apply(TwoContracts(a, b, quote, now), IdOnly, RecordActual(0, f, amount));
            && Number(NextRecord(l, IdOnly, c, quote, now, ""), f) == 0.0
            && Number(NextRecord(l, WithStatus, c, quote, now, ""), f) == amount
  {
    var before := TwoContracts(a, b, quote, now);
    var l := Apply(before, IdOnly, RecordActual(0, f, amount));
    TwoContractsAre(a, b, quote, now);
    TwoContractsAreLinked(a, b, quote, now);
    StepKeepsLinked(before, IdOnly, RecordActual(0, f, amount));
    FirstIsPaid(before, f, amount);
    FirstIsOlder(l, a, b, c);
    PaymentOnOlderContractIsNotSeen(l, 0, 0, 1, 1, c, quote, now, "", f);
  }

  lemma FirstIsPaid(l: Ledger, f: Field, amount: real)
    requires Unpaid(l) && |l.contracts| == 2 && IsActual(f)
    ensures var after := Apply(l, IdOnly, RecordActual(0, f, amount));
            && after.contracts == l.contracts && |after.payments| == 2
            && MadeFor(after.payments[0], l.contracts[0]) && MadeFor(after.payments[1], l.contracts[1])
            && Number(after.payments[0], f) == amount && Number(after.payments[1], f) == 0.0
  {
    assert MadeFor(l.payments[0], l.contracts[0]) && NothingPaid(l.payments[1]);
  }

  lemma FirstIsOlder(l: Ledger, a: StoredContract, b: StoredContract, c: StoredContract)
    requires OneAfterTheOther(a, b, c) && l.contracts == [a.(contractStatus := Completed), b]
    ensures IsLastEarlier(l, c, 1, false) && IsLastEarlier(l, c, 0, true)
  {
  }

  // ---------------------------------------------------------------- the choice, on the fields of contracts and records

  /** An earlier contract of the opportunity that is not grid services. */
  ghost predicate Qualifies(l: Ledger, c: StoredContract, i: int) {
    && 0 <= i < |l.contracts| && l.contracts[i].opportunityId == c.opportunityId
    && l.contracts[i].contractType != GridServicesPacket && l.contracts[i].id != c.id
  }

  /** A completed one, where statuses are looked at. */
  ghost predicate IsPreferred(l: Ledger, selection: Selection, c: StoredContract, i: int) {
    selection == WithStatus && Qualifies(l, c, i) && l.contracts[i].contractStatus == Completed
  }

  /** The previous contract is the newest that is preferred, or if none is, the newest that qualifies. */
  lemma PreviousIs(l: Ledger, selection: Selection, c: StoredContract, i: int)
    requires Qualifies(l, c, i)
    requires if IsPreferred(l, selection, c, i)
             then forall j :: i < j < |l.contracts| ==> !IsPreferred(l, selection, c, j)
             else && (forall j :: 0 <= j < |l.contracts| ==> !IsPreferred(l, selection, c, j))
                  && (forall j :: i < j < |l.contracts| ==> !Qualifies(l, c, j))
    ensures PreviousContract(l.contracts, c.id, c.opportunityId, selection) == i
  {
    forall j | 0 <= j < |l.contracts|
      ensures IsEarlier(l.contracts[j], c.id, c.opportunityId) <==> Qualifies(l, c, j)
      ensures Qualifies(l, c, j) && ProjectedStatus(selection, l.contracts[j]) == Some(Completed)
         <==> IsPreferred(l, selection, c, j)
    {
    }
    var completed := NewestEarlier(l.contracts, c.id, c.opportunityId, selection, true);
    var newest := NewestEarlier(l.contracts, c.id, c.opportunityId, selection, false);
    assert completed >= 0 ==> IsPreferred(l, selection, c, completed);
    assert newest >= 0 ==> Qualifies(l, c, newest);
    assert IsPreferred(l, selection, c, i) ==> completed >= i;
    assert newest >= i;
  }

  /** There is none exactly when no contract qualifies. */
  lemma NoPreviousExactly(l: Ledger, selection: Selection, c: StoredContract)
    ensures PreviousContract(l.contracts, c.id, c.opportunityId, selection) < 0
       <==> forall j :: 0 <= j < |l.contracts| ==> !Qualifies(l, c, j)
  {
    assert forall j :: 0 <= j < |l.contracts| ==>
             (IsEarlier(l.contracts[j], c.id, c.opportunityId) <==> Qualifies(l, c, j));
    var newest := NewestEarlier(l.contracts, c.id, c.opportunityId, selection, false);
    assert newest >= 0 ==> Qualifies(l, c, newest);
  }
}
