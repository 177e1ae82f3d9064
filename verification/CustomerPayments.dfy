/** One customer payment computed from a quote and the latest payment (customer-payment.service.ts). */
module CustomerPayments {
  import opened Common

  /** A payment is a document of keyed values; `Other` stands for every key the service never names. */
  datatype Field =
    | Id | Version | CreatedAt | UpdatedAt
    | OpportunityId | WqtContractId
    | NetAmount | Amount | Credit | Rebate | ProgramIncentiveDiscount | Adjustment
    | Deposit | Payment1 | Payment2
    | ActualDepositMade | ActualPayment1Made | ActualPayment2Made
    | Other(key: string)

  datatype Value = Num(number: real) | Text(text: string) | Time(at: int)

  type Document = map<Field, Value>

  /** A missing number reads as zero, as in the destructuring defaults. */
  function Number(d: Document, f: Field): real {
    if f in d && d[f].Num? then d[f].number else 0.0
  }

  datatype DiscountType = Percentage | FixedAmount

  datatype Discount = Discount(discountType: DiscountType, amount: Option<real>)

  datatype Product =
    | Cash(upfrontPayment: real, payment1: Option<real>, payment1PayPercent: bool)
    | NonCash

  datatype Quote = Quote(
    netAmount: real,
    /** `None` where the amount is not a number: `sumBy` throws on it. */
    rebateAmounts: seq<Option<real>>,
    promotionAmounts: seq<Option<real>>,
    projectDiscounts: seq<Discount>,
    projectNetCost: Option<real>,
    cashDiscountTotal: Option<real>,
    product: Product)

  datatype PaymentError = NotANumber

  // ---------------------------------------------------------------- sums and rounding

  /** `BigNumberUtils.sumBy`. */
  function SumBy(amounts: seq<Option<real>>): Result<real, PaymentError> {
    if amounts == [] then Ok(0.0)
    else match SumBy(Init(amounts))
      case Err(error) => Err(error)
      case Ok(total) => if Last(amounts).Some? then Ok(total + Last(amounts).value) else Err(NotANumber)
  }

  /** What one discount takes off: a share of the project cost or its amount. */
  function WorthOf(netCost: real): Discount -> real {
    (d: Discount) =>
      var amount := d.amount.GetOr(0.0);
      if d.discountType == Percentage then amount / 100.0 * netCost else amount
  }

  /** The reducer of the credit fold. */
  function CreditFold(discounts: seq<Discount>, netCost: real): real {
    SumWith(discounts, WorthOf(netCost))
  }

  function CreditOf(quote: Quote): real {
    CreditFold(quote.projectDiscounts, quote.projectNetCost.GetOr(0.0)) + quote.cashDiscountTotal.GetOr(0.0)
  }

  /** `roundNumber(value, 2)`: `Math.round` rounds half up. */
  function RoundCents(value: real): real {
    (value * 100.0 + 0.5).Floor as real / 100.0
  }

  predicate WholeCents(x: real) {
    (x * 100.0).Floor as real == x * 100.0
  }

  function Min(x: real, y: real): real {
    if x <= y then x else y
  }

  function Milestone(quote: Quote): real
    requires quote.product.Cash?
  {
    var value := quote.product.payment1.GetOr(0.0);
    if quote.product.payment1PayPercent then quote.netAmount * value / 100.0 else value
  }

  // ---------------------------------------------------------------- the new record

  function Billing(latest: Document, quote: Quote): Document {
    match quote.product
    case Cash(upfront, _, _) =>
      var paid := Number(latest, ActualPayment1Made);
      var payment1 := if paid != 0.0 then paid else RoundCents(Min(quote.netAmount - upfront, Milestone(quote)));
      map[ActualDepositMade := Num(Number(latest, ActualDepositMade)),
          Deposit := Num(upfront),
          Payment1 := Num(payment1),
          Payment2 := Num(RoundCents(quote.netAmount - upfront - payment1))]
    case NonCash =>
      map[Deposit := Num(0.0), Payment1 := Num(0.0), Payment2 := Num(quote.netAmount)]
  }

  /** The part of the record that does not depend on the product. */
  function Header(copied: Document, contractId: string, opportunityId: string, quote: Quote, rebate: real,
                  promotions: real, now: int): Document
  {
    Identified(copied, contractId, opportunityId, now) + Figures(quote, rebate, promotions)
  }

  function Identified(copied: Document, contractId: string, opportunityId: string, now: int): Document {
    (copied - {Id, Version})
    + map[CreatedAt := Time(now), UpdatedAt := Time(now),
          OpportunityId := Text(opportunityId), WqtContractId := Text(contractId)]
  }

  function Figures(quote: Quote, rebate: real, promotions: real): Document {
    map[NetAmount := Num(quote.netAmount),
        Rebate := Num(rebate),
        Credit := Num(CreditOf(quote)),
        ProgramIncentiveDiscount := Num(promotions),
        Amount := Num(quote.netAmount + CreditOf(quote) + promotions),
        Adjustment := Num(0.0)]
  }

  /** `calculateContractCustomPayment`, given the latest payment. */
  function NewPayment(latest: Option<Document>, contractId: string, opportunityId: string, quote: Quote, now: int)
    : Result<Document, PaymentError>
  {
    var rebate, promotions := SumBy(quote.rebateAmounts), SumBy(quote.promotionAmounts);
    if rebate.Err? || promotions.Err? then
      Err(NotANumber)
    else
      var copied := latest.GetOr(map[]);
      Ok(Header(copied, contractId, opportunityId, quote, rebate.value, promotions.value, now) + Billing(copied, quote))
  }

  method CopyKeys(latest: Document) returns (payment: Document)
    ensures payment == latest
  {
    payment := map[];
    var keys := latest.Keys;
    while keys != {}
      invariant keys <= latest.Keys
      invariant payment == map f | f in latest && f !in keys :: latest[f]
      decreases |keys|
    {
      var key :| key in keys;
      payment := payment[key := latest[key]];
      keys := keys - {key};
    }
  }

  method MilestoneValue(quote: Quote) returns (value: real)
    requires quote.product.Cash?
    ensures value == Milestone(quote)
  {
    value := quote.product.payment1.GetOr(0.0);
    if quote.product.payment1PayPercent {
      value := quote.netAmount * value / 100.0;
    }
  }

  method FillBilling(header: Document, latest: Document, quote: Quote) returns (payment: Document)
    ensures payment == header + Billing(latest, quote)
  {
    payment := header;
    if quote.product.Cash? {
      var deposit := quote.product.upfrontPayment;
      var milestonePayment1Value := MilestoneValue(quote);
      var payment1 := Number(latest, ActualPayment1Made);
      if payment1 == 0.0 {
        payment1 := RoundCents(Min(quote.netAmount - deposit, milestonePayment1Value));
      }
      var payment2 := RoundCents(quote.netAmount - deposit - payment1);
      payment := payment[ActualDepositMade := Num(Number(latest, ActualDepositMade))];
      payment := payment[Deposit := Num(deposit)];
      payment := payment[Payment1 := Num(payment1)];
      payment := payment[Payment2 := Num(payment2)];
    } else {
      payment := payment[Deposit := Num(0.0)];
      payment := payment[Payment1 := Num(0.0)];
      payment := payment[Payment2 := Num(quote.netAmount)];
    }
  }

  method CalculateContractCustomPayment(latest: Option<Document>, contractId: string, opportunityId: string,
                                        quote: Quote, now: int)
    returns (r: Result<Document, PaymentError>)
    ensures r == NewPayment(latest, contractId, opportunityId, quote, now)
  {
    var payment := CopyAndIdentify(latest.GetOr(map[]), contractId, opportunityId, now);
    var figured := FillFigures(payment, quote);
    if figured.Err? {
      return Err(NotANumber);
    }
    payment := FillBilling(figured.value, latest.GetOr(map[]), quote);
    r := Ok(payment);
  }

  method CopyAndIdentify(latest: Document, contractId: string, opportunityId: string, now: int)
    returns (payment: Document)
    ensures payment == Identified(latest, contractId, opportunityId, now)
  {
    var latestPayment := latest - {Id, Version};
    latestPayment := latestPayment[CreatedAt := Time(now)];
    latestPayment := latestPayment[UpdatedAt := Time(now)];
    payment := CopyKeys(latestPayment);
    payment := payment[OpportunityId := Text(opportunityId)];
    payment := payment[WqtContractId := Text(contractId)];
  }

  /** The figures every product has. */
  method FillFigures(identified: Document, quote: Quote) returns (r: Result<Document, PaymentError>)
    ensures r.Err? <==> SumBy(quote.rebateAmounts).Err? || SumBy(quote.promotionAmounts).Err?
    ensures r.Ok? ==>
              var rebate, promotions := SumBy(quote.rebateAmounts).value, SumBy(quote.promotionAmounts).value;
              r.value == identified + Figures(quote, rebate, promotions)
  {
    var payment := identified[NetAmount := Num(quote.netAmount)];
    var rebate := SumBy(quote.rebateAmounts);
    if rebate.Err? {
      return Err(NotANumber);
    }
    payment := payment[Rebate := Num(rebate.value)];
    var credit := CreditOf(quote);
    payment := payment[Credit := Num(credit)];

    var promotions := SumBy(quote.promotionAmounts);
    if promotions.Err? {
      return Err(NotANumber);
    }
    payment := payment[ProgramIncentiveDiscount := Num(promotions.value)];
    payment := payment[Amount := Num(quote.netAmount + credit + promotions.value)];
    payment := payment[Adjustment := Num(0.0)];
    r := Ok(payment);
  }

  // ---------------------------------------------------------------- discounts

  function AmountsOf(discounts: seq<Discount>, t: DiscountType): real {
    if discounts == [] then 0.0
    else AmountsOf(Init(discounts), t)
         + if Last(discounts).discountType == t then Last(discounts).amount.GetOr(0.0) else 0.0
  }

  /** The fold is one percentage of the project cost plus the fixed amounts. */
  lemma {:induction false} CreditIsPercentPlusFixed(discounts: seq<Discount>, netCost: real)
    ensures CreditFold(discounts, netCost)
         == AmountsOf(discounts, Percentage) / 100.0 * netCost + AmountsOf(discounts, FixedAmount)
  {
    if discounts != [] {
      CreditIsPercentPlusFixed(Init(discounts), netCost);
      Distribute(AmountsOf(Init(discounts), Percentage), Last(discounts).amount.GetOr(0.0), netCost);
    }
  }

  lemma Distribute(a: real, b: real, c: real)
    ensures (a + b) / 100.0 * c == a / 100.0 * c + b / 100.0 * c
  {
    var x, y := a / 100.0, b / 100.0;
    assert (a + b) / 100.0 == x + y;
    assert (x + y) * c == x * c + y * c;
  }

  /** The order of the discounts does not matter. */
  lemma CreditIgnoresOrder(xs: seq<Discount>, ys: seq<Discount>, netCost: real)
    requires multiset(xs) == multiset(ys)
    ensures CreditFold(xs, netCost) == CreditFold(ys, netCost)
  {
    SumWithIgnoresOrder(xs, ys, WorthOf(netCost));
  }

  // ---------------------------------------------------------------- the split

  lemma RoundingFacts(x: real)
    ensures -0.005 < RoundCents(x) - x <= 0.005
    ensures WholeCents(RoundCents(x))
    ensures WholeCents(x) <==> RoundCents(x) == x
  {
    var n := (x * 100.0 + 0.5).Floor;
    CentsOfInteger(n);
    if WholeCents(x) {
      var m := (x * 100.0).Floor;
      assert m as real <= x * 100.0 + 0.5 < m as real + 1.0;
      assert n == m;
    }
  }

  lemma CentsOfInteger(n: int)
    ensures n as real / 100.0 * 100.0 == n as real
    ensures WholeCents(n as real / 100.0)
  {
  }

  lemma RoundingIsMonotone(x: real, y: real)
    requires x <= y
    ensures RoundCents(x) <= RoundCents(y)
  {
    var m, n := (x * 100.0 + 0.5).Floor, (y * 100.0 + 0.5).Floor;
    assert m as real <= y * 100.0 + 0.5 < n as real + 1.0;
    assert m <= n;
  }

  lemma CentsSubtract(x: real, y: real)
    requires WholeCents(x) && WholeCents(y)
    ensures WholeCents(x - y)
  {
    assert (x - y) * 100.0 == ((x * 100.0).Floor - (y * 100.0).Floor) as real;
  }

  /**
    Deposit and payments add up to the net amount, to half a cent. They add up exactly when the product is not
    cash or what payment 2 has to cover is whole cents.
   */
  lemma SplitConservesNetAmount(latest: Document, quote: Quote)
    ensures var r := Billing(latest, quote);
            var total := Number(r, Deposit) + Number(r, Payment1) + Number(r, Payment2);
            && -0.005 < total - quote.netAmount <= 0.005
            && (total == quote.netAmount <==>
                  (quote.product.NonCash? || WholeCents(quote.netAmount - Number(r, Deposit) - Number(r, Payment1))))
  {
    if quote.product.Cash? {
      RoundingFacts(quote.netAmount - quote.product.upfrontPayment - Number(Billing(latest, quote), Payment1));
    }
  }

  /** With whole cents in, nothing is lost. */
  lemma WholeCentsSplitExactly(latest: Document, quote: Quote)
    requires quote.product.Cash? ==> WholeCents(quote.netAmount) && WholeCents(quote.product.upfrontPayment)
                                     && WholeCents(Number(latest, ActualPayment1Made))
    ensures var r := Billing(latest, quote);
            Number(r, Deposit) + Number(r, Payment1) + Number(r, Payment2) == quote.netAmount
  {
    SplitConservesNetAmount(latest, quote);
    if quote.product.Cash? {
      RoundingFacts(Min(AfterDeposit(quote), Milestone(quote)));
      CentsSubtract(quote.netAmount, quote.product.upfrontPayment);
      CentsSubtract(AfterDeposit(quote), Number(Billing(latest, quote), Payment1));
    }
  }

  lemma MergedNumber(header: Document, billing: Document, f: Field)
    ensures Number(header + billing, f) == if f in billing then Number(billing, f) else Number(header, f)
    ensures f !in billing ==>
              (f in header + billing <==> f in header) && (f in header ==> (header + billing)[f] == header[f])
  {
  }

  /** The record carries exactly these figures, and gross minus what was taken off is net. */
  lemma RecordCarriesSplit(latest: Option<Document>, contractId: string, opportunityId: string,
                           quote: Quote, now: int, r: Document)
    requires NewPayment(latest, contractId, opportunityId, quote, now) == Ok(r)
    ensures var billing := Billing(latest.GetOr(map[]), quote);
            && Number(r, Deposit) == Number(billing, Deposit)
            && Number(r, Payment1) == Number(billing, Payment1)
            && Number(r, Payment2) == Number(billing, Payment2)
    ensures Number(r, Amount) - Number(r, Credit) - Number(r, ProgramIncentiveDiscount) == Number(r, NetAmount)
    ensures Number(r, NetAmount) == quote.netAmount
  {
    var rebate, promotions := SumBy(quote.rebateAmounts).value, SumBy(quote.promotionAmounts).value;
    var header := Header(latest.GetOr(map[]), contractId, opportunityId, quote, rebate, promotions, now);
    var billing := Billing(latest.GetOr(map[]), quote);
    MergedNumber(header, billing, Deposit);
    MergedNumber(header, billing, Payment1);
    MergedNumber(header, billing, Payment2);
    MergedNumber(header, billing, Amount);
    MergedNumber(header, billing, Credit);
    MergedNumber(header, billing, ProgramIncentiveDiscount);
    MergedNumber(header, billing, NetAmount);
  }

  /** What is left of the net amount after the deposit, and its whole cents. */
  function AfterDeposit(quote: Quote): real
    requires quote.product.Cash?
  {
    quote.netAmount - quote.product.upfrontPayment
  }

  function CentsBelow(x: real): real {
    (x * 100.0).Floor as real / 100.0
  }

  /**
    With nothing paid yet, a deposit within the net amount and a non-negative milestone, neither payment is
    negative. Payment 1 stays within the rest after the deposit exactly when rounding cannot lift it past:
    the rest is whole cents, or the smaller of rest and milestone is less than half a cent above them.
   */
  lemma FirstPaymentBounds(latest: Document, quote: Quote)
    requires quote.product.Cash? && Number(latest, ActualPayment1Made) == 0.0
    requires quote.product.upfrontPayment <= quote.netAmount && Milestone(quote) >= 0.0
    ensures var r := Billing(latest, quote);
            && Number(r, Payment1) >= 0.0 && Number(r, Payment2) >= 0.0
            && (Number(r, Payment1) <= AfterDeposit(quote)
                <==> WholeCents(AfterDeposit(quote))
                     || Min(AfterDeposit(quote), Milestone(quote)) < CentsBelow(AfterDeposit(quote)) + 0.005)
  {
    var rest := AfterDeposit(quote);
    var least := Min(rest, Milestone(quote));
    RoundingIsMonotone(0.0, least);
    RoundingFacts(least);
    NotBelowHalfACent(rest - RoundCents(least));
    RoundedWithin(least, rest);
  }

  /** It can: of six tenths of a cent with a larger milestone, payment 1 takes a whole cent. */
  lemma FirstPaymentMayExceedRest(latest: Document)
    requires Number(latest, ActualPayment1Made) == 0.0
    ensures var quote := Quote(0.006, [], [], [], None, None, Cash(0.0, Some(1.0), false));
            Number(Billing(latest, quote), Payment1) == 0.01 && AfterDeposit(quote) == 0.006
  {
    assert (0.006 * 100.0 + 0.5).Floor == 1;
  }

  lemma NotBelowHalfACent(x: real)
    requires x >= -0.005
    ensures RoundCents(x) >= 0.0
  {
    assert x * 100.0 + 0.5 >= 0.0;
  }

  lemma RoundedWithin(x: real, y: real)
    requires x <= y
    ensures RoundCents(x) <= y <==> WholeCents(y) || x < CentsBelow(y) + 0.005
  {
    var n, below := (x * 100.0 + 0.5).Floor, (y * 100.0).Floor;
    assert RoundCents(x) <= y <==> n as real <= y * 100.0;
    assert n as real <= y * 100.0 <==> n <= below;
    assert x < CentsBelow(y) + 0.005 <==> x * 100.0 + 0.5 < below as real + 1.0;
    if WholeCents(y) {
      RoundingFacts(y);
      RoundingIsMonotone(x, y);
    }
  }

  /** Once payment 1 was made, it is billed as made and payment 2 absorbs the difference. */
  lemma PaidPaymentIsBilled(latest: Document, quote: Quote)
    requires quote.product.Cash? && Number(latest, ActualPayment1Made) != 0.0
    ensures var r := Billing(latest, quote);
            && Number(r, Payment1) == Number(latest, ActualPayment1Made)
            && Number(r, Payment2) == RoundCents(AfterDeposit(quote) - Number(latest, ActualPayment1Made))
            && -0.005 < Number(r, Deposit) + Number(r, Payment1) + Number(r, Payment2) - quote.netAmount <= 0.005
  {
    SplitConservesNetAmount(latest, quote);
  }

  /** The keys whose value the service takes from the quote, the contract or the clock. */
  predicate Recomputed(f: Field) {
    && !f.Other?
    && f != ActualDepositMade && f != ActualPayment1Made && f != ActualPayment2Made
  }

  /** Every other key is the latest payment's: actual amounts, dates, notes. */
  lemma OtherKeysAreCopied(latest: Option<Document>, contractId: string, opportunityId: string,
                           quote: Quote, now: int, r: Document, f: Field)
    requires NewPayment(latest, contractId, opportunityId, quote, now) == Ok(r)
    requires !Recomputed(f)
    ensures Number(r, f) == Number(latest.GetOr(map[]), f)
    ensures f != ActualDepositMade ==>
              (f in r <==> f in latest.GetOr(map[])) && (f in r ==> r[f] == latest.GetOr(map[])[f])
  {
    var copied := latest.GetOr(map[]);
    var rebate, promotions := SumBy(quote.rebateAmounts).value, SumBy(quote.promotionAmounts).value;
    var header := Header(copied, contractId, opportunityId, quote, rebate, promotions, now);
    var billing := Billing(copied, quote);
    MergedNumber(header, billing, f);
    HeaderCopies(copied, contractId, opportunityId, quote, rebate, promotions, now, f);
    BillingCopies(copied, quote, f);
  }

  lemma BillingCopies(copied: Document, quote: Quote, f: Field)
    requires !Recomputed(f)
    ensures f in Billing(copied, quote) ==>
              f == ActualDepositMade && Number(Billing(copied, quote), f) == Number(copied, f)
  {
  }

  lemma HeaderCopies(copied: Document, contractId: string, opportunityId: string, quote: Quote,
                     rebate: real, promotions: real, now: int, f: Field)
    requires !Recomputed(f)
    ensures var header := Header(copied, contractId, opportunityId, quote, rebate, promotions, now);
            (f in header <==> f in copied) && (f in header ==> header[f] == copied[f])
  {
    assert f !in Figures(quote, rebate, promotions);
    assert f in Identified(copied, contractId, opportunityId, now) <==> f in copied;
  }

  // ---------------------------------------------------------------- the record, figure by figure

  /** The amounts as numbers, if all are. */
  function Numbers(amounts: seq<Option<real>>): seq<real> {
    seq(|amounts|, k requires 0 <= k < |amounts| => amounts[k].GetOr(0.0))
  }

  lemma {:induction false} SumByIs(amounts: seq<Option<real>>)
    ensures SumBy(amounts).Ok? <==> forall k :: 0 <= k < |amounts| ==> amounts[k].Some?
    ensures SumBy(amounts).Ok? ==> SumBy(amounts).value == Sum(Numbers(amounts))
  {
    if amounts != [] {
      SumByIs(Init(amounts));
      assert Init(Numbers(amounts)) == Numbers(Init(amounts));
      assert forall k :: 0 <= k < |amounts| - 1 ==> Init(amounts)[k] == amounts[k];
    }
  }

  /** The call fails exactly on a rebate or promotion that is not a number. */
  lemma RecordIsComputedExactly(latest: Option<Document>, contractId: string, opportunityId: string, quote: Quote,
                                now: int)
    ensures NewPayment(latest, contractId, opportunityId, quote, now).Ok? <==> AllNumbers(quote)
  {
    SumByIs(quote.rebateAmounts);
    SumByIs(quote.promotionAmounts);
  }

  predicate AllNumbers(quote: Quote) {
    && (forall k :: 0 <= k < |quote.rebateAmounts| ==> quote.rebateAmounts[k].Some?)
    && (forall k :: 0 <= k < |quote.promotionAmounts| ==> quote.promotionAmounts[k].Some?)
  }

  /** The percentages of the project cost, the fixed amounts and the cash discount. */
  function TakenOff(quote: Quote): real {
    AmountsOf(quote.projectDiscounts, Percentage) / 100.0 * quote.projectNetCost.GetOr(0.0)
    + AmountsOf(quote.projectDiscounts, FixedAmount) + quote.cashDiscountTotal.GetOr(0.0)
  }

  /** Net amount, what was taken off, and the promotions. */
  function Gross(quote: Quote): real {
    quote.netAmount + TakenOff(quote) + Sum(Numbers(quote.promotionAmounts))
  }

  lemma AmountIsGross(latest: Option<Document>, contractId: string, opportunityId: string,
                      quote: Quote, now: int, r: Document)
    requires NewPayment(latest, contractId, opportunityId, quote, now) == Ok(r)
    ensures Number(r, Amount) == Gross(quote)
  {
    RecordFigures(latest, contractId, opportunityId, quote, now, r);
  }

  /** Every figure of the record from the quote, and gross as net plus what was taken off. */
  lemma RecordFigures(latest: Option<Document>, contractId: string, opportunityId: string,
                      quote: Quote, now: int, r: Document)
    requires NewPayment(latest, contractId, opportunityId, quote, now) == Ok(r)
    ensures Number(r, NetAmount) == quote.netAmount
    ensures Number(r, Rebate) == Sum(Numbers(quote.rebateAmounts))
    ensures Number(r, ProgramIncentiveDiscount) == Sum(Numbers(quote.promotionAmounts))
    ensures Number(r, Credit) == TakenOff(quote)
    ensures Number(r, Amount) == quote.netAmount + Number(r, Credit) + Number(r, ProgramIncentiveDiscount)
    ensures Adjustment in r && Number(r, Adjustment) == 0.0
  {
    var rebate, promotions := SumBy(quote.rebateAmounts).value, SumBy(quote.promotionAmounts).value;
    var header := Header(latest.GetOr(map[]), contractId, opportunityId, quote, rebate, promotions, now);
    SumByIs(quote.rebateAmounts);
    SumByIs(quote.promotionAmounts);
    HeaderFigures(latest.GetOr(map[]), contractId, opportunityId, quote, rebate, promotions, now);
    FigureOf(latest, contractId, opportunityId, quote, now, NetAmount);
    FigureOf(latest, contractId, opportunityId, quote, now, Rebate);
    FigureOf(latest, contractId, opportunityId, quote, now, ProgramIncentiveDiscount);
    FigureOf(latest, contractId, opportunityId, quote, now, Credit);
    FigureOf(latest, contractId, opportunityId, quote, now, Amount);
    FigureOf(latest, contractId, opportunityId, quote, now, Adjustment);
  }

  /** No product touches the figures all have. */
  lemma FigureOf(latest: Option<Document>, contractId: string, opportunityId: string, quote: Quote, now: int, f: Field)
    requires NewPayment(latest, contractId, opportunityId, quote, now).Ok?
    requires f in {NetAmount, Rebate, ProgramIncentiveDiscount, Credit, Amount, Adjustment}
    ensures var r := NewPayment(latest, contractId, opportunityId, quote, now).value;
            var rebate, promotions := SumBy(quote.rebateAmounts).value, SumBy(quote.promotionAmounts).value;
            var header := Header(latest.GetOr(map[]), contractId, opportunityId, quote, rebate, promotions, now);
            f in r && Number(r, f) == Number(header, f)
  {
    var rebate, promotions := SumBy(quote.rebateAmounts).value, SumBy(quote.promotionAmounts).value;
    var header := Header(latest.GetOr(map[]), contractId, opportunityId, quote, rebate, promotions, now);
    assert f in Figures(quote, rebate, promotions) && f !in Billing(latest.GetOr(map[]), quote);
    MergedNumber(header, Billing(latest.GetOr(map[]), quote), f);
  }

  lemma HeaderFigures(copied: Document, contractId: string, opportunityId: string, quote: Quote,
                      rebate: real, promotions: real, now: int)
    ensures var header := Header(copied, contractId, opportunityId, quote, rebate, promotions, now);
            && Number(header, NetAmount) == quote.netAmount && Number(header, Rebate) == rebate
            && Number(header, ProgramIncentiveDiscount) == promotions
            && Number(header, Credit) == TakenOff(quote)
            && Number(header, Amount) == quote.netAmount + Number(header, Credit) + promotions
            && Number(header, Adjustment) == 0.0
  {
    CreditIsPercentPlusFixed(quote.projectDiscounts, quote.projectNetCost.GetOr(0.0));
  }

  /** Whose record it is, when it was made, and that it is a new document. */
  lemma RecordIdentity(latest: Option<Document>, contractId: string, opportunityId: string,
                       quote: Quote, now: int, r: Document)
    requires NewPayment(latest, contractId, opportunityId, quote, now) == Ok(r)
    ensures Id !in r && Version !in r
    ensures OpportunityId in r && r[OpportunityId] == Text(opportunityId)
    ensures WqtContractId in r && r[WqtContractId] == Text(contractId)
    ensures CreatedAt in r && r[CreatedAt] == Time(now) && UpdatedAt in r && r[UpdatedAt] == Time(now)
  {
    var rebate, promotions := SumBy(quote.rebateAmounts).value, SumBy(quote.promotionAmounts).value;
    var header := Header(latest.GetOr(map[]), contractId, opportunityId, quote, rebate, promotions, now);
    var billing := Billing(latest.GetOr(map[]), quote);
    HeaderIdentity(latest.GetOr(map[]), contractId, opportunityId, quote, rebate, promotions, now);
    MergedNumber(header, billing, Id);
    MergedNumber(header, billing, Version);
    MergedNumber(header, billing, OpportunityId);
    MergedNumber(header, billing, WqtContractId);
    MergedNumber(header, billing, CreatedAt);
    MergedNumber(header, billing, UpdatedAt);
  }

  lemma HeaderIdentity(copied: Document, contractId: string, opportunityId: string, quote: Quote,
                       rebate: real, promotions: real, now: int)
    ensures var header := Header(copied, contractId, opportunityId, quote, rebate, promotions, now);
            && Id !in header && Version !in header
            && OpportunityId in header && header[OpportunityId] == Text(opportunityId)
            && WqtContractId in header && header[WqtContractId] == Text(contractId)
            && CreatedAt in header && header[CreatedAt] == Time(now)
            && UpdatedAt in header && header[UpdatedAt] == Time(now)
  {
    var identified, figures := Identified(copied, contractId, opportunityId, now), Figures(quote, rebate, promotions);
    assert Id !in identified && Version !in identified;
    assert identified[OpportunityId] == Text(opportunityId) && identified[WqtContractId] == Text(contractId);
    assert identified[CreatedAt] == Time(now) && identified[UpdatedAt] == Time(now);
  }

  /** What is billed: the deposit of the quote and the smaller of rest and milestone in cents, or all as payment 2. */
  lemma BillingIs(latest: Document, quote: Quote)
    ensures var r := Billing(latest, quote);
            && (quote.product.NonCash? ==>
                  Number(r, Deposit) == 0.0 && Number(r, Payment1) == 0.0 && Number(r, Payment2) == quote.netAmount)
            && (quote.product.Cash? ==>
                  && Number(r, Deposit) == quote.product.upfrontPayment
                  && Number(r, ActualDepositMade) == Number(latest, ActualDepositMade))
  {
  }

  lemma FirstPaymentIs(latest: Document, quote: Quote)
    requires quote.product.Cash? && Number(latest, ActualPayment1Made) == 0.0
    ensures var rest, value := quote.netAmount - quote.product.upfrontPayment, quote.product.payment1.GetOr(0.0);
            var milestone := if quote.product.payment1PayPercent then value / 100.0 * quote.netAmount else value;
            var paid := Number(Billing(latest, quote), Payment1);
            && (rest <= milestone ==> -0.005 < paid - rest <= 0.005)
            && (milestone <= rest ==> -0.005 < paid - milestone <= 0.005)
            && WholeCents(paid)
  {
    var value := quote.product.payment1.GetOr(0.0);
    RoundingFacts(Min(quote.netAmount - quote.product.upfrontPayment, Milestone(quote)));
    PercentOf(value, quote.netAmount);
  }

  lemma PercentOf(value: real, net: real)
    ensures net * value / 100.0 == value / 100.0 * net
  {
    var share := value / 100.0;
    assert value == share * 100.0;
    assert net * (share * 100.0) == net * share * 100.0;
  }
}
