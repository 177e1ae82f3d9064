/** The system variants offered online and their interpolated generation (e-commerce.service.ts). */
module PanelVariants {
  import opened Common

  const PANEL_VARIANCE := 5
  const SYSTEMS_TO_GENERATE := 2 * PANEL_VARIANCE + 1

  datatype Variant = Variant(offset: int, numberOfPanels: int, isDefault: bool, netGeneration: real)

  /** `Math.ceil`. */
  function CeilReal(x: real): int {
    -(-x).Floor
  }

  /** `generateSolarSystem`: the panels that cover the usage, and some more or fewer; an unknown rating counts as 1. */
  function NumberOfPanels(annualUsage: real, designFactor: real, panelRating: real, additionalPanels: int): int
    requires designFactor != 0.0
  {
    CeilReal(annualUsage / designFactor * 1000.0 / RatingOf(panelRating)) + additionalPanels
  }

  function RatingOf(panelRating: real): (rating: real)
    ensures rating != 0.0 && (panelRating >= 0.0 ==> rating > 0.0)
  {
    if panelRating == 0.0 then 1.0 else panelRating
  }

  function CapacityKw(numberOfPanels: int, rating: real): real {
    numberOfPanels as real * rating / 1000.0
  }

  /**
    With positive ratings the default system is the smallest that covers the usage: n panels produce enough
    exactly when there are at least as many as the count without additional panels.
   */
  lemma DefaultCoversUsage(annualUsage: real, designFactor: real, panelRating: real, additionalPanels: int, n: int)
    requires designFactor > 0.0 && panelRating >= 0.0
    ensures CapacityKw(n, if panelRating == 0.0 then 1.0 else panelRating) * designFactor >= annualUsage
       <==> n + additionalPanels >= NumberOfPanels(annualUsage, designFactor, panelRating, additionalPanels)
  {
    var rating := RatingOf(panelRating);
    var share := annualUsage / designFactor;
    CeilIsLeast(share * 1000.0 / rating, n);
    ThousandWatts(n as real, rating, share);
    ScaledCompare(CapacityKw(n, rating), share, designFactor);
    Undivided(annualUsage, designFactor);
  }

  lemma ThousandWatts(panels: real, rating: real, share: real)
    requires rating > 0.0
    ensures panels >= share * 1000.0 / rating <==> panels * rating / 1000.0 >= share
  {
    var needed, watts := share * 1000.0 / rating, panels * rating;
    ScaledCompare(panels, needed, rating);
    Undivided(share * 1000.0, rating);
    assert watts >= share * 1000.0 <==> watts / 1000.0 >= share;
  }

  lemma Undivided(x: real, y: real)
    requires y != 0.0
    ensures x / y * y == x
  {
  }

  lemma CeilIsLeast(x: real, n: int)
    ensures n as real >= x <==> n >= CeilReal(x)
  {
    assert (-x).Floor as real <= -x < (-x).Floor as real + 1.0;
  }

  lemma ScaledCompare(x: real, y: real, factor: real)
    requires factor > 0.0
    ensures x * factor >= y * factor <==> x >= y
  {
    assert (x - y) * factor == x * factor - y * factor;
    if x < y {
      assert (y - x) * factor > 0.0;
    } else {
      assert (x - y) * factor >= 0.0;
    }
  }

  function Lerp(start: real, end: real, desired: real): real {
    start * (1.0 - desired) + end * desired
  }

  /** The share of the way from the low end to the high end. */
  function Share(offset: int): real {
    (offset + PANEL_VARIANCE) as real / (SYSTEMS_TO_GENERATE - 1) as real
  }

  function OffsetsOf(variants: seq<Variant>): seq<int> {
    seq(|variants|, k requires 0 <= k < |variants| => variants[k].offset)
  }

  function VariantAt(base: int, lowEndNet: real, highEndNet: real, offset: int): Variant {
    Variant(offset, base + offset, offset == 0,
            if offset == -PANEL_VARIANCE then lowEndNet
            else if offset == PANEL_VARIANCE then highEndNet
            else Lerp(lowEndNet, highEndNet, Share(offset)))
  }

  /**
    `getGeneratedSystemAndQuote`: both ends, then the loop in between. `base` is the number of panels at offset 0,
    `isValid` says which offsets get a quote whose payments are all positive.
   */
  method GenerateVariants(base: int, lowEndNet: real, highEndNet: real, isValid: int -> bool)
    returns (systems: seq<Variant>)
    ensures forall v :: v in systems ==> v == VariantAt(base, lowEndNet, highEndNet, v.offset)
    ensures forall o :: multiset(OffsetsOf(systems))[o]
                     == if -PANEL_VARIANCE <= o <= PANEL_VARIANCE && isValid(o) then 1 else 0
  {
    systems := [];
    if isValid(-PANEL_VARIANCE) {
      systems := Push(systems, Variant(-PANEL_VARIANCE, base - PANEL_VARIANCE, false, lowEndNet));
    }
    if isValid(PANEL_VARIANCE) {
      systems := Push(systems, Variant(PANEL_VARIANCE, base + PANEL_VARIANCE, false, highEndNet));
    }
    var adjust := -PANEL_VARIANCE + 1;
    while adjust <= PANEL_VARIANCE - 1
      invariant -PANEL_VARIANCE + 1 <= adjust <= PANEL_VARIANCE
      invariant forall v :: v in systems ==> v == VariantAt(base, lowEndNet, highEndNet, v.offset)
      invariant forall o :: multiset(OffsetsOf(systems))[o] == if Quoted(o, adjust) && isValid(o) then 1 else 0
    {
      var variant := InterpolatedVariant(base, lowEndNet, highEndNet, adjust);
      if isValid(adjust) {
        systems := Push(systems, variant);
      }
      adjust := adjust + 1;
    }
  }

  /** The ends and what the loop has reached. */
  predicate Quoted(offset: int, adjust: int) {
    offset == -PANEL_VARIANCE || offset == PANEL_VARIANCE || -PANEL_VARIANCE < offset < adjust
  }

  method InterpolatedVariant(base: int, lowEndNet: real, highEndNet: real, adjust: int) returns (v: Variant)
    requires -PANEL_VARIANCE < adjust < PANEL_VARIANCE
    ensures v == VariantAt(base, lowEndNet, highEndNet, adjust)
  {
    var systemIndex := adjust + PANEL_VARIANCE;
    var share := systemIndex as real / (SYSTEMS_TO_GENERATE - 1) as real;
    v := Variant(adjust, base + adjust, adjust == 0, Lerp(lowEndNet, highEndNet, share));
  }

  method Push(systems: seq<Variant>, v: Variant) returns (r: seq<Variant>)
    ensures r == systems + [v]
    ensures multiset(OffsetsOf(r)) == multiset(OffsetsOf(systems)) + multiset{v.offset}
  {
    r := systems + [v];
    assert OffsetsOf(r) == OffsetsOf(systems) + [v.offset];
  }

  /** A default is offered exactly when the quote of offset 0 is valid. */
  lemma DefaultIsOfferedExactly(systems: seq<Variant>, base: int, lowEndNet: real, highEndNet: real,
                                isValid: int -> bool)
    requires forall v :: v in systems ==> v == VariantAt(base, lowEndNet, highEndNet, v.offset)
    requires forall o :: multiset(OffsetsOf(systems))[o]
                      == if -PANEL_VARIANCE <= o <= PANEL_VARIANCE && isValid(o) then 1 else 0
    ensures (exists v :: v in systems && v.isDefault) <==> isValid(0)
  {
    var offsets := OffsetsOf(systems);
    if isValid(0) {
      assert 0 in multiset(offsets);
      assert 0 in offsets;
      var k :| 0 <= k < |offsets| && offsets[k] == 0;
      assert systems[k] in systems && systems[k].isDefault;
    }
    forall v | v in systems && v.isDefault
      ensures isValid(0)
    {
      var k :| 0 <= k < |systems| && systems[k] == v;
      assert offsets[k] == 0 && 0 in multiset(offsets);
    }
  }

  /** If generation is affine in capacity, interpolating between the ends is exact at every offset. */
  lemma InterpolationIsExact(base: int, rating: real, slope: real, intercept: real, offset: int)
    ensures var net := (o: int) => slope * CapacityKw(base + o, rating) + intercept;
            Lerp(net(-PANEL_VARIANCE), net(PANEL_VARIANCE), Share(offset)) == net(offset)
  {
    var unit := rating / 1000.0;
    var t := Share(offset);
    var middle := CapacityKw(base, rating);
    CapacityIsLinear(base, rating, -5);
    CapacityIsLinear(base, rating, 5);
    CapacityIsLinear(base, rating, offset);
    assert offset as real == 10.0 * t - 5.0;
    var low, high := slope * (middle - 5.0 * unit) + intercept, slope * (middle + 5.0 * unit) + intercept;
    LerpOfLine(slope, middle, unit, intercept, t);
    assert CapacityKw(base + offset, rating) == middle + (10.0 * t - 5.0) * unit;
  }

  lemma CapacityIsLinear(base: int, rating: real, offset: int)
    ensures CapacityKw(base + offset, rating) == CapacityKw(base, rating) + offset as real * (rating / 1000.0)
  {
    var unit := rating / 1000.0;
    assert (base + offset) as real == base as real + offset as real;
    assert (base as real + offset as real) * unit == base as real * unit + offset as real * unit;
  }

  lemma LerpOfLine(slope: real, middle: real, unit: real, intercept: real, t: real)
    ensures Lerp(slope * (middle - 5.0 * unit) + intercept, slope * (middle + 5.0 * unit) + intercept, t)
         == slope * (middle + (10.0 * t - 5.0) * unit) + intercept
  {
    var a, b := slope * middle + intercept, slope * unit;
    assert slope * (middle - 5.0 * unit) + intercept == a - 5.0 * b;
    assert slope * (middle + 5.0 * unit) + intercept == a + 5.0 * b;
    assert (a - 5.0 * b) * (1.0 - t) + (a + 5.0 * b) * t == a + (10.0 * t - 5.0) * b;
    assert slope * ((10.0 * t - 5.0) * unit) == (10.0 * t - 5.0) * b;
    assert slope * (middle + (10.0 * t - 5.0) * unit) == slope * middle + slope * ((10.0 * t - 5.0) * unit);
  }

  /** In any case it stays between the measured ends. */
  lemma InterpolationStaysBetween(lowEndNet: real, highEndNet: real, offset: int)
    requires -PANEL_VARIANCE <= offset <= PANEL_VARIANCE
    ensures var net := Lerp(lowEndNet, highEndNet, Share(offset));
            && (lowEndNet <= net <= highEndNet || highEndNet <= net <= lowEndNet)
  {
    var t := Share(offset);
    assert 0.0 <= t <= 1.0;
    var gap := highEndNet - lowEndNet;
    assert Lerp(lowEndNet, highEndNet, t) == lowEndNet + gap * t;
    if gap >= 0.0 {
      assert 0.0 <= gap * t <= gap;
    } else {
      assert gap <= gap * t <= 0.0;
    }
  }

  datatype Rates = Rates(
    modulePricePerW: real,
    moduleLaborCost: real,
    moduleMarkupRate: real,
    storagePrice: real,
    storageLaborPerHour: real,
    storageBaseCost: real,
    storageMarkupRate: real)

  /** `getTotalCostForSolarSystem`. */
  function TotalCost(r: Rates, systemSizeW: real, batteryCount: nat): real {
    MarkedUp(SolarSubtotal(r, systemSizeW), r.moduleMarkupRate)
    + MarkedUp(StorageSubtotal(r, batteryCount), r.storageMarkupRate)
  }

  function MarkedUp(subtotal: real, rate: real): real {
    subtotal + subtotal * rate
  }

  function SolarSubtotal(r: Rates, systemSizeW: real): real {
    systemSizeW * r.modulePricePerW + systemSizeW * r.moduleLaborCost
  }

  function StorageSubtotal(r: Rates, batteryCount: nat): real {
    r.storagePrice * batteryCount as real
    + r.storageLaborPerHour * 0.0
    + StorageBase(r, batteryCount)
  }

  function StorageBase(r: Rates, batteryCount: nat): real {
    if batteryCount > 0 then r.storageBaseCost else 0.0
  }

  predicate NonNegative(r: Rates) {
    && r.modulePricePerW >= 0.0 && r.moduleLaborCost >= 0.0 && r.moduleMarkupRate >= 0.0
    && r.storagePrice >= 0.0 && r.storageBaseCost >= 0.0 && r.storageMarkupRate >= 0.0
  }

  lemma ProductIsMonotone(x: real, y: real, factor: real)
    requires x <= y && factor >= 0.0
    ensures x * factor <= y * factor
  {
    assert (y - x) * factor >= 0.0;
  }

  /** A larger system or another battery never costs less. */
  lemma TotalCostIsMonotone(r: Rates, smallerW: real, largerW: real, fewer: nat, more: nat)
    requires NonNegative(r) && smallerW <= largerW && fewer <= more
    ensures TotalCost(r, smallerW, fewer) <= TotalCost(r, largerW, more)
  {
    SolarIsMonotone(r, smallerW, largerW);
    MarkUpIsMonotone(SolarSubtotal(r, smallerW), SolarSubtotal(r, largerW), r.moduleMarkupRate);
    StorageIsMonotone(r, fewer, more);
    MarkUpIsMonotone(StorageSubtotal(r, fewer), StorageSubtotal(r, more), r.storageMarkupRate);
  }

  lemma MarkUpIsMonotone(x: real, y: real, rate: real)
    requires x <= y && rate >= 0.0
    ensures MarkedUp(x, rate) <= MarkedUp(y, rate)
  {
    ProductIsMonotone(x, y, rate);
  }

  lemma SolarIsMonotone(r: Rates, smallerW: real, largerW: real)
    requires NonNegative(r) && smallerW <= largerW
    ensures SolarSubtotal(r, smallerW) <= SolarSubtotal(r, largerW)
  {
    ProductIsMonotone(smallerW, largerW, r.modulePricePerW);
    ProductIsMonotone(smallerW, largerW, r.moduleLaborCost);
  }

  lemma StorageIsMonotone(r: Rates, fewer: nat, more: nat)
    requires NonNegative(r) && fewer <= more
    ensures StorageSubtotal(r, fewer) <= StorageSubtotal(r, more)
  {
    ProductIsMonotone(fewer as real, more as real, r.storagePrice);
    ProductsCommute(r.storagePrice, fewer as real);
    ProductsCommute(r.storagePrice, more as real);
    assert r.storagePrice * fewer as real <= r.storagePrice * more as real;
    assert StorageBase(r, fewer) <= StorageBase(r, more);
  }

  lemma ProductsCommute(x: real, y: real)
    ensures x * y == y * x
  {
  }

  // ---------------------------------------------------------------- the offers and the price, in full

  /** Every offer, ends included, has its panels and, for affine generation, exactly what they generate. */
  lemma OffersAreExact(base: int, rating: real, slope: real, intercept: real, offset: int)
    requires -5 <= offset <= 5
    ensures var net := (o: int) => slope * CapacityKw(base + o, rating) + intercept;
            VariantAt(base, net(-5), net(5), offset) == Variant(offset, base + offset, offset == 0, net(offset))
  {
    InterpolationIsExact(base, rating, slope, intercept, offset);
  }

  /** The ends are offered as measured, whatever the generation. */
  lemma EndsAreMeasured(base: int, lowEndNet: real, highEndNet: real)
    ensures VariantAt(base, lowEndNet, highEndNet, -5) == Variant(-5, base - 5, false, lowEndNet)
    ensures VariantAt(base, lowEndNet, highEndNet, 5) == Variant(5, base + 5, false, highEndNet)
  {
  }

  lemma CapacityIs(numberOfPanels: int, rating: real)
    ensures CapacityKw(numberOfPanels, rating) * 1000.0 == rating * numberOfPanels as real
  {
  }

  /** The price: materials and labor per watt, and batteries with their base once, each with its mark-up. */
  lemma TotalCostIs(r: Rates, systemSizeW: real, batteryCount: nat)
    ensures TotalCost(r, systemSizeW, batteryCount)
         == (r.modulePricePerW + r.moduleLaborCost) * systemSizeW * (1.0 + r.moduleMarkupRate)
            + (r.storagePrice * batteryCount as real + if batteryCount == 0 then 0.0 else r.storageBaseCost)
              * (1.0 + r.storageMarkupRate)
  {
    var solar, storage := SolarSubtotal(r, systemSizeW), StorageSubtotal(r, batteryCount);
    PerWatt(r.modulePricePerW, r.moduleLaborCost, systemSizeW);
    WithMarkUp(solar, r.moduleMarkupRate);
    WithMarkUp(storage, r.storageMarkupRate);
    NoLabor(r.storageLaborPerHour);
  }

  lemma PerWatt(a: real, b: real, size: real)
    ensures size * a + size * b == (a + b) * size
  {
  }

  lemma WithMarkUp(x: real, rate: real)
    ensures MarkedUp(x, rate) == x * (1.0 + rate)
  {
  }

  lemma NoLabor(x: real)
    ensures x * 0.0 == 0.0
  {
  }
}
