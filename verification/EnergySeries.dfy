/** The hourly series `calculateCost` sends, and the pages `getTariff` fetches (external-service.service.ts). */
module EnergySeries {
  import opened Common

  const HOURS_PER_YEAR := 8760
  const CORRECTION_PERCENT := 0.068

  /** The year starting at hour `from`: what is left of it, then its beginning. */
  function Rotate<T>(year: seq<T>, from: nat): seq<T> {
    Slice(year, from, HOURS_PER_YEAR) + Slice(year, 0, from)
  }

  function Imported(net: seq<real>): seq<real> {
    seq(|net|, k requires 0 <= k < |net| => if net[k] > 0.0 then net[k] else 0.0)
  }

  function Exported(net: seq<real>): seq<real> {
    seq(|net|, k requires 0 <= k < |net| => if net[k] < 0.0 then -net[k] else 0.0)
  }

  function TotalExport(exported: seq<real>): real {
    Sum(Filter(exported, (kWh: real) => kWh > 0.0))
  }

  function Correction(net: seq<real>): real {
    if net == [] then 0.0 else TotalExport(Exported(net)) * CORRECTION_PERCENT / |net| as real
  }

  function AddCorrection(series: seq<real>, correction: real): seq<real> {
    seq(|series|, k requires 0 <= k < |series| => series[k] + correction)
  }

  datatype Series = Series(importData: seq<real>, exportData: seq<real>)

  /** The series part of `calculateCost`. */
  function CostSeries(hourlyDataForTheYear: seq<real>, fromIndex: nat): Series {
    var net := Rotate(hourlyDataForTheYear, fromIndex);
    var correction := Correction(net);
    Series(AddCorrection(Imported(net), correction), AddCorrection(Exported(net), correction))
  }

  // ---------------------------------------------------------------- rotation

  lemma RotationSwaps<T>(year: seq<T>, from: nat)
    requires |year| <= HOURS_PER_YEAR && from <= HOURS_PER_YEAR
    ensures var cut := if from < |year| then from else |year|;
            Rotate(year, from) == year[cut..] + year[..cut] && year == year[..cut] + year[cut..]
  {
  }

  /** Rotating keeps every hour, once, exactly when the series is no longer than a year. */
  lemma RotationIsPermutation<T>(year: seq<T>, from: nat)
    requires from <= HOURS_PER_YEAR
    ensures multiset(Rotate(year, from)) == multiset(year) <==> |year| <= 8760
  {
    if |year| <= HOURS_PER_YEAR {
      RotationSwaps(year, from);
      var cut := if from < |year| then from else |year|;
      assert multiset(year[cut..] + year[..cut]) == multiset(year[..cut] + year[cut..]);
    } else {
      assert |Rotate(year, from)| == HOURS_PER_YEAR;
      assert |multiset(Rotate(year, from))| == HOURS_PER_YEAR && |multiset(year)| == |year|;
    }
  }

  /** Hour k of the rotated year is hour k + from of the year; rotating on by the rest gives the year back. */
  lemma RotationIsUndone<T>(year: seq<T>, from: nat)
    requires |year| == HOURS_PER_YEAR && from <= HOURS_PER_YEAR
    ensures Rotate(Rotate(year, from), HOURS_PER_YEAR - from) == year
    ensures forall k :: 0 <= k < HOURS_PER_YEAR ==> Rotate(year, from)[k] == year[(k + from) % HOURS_PER_YEAR]
  {
    RotationSwaps(year, from);
    RotationSwaps(Rotate(year, from), HOURS_PER_YEAR - from);
  }

  lemma RotationKeepsTotal(year: seq<real>, from: nat)
    requires |year| <= HOURS_PER_YEAR && from <= HOURS_PER_YEAR
    ensures |Rotate(year, from)| == |year|
    ensures Sum(Rotate(year, from)) == Sum(year)
  {
    RotationSwaps(year, from);
    var cut := if from < |year| then from else |year|;
    SumAppend(year[..cut], year[cut..]);
    SumAppend(year[cut..], year[..cut]);
  }

  // ---------------------------------------------------------------- decomposition

  lemma {:induction false} SumOfPositives(s: seq<real>)
    requires forall k :: 0 <= k < |s| ==> s[k] >= 0.0
    ensures TotalExport(s) == Sum(s)
    ensures Sum(s) >= 0.0
  {
    if s != [] {
      SumOfPositives(Init(s));
      var keep := (kWh: real) => kWh > 0.0;
      SumAppend(Filter(Init(s), keep), if keep(Last(s)) then [Last(s)] else []);
      assert Sum([Last(s)]) == Sum(Init([Last(s)])) + Last(s) && Init([Last(s)]) == [];
    }
  }

  lemma {:induction false} SumOfCorrected(s: seq<real>, correction: real)
    ensures Sum(AddCorrection(s, correction)) == Sum(s) + |s| as real * correction
  {
    if s != [] {
      SumOfCorrected(Init(s), correction);
      var corrected := AddCorrection(s, correction);
      assert Init(corrected) == AddCorrection(Init(s), correction);
      var n := |Init(s)| as real;
      assert |s| as real == n + 1.0;
      assert (n + 1.0) * correction == n * correction + correction;
    }
  }

  lemma {:induction false} ImportsMinusExports(net: seq<real>)
    ensures Sum(Imported(net)) - Sum(Exported(net)) == Sum(net)
  {
    if net != [] {
      ImportsMinusExports(Init(net));
      assert Init(Imported(net)) == Imported(Init(net));
      assert Init(Exported(net)) == Exported(Init(net));
    }
  }

  lemma CorrectionTotal(net: seq<real>)
    ensures |net| as real * Correction(net) == Sum(Exported(net)) * CORRECTION_PERCENT
    ensures Correction(net) >= 0.0
  {
    var exported := Exported(net);
    SumOfPositives(exported);
    if net == [] {
      assert exported == [];
    } else {
      DivideAndMultiply(TotalExport(exported) * CORRECTION_PERCENT, |net| as real);
    }
  }

  lemma DivideAndMultiply(x: real, n: real)
    requires n > 0.0
    ensures n * (x / n) == x
    ensures x >= 0.0 ==> x / n >= 0.0
  {
    var q := x / n;
    assert q * n == x;
    assert q < 0.0 ==> q * n < 0.0;
  }

  /**
    Both series are non-negative and differ at every hour by the rotated net load; the export totals 1.068 times
    the energy exported, and what is imported minus what is exported is the total of the given year.
   */
  lemma CostSeriesConserves(year: seq<real>, from: nat)
    requires |year| <= HOURS_PER_YEAR && from <= HOURS_PER_YEAR
    ensures var s := CostSeries(year, from);
            && |s.importData| == |s.exportData| == |year|
            && Decomposes(s, Rotate(year, from))
            && Sum(s.exportData) == (1.0 + CORRECTION_PERCENT) * Sum(Exported(Rotate(year, from)))
            && Sum(s.importData) - Sum(s.exportData) == Sum(year)
  {
    var net := Rotate(year, from);
    RotationKeepsTotal(year, from);
    CorrectedSeries(net);
  }

  /** Nothing is negative, and import minus export is the net load at every hour. */
  ghost predicate Decomposes(s: Series, net: seq<real>) {
    && |s.importData| == |s.exportData| == |net|
    && forall k :: 0 <= k < |net| ==>
         s.importData[k] >= 0.0 && s.exportData[k] >= 0.0 && s.importData[k] - s.exportData[k] == net[k]
  }

  lemma CorrectedSeries(net: seq<real>)
    ensures var s := Series(AddCorrection(Imported(net), Correction(net)),
                            AddCorrection(Exported(net), Correction(net)));
            && Decomposes(s, net)
            && Sum(s.exportData) == (1.0 + CORRECTION_PERCENT) * Sum(Exported(net))
            && Sum(s.importData) - Sum(s.exportData) == Sum(net)
  {
    var correction := Correction(net);
    CorrectionTotal(net);
    CorrectedDecomposes(net, correction);
    CorrectedExport(net, correction);
    CorrectionCancels(Imported(net), Exported(net), correction);
    ImportsMinusExports(net);
  }

  lemma CorrectedExport(net: seq<real>, correction: real)
    requires |net| as real * correction == Sum(Exported(net)) * CORRECTION_PERCENT
    ensures Sum(AddCorrection(Exported(net), correction)) == (1.0 + CORRECTION_PERCENT) * Sum(Exported(net))
  {
    SumOfCorrected(Exported(net), correction);
    AddShare(Sum(Exported(net)), |net| as real * correction);
  }

  lemma AddShare(exported: real, extra: real)
    requires extra == exported * CORRECTION_PERCENT
    ensures exported + extra == (1.0 + CORRECTION_PERCENT) * exported
  {
  }

  lemma CorrectedDecomposes(net: seq<real>, correction: real)
    requires correction >= 0.0
    ensures Decomposes(Series(AddCorrection(Imported(net), correction), AddCorrection(Exported(net), correction)), net)
  {
  }

  lemma {:induction false} CorrectionCancels(a: seq<real>, b: seq<real>, correction: real)
    requires |a| == |b|
    ensures Sum(AddCorrection(a, correction)) - Sum(AddCorrection(b, correction)) == Sum(a) - Sum(b)
  {
    if a != [] {
      CorrectionCancels(Init(a), Init(b), correction);
      assert Init(AddCorrection(a, correction)) == AddCorrection(Init(a), correction);
      assert Init(AddCorrection(b, correction)) == AddCorrection(Init(b), correction);
    }
  }

  /** Every hour of both series, from the net load alone: the correction is spread over all hours alike. */
  lemma EveryHourIs(year: seq<real>, from: nat, k: nat)
    requires |year| <= HOURS_PER_YEAR && from <= HOURS_PER_YEAR && k < |year|
    ensures var cut := if from < |year| then from else |year|;
            var load := if k + cut < |year| then year[k + cut] else year[k + cut - |year|];
            var net := year[cut..] + year[..cut];
            var share := 0.068 * Sum(Exported(net)) / |year| as real;
            && CostSeries(year, from).importData[k] == (if load > 0.0 then load else 0.0) + share
            && CostSeries(year, from).exportData[k] == (if load < 0.0 then -load else 0.0) + share
  {
    RotationSwaps(year, from);
    CorrectionIs(Rotate(year, from));
    HourIs(Rotate(year, from), k);
  }

  lemma CorrectionIs(net: seq<real>)
    requires net != []
    ensures Correction(net) == 0.068 * Sum(Exported(net)) / |net| as real
  {
    SumOfPositives(Exported(net));
  }

  lemma HourIs(net: seq<real>, k: nat)
    requires k < |net|
    ensures AddCorrection(Imported(net), Correction(net))[k]
         == (if net[k] > 0.0 then net[k] else 0.0) + Correction(net)
    ensures AddCorrection(Exported(net), Correction(net))[k]
         == (if net[k] < 0.0 then -net[k] else 0.0) + Correction(net)
  {
  }
}
