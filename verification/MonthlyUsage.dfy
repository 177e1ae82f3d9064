/** The hour-to-month loop of `calculateMonthlyUsage` (external-service.service.ts). */
module MonthlyUsage {
  import opened Common

  /** An hourly measure or a monthly total: ordinal and kWh. */
  datatype Usage = Usage(i: int, v: real)

  /** Last hour of each month; position m - 1 holds the source's `condition[m]`. */
  const MONTH_END: seq<nat> := [744, 1416, 2160, 2880, 3624, 4344, 5088, 5832, 6552, 7296, 8016, 8760]

  function Values(data: seq<Usage>): seq<real> {
    seq(|data|, k requires 0 <= k < |data| => data[k].v)
  }

  ghost predicate StrictlyIncreasing(ends: seq<nat>) {
    forall a, b :: 0 <= a < b < |ends| ==> ends[a] < ends[b]
  }

  ghost predicate ConsecutiveHours(data: seq<Usage>) {
    forall k :: 0 <= k < |data| ==> data[k].i == k + 1
  }

  /** The hours before month m, counting months from 0. */
  function MonthStart(ends: seq<nat>, m: nat): nat
    requires m <= |ends|
  {
    if m == 0 then 0 else ends[m - 1]
  }

  function MonthTotal(ends: seq<nat>, data: seq<Usage>, m: nat): real
    requires m < |ends|
  {
    Sum(Values(Slice(data, MonthStart(ends, m), ends[m])))
  }

  /** The first months, each with the total of its own slice of the year. */
  function MonthTotals(ends: seq<nat>, data: seq<Usage>, months: nat): (r: seq<Usage>)
    requires months <= |ends|
    ensures |r| == months
  {
    if months == 0 then []
    else MonthTotals(ends, data, months - 1) + [Usage(months, MonthTotal(ends, data, months - 1))]
  }

  /** How many months are over after n hours. */
  function CompletedMonths(ends: seq<nat>, n: nat): (c: nat)
    ensures c <= |ends|
  {
    if ends == [] then 0
    else if Last(ends) <= n then |ends|
    else CompletedMonths(Init(ends), n)
  }

  /** The state of the loop: the month being added up, what the table holds for it, and what was pushed. */
  datatype Progress = Progress(month: nat, running: real, pushed: seq<Usage>)

  /** The loop body, for data in any order: months after the last are added up but never pushed. */
  function Advance(ends: seq<nat>, p: Progress, hour: Usage): Progress {
    var total := p.running + hour.v;
    if p.month <= |ends| && p.month >= 1 && hour.i == ends[p.month - 1]
    then Progress(p.month + 1, 0.0, p.pushed + [Usage(p.month, total)])
    else p.(running := total)
  }

  function After(ends: seq<nat>, data: seq<Usage>): Progress {
    if data == [] then Progress(1, 0.0, []) else Advance(ends, After(ends, Init(data)), Last(data))
  }

  method CalculateMonthlyUsage(ends: seq<nat>, data: seq<Usage>) returns (typicalMonthlyUsage: seq<Usage>)
    ensures typicalMonthlyUsage == After(ends, data).pushed
  {
    typicalMonthlyUsage := [];
    var month := 1;
    var i := 0;
    var total := new real[|ends| + 1](_ => 0.0);
    // The source's table has no entry past the last month; what is added there is not a number and never pushed.
    ghost var beyond := 0.0;
    while i < |data|
      invariant 0 <= i <= |data| && 1 <= month <= |ends| + 1
      invariant After(ends, data[..i])
             == Progress(month, if month <= |ends| then total[month - 1] else beyond, typicalMonthlyUsage)
      invariant forall k :: month <= k < total.Length ==> total[k] == 0.0
      invariant month == 1 + |typicalMonthlyUsage|
    {
      assert Init(data[..i + 1]) == data[..i];
      if month <= |ends| {
        total[month - 1] := total[month - 1] + data[i].v;
        if data[i].i == ends[month - 1] {
          typicalMonthlyUsage := typicalMonthlyUsage + [Usage(month, total[month - 1])];
          month := month + 1;
          beyond := 0.0;
        }
      } else {
        beyond := beyond + data[i].v;
      }
      i := i + 1;
    }
    assert data[..|data|] == data;
  }

  // ---------------------------------------------------------------- the loop is slicing

  lemma CompletedMonthsFacts(ends: seq<nat>, n: nat)
    requires StrictlyIncreasing(ends)
    ensures var c := CompletedMonths(ends, n);
            && (forall m :: 0 <= m < c ==> ends[m] <= n)
            && (forall m :: c <= m < |ends| ==> n < ends[m])
  {
    if ends != [] && n < Last(ends) {
      CompletedMonthsFacts(Init(ends), n);
    } else if ends != [] {
      assert forall m :: 0 <= m < |ends| ==> ends[m] <= Last(ends);
    }
  }

  /** The number of completed months is the only one that splits the table at n. */
  lemma {:induction false} CompletedMonthsIs(ends: seq<nat>, n: nat, c: nat)
    requires StrictlyIncreasing(ends) && c <= |ends|
    requires c > 0 ==> ends[c - 1] <= n
    requires c < |ends| ==> n < ends[c]
    ensures CompletedMonths(ends, n) == c
  {
    if c < |ends| {
      assert ends[c] <= Last(ends);
      CompletedMonthsIs(Init(ends), n, c);
    }
  }

  /** The state of the loop after some hours, with c months completed. */
  ghost predicate Slices(ends: seq<nat>, data: seq<Usage>, c: nat)
    requires c <= |ends|
  {
    && MonthStart(ends, c) <= |data|
    && After(ends, data) == Progress(c + 1, Sum(Values(data[MonthStart(ends, c)..])), MonthTotals(ends, data, c))
  }

  /** After any consecutive hours the loop has pushed exactly the completed months, each the sum of its slice. */
  lemma {:induction false} LoopIsSlicing(ends: seq<nat>, data: seq<Usage>)
    requires StrictlyIncreasing(ends) && (ends != [] ==> 0 < ends[0])
    requires ConsecutiveHours(data)
    ensures Slices(ends, data, CompletedMonths(ends, |data|))
  {
    if data == [] {
      CompletedMonthsIs(ends, 0, 0);
      assert Values(data[0..]) == [];
    } else {
      var c := CompletedMonths(ends, |data| - 1);
      LoopIsSlicing(ends, Init(data));
      CompletedMonthsFacts(ends, |data| - 1);
      SliceStep(ends, data, c);
      CompletedMonthsIs(ends, |data|, if c < |ends| && ends[c] == |data| then c + 1 else c);
    }
  }

  lemma SliceStep(ends: seq<nat>, data: seq<Usage>, c: nat)
    requires StrictlyIncreasing(ends) && data != [] && Last(data).i == |data|
    requires c <= |ends| && (c < |ends| ==> |data| <= ends[c])
    requires Slices(ends, Init(data), c)
    ensures Slices(ends, data, if c < |ends| && ends[c] == |data| then c + 1 else c)
  {
    SumOneMore(data, MonthStart(ends, c));
    MonthTotalsIgnoreLater(ends, data, c);
    if c < |ends| && ends[c] == |data| {
      MonthEnds(ends, data, c);
    } else {
      MonthGoesOn(ends, data, c);
    }
  }

  lemma MonthGoesOn(ends: seq<nat>, data: seq<Usage>, c: nat)
    requires data != [] && Last(data).i == |data| && c <= |ends| && (c < |ends| ==> ends[c] != |data|)
    requires Slices(ends, Init(data), c) && MonthTotals(ends, Init(data), c) == MonthTotals(ends, data, c)
    ensures Slices(ends, data, c)
  {
    SumOneMore(data, MonthStart(ends, c));
    assert After(ends, data) == Advance(ends, After(ends, Init(data)), Last(data));
  }

  lemma MonthEnds(ends: seq<nat>, data: seq<Usage>, c: nat)
    requires data != [] && Last(data).i == |data| && c < |ends| && ends[c] == |data|
    requires Slices(ends, Init(data), c) && MonthTotals(ends, Init(data), c) == MonthTotals(ends, data, c)
    ensures Slices(ends, data, c + 1)
  {
    SumOneMore(data, MonthStart(ends, c));
    MonthIsOver(ends, data, c);
    assert After(ends, data) == Advance(ends, After(ends, Init(data)), Last(data));
  }

  /** When the hours end with month c, its slice is all that came after the months before. */
  lemma MonthIsOver(ends: seq<nat>, data: seq<Usage>, c: nat)
    requires c < |ends| && ends[c] == |data| && MonthStart(ends, c) <= |data|
    ensures MonthTotals(ends, data, c + 1)
         == MonthTotals(ends, data, c) + [Usage(c + 1, Sum(Values(data[MonthStart(ends, c)..])))]
    ensures Sum(Values(data[MonthStart(ends, c + 1)..])) == 0.0
  {
    assert Slice(data, MonthStart(ends, c), ends[c]) == data[MonthStart(ends, c)..];
    assert Values(data[|data|..]) == [];
  }

  lemma SumOneMore(data: seq<Usage>, start: nat)
    requires data != [] && start < |data|
    ensures Sum(Values(data[start..])) == Sum(Values(Init(data)[start..])) + Last(data).v
  {
    var vs := Values(data[start..]);
    assert Init(vs) == Values(Init(data)[start..]);
    assert Last(vs) == Last(data).v;
  }

  lemma {:induction false} MonthTotalsIgnoreLater(ends: seq<nat>, data: seq<Usage>, months: nat)
    requires data != [] && months <= |ends| && StrictlyIncreasing(ends)
    requires MonthStart(ends, months) < |data|
    ensures MonthTotals(ends, Init(data), months) == MonthTotals(ends, data, months)
  {
    if months > 0 {
      if months > 1 {
        assert ends[months - 2] < ends[months - 1];
      }
      MonthTotalsIgnoreLater(ends, data, months - 1);
      SliceIgnoresLater(data, MonthStart(ends, months - 1), ends[months - 1]);
    }
  }

  lemma SliceIgnoresLater(data: seq<Usage>, from: nat, to: nat)
    requires to < |data|
    ensures Slice(Init(data), from, to) == Slice(data, from, to)
  {
  }

  /** The totals of the first months add up to the total of the hours they cover. */
  lemma {:induction false} TotalsAddUp(ends: seq<nat>, data: seq<Usage>, months: nat)
    requires months <= |ends| && StrictlyIncreasing(ends)
    requires MonthStart(ends, months) <= |data|
    ensures Sum(Values(MonthTotals(ends, data, months))) == Sum(Values(data[..MonthStart(ends, months)]))
  {
    if months == 0 {
      assert Values(MonthTotals(ends, data, 0)) == [] && Values(data[..0]) == [];
    } else {
      StartsBeforeEnd(ends, months - 1);
      TotalsAddUp(ends, data, months - 1);
      HoursAddUp(data, MonthStart(ends, months - 1), ends[months - 1]);
      TotalOfOneMore(ends, data, months);
    }
  }

  lemma StartsBeforeEnd(ends: seq<nat>, m: nat)
    requires m < |ends| && StrictlyIncreasing(ends)
    ensures MonthStart(ends, m) <= ends[m]
  {
  }

  lemma TotalOfOneMore(ends: seq<nat>, data: seq<Usage>, months: nat)
    requires 0 < months <= |ends|
    ensures Sum(Values(MonthTotals(ends, data, months)))
         == Sum(Values(MonthTotals(ends, data, months - 1))) + MonthTotal(ends, data, months - 1)
  {
    var totals := MonthTotals(ends, data, months);
    InitLast(MonthTotals(ends, data, months - 1), Usage(months, MonthTotal(ends, data, months - 1)));
    SumOneMore(totals, 0);
    assert totals[0..] == totals && Init(totals)[0..] == Init(totals);
  }

  lemma HoursAddUp(data: seq<Usage>, start: nat, end: nat)
    requires start <= end <= |data|
    ensures Sum(Values(data[..end])) == Sum(Values(data[..start])) + Sum(Values(Slice(data, start, end)))
  {
    assert Values(data[..end]) == Values(data[..start]) + Values(Slice(data, start, end));
    SumAppend(Values(data[..start]), Values(Slice(data, start, end)));
  }

  /** A full year of hours gives one entry per month, and their total is the total of the year. */
  lemma FullYear(ends: seq<nat>, data: seq<Usage>)
    requires StrictlyIncreasing(ends) && ends != [] && 0 < ends[0]
    requires ConsecutiveHours(data) && |data| == Last(ends)
    ensures var months := After(ends, data).pushed;
            && |months| == |ends|
            && (forall m :: 0 <= m < |ends| ==> months[m] == Usage(m + 1, MonthTotal(ends, data, m)))
            && Sum(Values(months)) == Sum(Values(data))
  {
    LoopIsSlicing(ends, data);
    CompletedMonthsIs(ends, |data|, |ends|);
    TotalsAddUp(ends, data, |ends|);
    forall m | 0 <= m < |ends|
      ensures MonthTotals(ends, data, |ends|)[m] == Usage(m + 1, MonthTotal(ends, data, m))
    {
      MonthIsNumbered(ends, data, |ends|, m);
    }
    assert data[..Last(ends)] == data;
  }

  lemma {:induction false} MonthIsNumbered(ends: seq<nat>, data: seq<Usage>, months: nat, m: nat)
    requires m < months <= |ends|
    ensures MonthTotals(ends, data, months)[m] == Usage(m + 1, MonthTotal(ends, data, m))
  {
    InitLast(MonthTotals(ends, data, months - 1), Usage(months, MonthTotal(ends, data, months - 1)));
    if m < months - 1 {
      MonthIsNumbered(ends, data, months - 1, m);
    }
  }

  /** The days of the months of a common year. */
  const DAYS: seq<nat> := [31, 28, 31, 30, 31, 30, 31, 31, 30, 31, 30, 31]

  /** The table of the source is such a table, of the twelve months of a common year. */
  lemma SourceTable(data: seq<Usage>)
    requires ConsecutiveHours(data) && |data| == 8760
    ensures |After(MONTH_END, data).pushed| == 12
    ensures Sum(Values(After(MONTH_END, data).pushed)) == Sum(Values(data))
    ensures |MONTH_END| == 12 && forall m :: 0 <= m < 12 ==> MONTH_END[m] - MonthStart(MONTH_END, m) == 24 * DAYS[m]
  {
    assert StrictlyIncreasing(MONTH_END);
    FullYear(MONTH_END, data);
  }
}
