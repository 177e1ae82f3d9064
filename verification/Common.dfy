/** Shared datatypes and the few sequence facts every service needs. */
module Common {

  datatype Option<+T> = None | Some(value: T) {
    function GetOr(default: T): T {
      if Some? then value else default
    }
  }

  datatype Result<+T, +E> = Ok(value: T) | Err(error: E)

  /** All elements but the last; JavaScript loops append, so recursion peels from the end. */
  function Init<T>(s: seq<T>): seq<T>
    requires s != []
  {
    s[..|s| - 1]
  }

  function Last<T>(s: seq<T>): T
    requires s != []
  {
    s[|s| - 1]
  }

  lemma InitLast<T>(s: seq<T>, x: T)
    ensures Init(s + [x]) == s && Last(s + [x]) == x
  {
  }

  /** `Array.prototype.slice(from, to)` for bounds that are not negative. */
  function Slice<T>(s: seq<T>, from: nat, to: nat): seq<T> {
    var hi := if to < |s| then to else |s|;
    if from <= hi then s[from..hi] else []
  }

  /** `Array.prototype.findIndex`; `find` is the element there. */
  function FindIndex<T>(s: seq<T>, found: T -> bool): (r: int)
    ensures -1 <= r < |s|
    ensures r >= 0 ==> found(s[r])
    ensures forall k :: 0 <= k < |s| && found(s[k]) ==> 0 <= r <= k
  {
    if s == [] then -1
    else
      var r := FindIndex(Init(s), found);
      if r >= 0 then r else if found(Last(s)) then |s| - 1 else -1
  }

  function Sum(s: seq<real>): real {
    if s == [] then 0.0 else Sum(Init(s)) + Last(s)
  }

  lemma {:induction false} SumAppend(a: seq<real>, b: seq<real>)
    ensures Sum(a + b) == Sum(a) + Sum(b)
    decreases |b|
  {
    if b == [] {
      assert a + b == a;
    } else {
      assert Init(a + b) == a + Init(b);
      SumAppend(a, Init(b));
    }
  }

  /** `Array.prototype.filter`. */
  function Filter<T>(s: seq<T>, keep: T -> bool): seq<T> {
    if s == [] then [] else Filter(Init(s), keep) + (if keep(Last(s)) then [Last(s)] else [])
  }

  /** `reduce` with a summand per element. */
  function SumWith<T>(s: seq<T>, f: T -> real): real {
    if s == [] then 0.0 else SumWith(Init(s), f) + f(Last(s))
  }

  lemma {:induction false} SumWithAppend<T>(a: seq<T>, b: seq<T>, f: T -> real)
    ensures SumWith(a + b, f) == SumWith(a, f) + SumWith(b, f)
    decreases |b|
  {
    if b == [] {
      assert a + b == a;
    } else {
      assert Init(a + b) == a + Init(b);
      SumWithAppend(a, Init(b), f);
    }
  }

  lemma {:induction false} SumWithIgnoresOrder<T>(xs: seq<T>, ys: seq<T>, f: T -> real)
    requires multiset(xs) == multiset(ys)
    ensures SumWith(xs, f) == SumWith(ys, f)
    decreases |xs|
  {
    if xs == [] {
      assert |multiset(ys)| == 0;
    } else {
      var x := Last(xs);
      assert xs == Init(xs) + [x];
      assert x in multiset(ys);
      var k :| 0 <= k < |ys| && ys[k] == x;
      var before, after := ys[..k], ys[k + 1..];
      assert ys == before + [x] + after;
      SameRest(Init(xs), x, before, after);
      SumWithIgnoresOrder(Init(xs), before + after, f);
      SumAround(before, x, after, f);
    }
  }

  lemma SameRest<T>(xs: seq<T>, x: T, before: seq<T>, after: seq<T>)
    requires multiset(xs + [x]) == multiset(before + [x] + after)
    ensures multiset(xs) == multiset(before + after)
  {
    forall y
      ensures multiset(xs)[y] == multiset(before + after)[y]
    {
      assert multiset(xs + [x])[y] == multiset(xs)[y] + multiset{x}[y];
      assert multiset(before + [x] + after)[y] == multiset(before + after)[y] + multiset{x}[y];
    }
  }

  lemma SumAround<T>(before: seq<T>, x: T, after: seq<T>, f: T -> real)
    ensures SumWith(before + [x] + after, f) == SumWith(before + after, f) + f(x)
  {
    SumWithAppend(before, after, f);
    SumWithAppend(before + [x], after, f);
    InitLast(before, x);
  }
}
