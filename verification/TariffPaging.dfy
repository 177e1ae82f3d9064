/** The page-by-page fetch of `getTariff` (external-service.service.ts), with the tariff API as an oracle. The service
  asks for pages of 100; the proofs are for any size. */
module TariffPaging {
  import opened Common

  datatype Page<T> = Page(count: nat, results: seq<T>)

  /** `Math.ceil(total / pageCount)`. */
  function Ceil(total: nat, pageCount: nat): nat
    requires pageCount > 0
  {
    (total + pageCount - 1) / pageCount
  }

  /** Where each request starts reading, the first one included. */
  function Requests<T>(api: nat -> Page<T>, pageCount: nat): seq<nat>
    requires pageCount > 0
  {
    var total := api(0).count;
    if total > pageCount then
      CeilFacts(total, pageCount);
      [0] + seq(Ceil(total, pageCount) - 1, idx requires 0 <= idx => (idx + 1) * pageCount)
    else
      [0]
  }

  /** The results of these requests, appended in order by the reducer. */
  function Fetch<T>(api: nat -> Page<T>, starts: seq<nat>): seq<T> {
    if starts == [] then [] else Fetch(api, Init(starts)) + api(Last(starts)).results
  }

  /** `getTariff`: what it returns is what these requests and no others answer. */
  function GetTariff<T>(api: nat -> Page<T>, pageCount: nat): seq<T>
    requires pageCount > 0
  {
    Fetch(api, Requests(api, pageCount))
  }

  /** The API serves this list: its length, and from any start at most a page of it. */
  ghost predicate Serves<T>(api: nat -> Page<T>, pageCount: nat, all: seq<T>) {
    forall start: nat :: api(start) == Page(|all|, Slice(all, start, start + pageCount))
  }

  lemma CeilFacts(total: nat, pageCount: nat)
    requires pageCount > 0
    ensures (Ceil(total, pageCount) - 1) * pageCount < total || total == 0
    ensures total <= Ceil(total, pageCount) * pageCount
    ensures total > 0 ==> Ceil(total, pageCount) >= 1
  {
    var q := (total + pageCount - 1) / pageCount;
    assert q * pageCount <= total + pageCount - 1 < q * pageCount + pageCount;
    assert (q - 1) * pageCount == q * pageCount - pageCount;
  }

  /** Requests a page apart from the start on, none past the end, fetch a beginning of the list. */
  lemma {:induction false} BatchesAreSlice<T>(api: nat -> Page<T>, pageCount: nat, all: seq<T>, starts: seq<nat>)
    requires Serves(api, pageCount, all) && starts != [] && starts[0] == 0 && Last(starts) <= |all|
    requires forall k :: 0 < k < |starts| ==> starts[k] == starts[k - 1] + pageCount
    ensures Fetch(api, starts) == Slice(all, 0, Last(starts) + pageCount)
  {
    var from, earlier := Last(starts), Init(starts);
    assert api(from).results == Slice(all, from, from + pageCount);
    if earlier != [] {
      assert from == Last(earlier) + pageCount;
      BatchesAreSlice(api, pageCount, all, earlier);
    }
    OnePage(all, from, pageCount);
  }

  lemma OnePage<T>(all: seq<T>, from: nat, size: nat)
    requires from <= |all|
    ensures Slice(all, 0, from) + Slice(all, from, from + size) == Slice(all, 0, from + size)
  {
  }

  lemma OneMore(n: nat, size: nat)
    ensures (n + 1) * size == n * size + size
  {
  }

  lemma RequestsAre<T>(api: nat -> Page<T>, pageCount: nat)
    requires pageCount > 0
    ensures var starts, total := Requests(api, pageCount), api(0).count;
            && |starts| == (if total > pageCount then Ceil(total, pageCount) else 1)
            && forall k :: 0 <= k < |starts| ==> starts[k] == k * pageCount
  {
    CeilFacts(api(0).count, pageCount);
  }

  lemma RequestsStep<T>(api: nat -> Page<T>, pageCount: nat)
    requires pageCount > 0
    ensures var starts := Requests(api, pageCount);
            forall k :: 0 < k < |starts| ==> starts[k] == starts[k - 1] + pageCount
  {
    var starts := Requests(api, pageCount);
    RequestsAre(api, pageCount);
    forall k | 0 < k < |starts|
      ensures starts[k] == starts[k - 1] + pageCount
    {
      OneMore(k - 1, pageCount);
    }
  }

  /** The last page asked for begins within the list and reaches its end. */
  lemma LastRequestReaches<T>(api: nat -> Page<T>, pageCount: nat)
    requires pageCount > 0
    ensures var last := Last(Requests(api, pageCount));
            last <= api(0).count <= last + pageCount
  {
    var n := |Requests(api, pageCount)| - 1;
    RequestsAre(api, pageCount);
    CeilFacts(api(0).count, pageCount);
    OneMore(n, pageCount);
  }

  /** The fetch returns the whole list in order, with the fewest pages that hold it. */
  lemma FetchIsComplete<T>(api: nat -> Page<T>, pageCount: nat, all: seq<T>)
    requires pageCount > 0 && Serves(api, pageCount, all)
    ensures GetTariff(api, pageCount) == all
    ensures |Requests(api, pageCount)| == if |all| > pageCount then Ceil(|all|, pageCount) else 1
    ensures forall k :: 0 <= k < |Requests(api, pageCount)| ==> Requests(api, pageCount)[k] == k * pageCount
  {
    assert api(0).count == |all|;
    RequestsAre(api, pageCount);
    RequestsStep(api, pageCount);
    LastRequestReaches(api, pageCount);
    BatchesAreSlice(api, pageCount, all, Requests(api, pageCount));
  }
}
