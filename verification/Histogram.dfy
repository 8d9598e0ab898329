/** Histograms and their cumulative exposition (internal/metrics/histogram.go, exposition.go). */
module Histogram {

  // ---------------------------------------------------------------- boundaries

  function Insert(x: real, s: seq<real>): seq<real> {
    if s == [] || x <= s[0] then [x] + s else [s[0]] + Insert(x, s[1..])
  }

  /** sort.Float64s */
  function Sort(s: seq<real>): seq<real> {
    if s == [] then [] else Insert(s[0], Sort(s[1..]))
  }

  ghost predicate Ascending(s: seq<real>) {
    forall i, j :: 0 <= i < j < |s| ==> s[i] <= s[j]
  }

  lemma {:induction false} InsertSame(x: real, s: seq<real>)
    ensures multiset(Insert(x, s)) == multiset(s) + multiset{x}
  {
    if s != [] && x > s[0] {
      InsertSame(x, s[1..]);
      assert s == [s[0]] + s[1..];
    }
  }

  lemma {:induction false} InsertAscending(x: real, s: seq<real>)
    requires Ascending(s)
    ensures Ascending(Insert(x, s)) && (s == [] || Insert(x, s)[0] >= x || Insert(x, s)[0] >= s[0])
  {
    if s != [] && x > s[0] {
      InsertAscending(x, s[1..]);
    }
  }

  lemma {:induction false} SortSorts(s: seq<real>)
    ensures Ascending(Sort(s)) && multiset(Sort(s)) == multiset(s)
  {
    if s != [] {
      SortSorts(s[1..]);
      InsertAscending(s[0], Sort(s[1..]));
      InsertSame(s[0], Sort(s[1..]));
      assert s == [s[0]] + s[1..];
    }
  }

  // ---------------------------------------------------------------- the reference: counting observations

  function AtMost(xs: seq<real>, b: real): nat {
    if xs == [] then 0 else AtMost(xs[..|xs| - 1], b) + if xs[|xs| - 1] <= b then 1 else 0
  }

  lemma {:induction false} AtMostMonotone(xs: seq<real>, a: real, b: real)
    requires a <= b
    ensures AtMost(xs, a) <= AtMost(xs, b) <= |xs|
  {
    if xs != [] {
      AtMostMonotone(xs[..|xs| - 1], a, b);
    }
  }

  // ---------------------------------------------------------------- the histogram

  /** i is the first boundary not below x, or the number of boundaries. */
  ghost predicate IsBucket(bs: seq<real>, x: real, i: nat) {
    i <= |bs| && (forall j :: 0 <= j < i ==> bs[j] < x) && (forall j :: i <= j < |bs| ==> x <= bs[j])
  }

  function Sum(s: seq<nat>): nat {
    if s == [] then 0 else Sum(s[..|s| - 1]) + s[|s| - 1]
  }

  /** The first k counts together are the observations up to the last of their boundaries; all are everything. */
  ghost predicate Tallies(bs: seq<real>, counts: seq<nat>, xs: seq<real>) {
    && |counts| == |bs| + 1
    && (forall k :: 0 <= k < |bs| ==> Sum(counts[..k + 1]) == AtMost(xs, bs[k]))
    && Sum(counts) == |xs|
  }

  lemma {:induction false} SumBumped(s: seq<nat>, i: nat, k: nat)
    requires i < |s| && k <= |s|
    ensures Sum(s[i := s[i] + 1][..k]) == Sum(s[..k]) + if i < k then 1 else 0
    decreases k
  {
    if k > 0 {
      var t := s[i := s[i] + 1];
      assert t[..k][..k - 1] == t[..k - 1] && s[..k][..k - 1] == s[..k - 1];
      SumBumped(s, i, k - 1);
    }
  }

  lemma ObserveTallies(bs: seq<real>, counts: seq<nat>, xs: seq<real>, x: real, i: nat)
    requires Tallies(bs, counts, xs) && IsBucket(bs, x, i)
    ensures Tallies(bs, counts[i := counts[i] + 1], xs + [x])
  {
    var t := counts[i := counts[i] + 1];
    forall k | 0 <= k < |bs|
      ensures Sum(t[..k + 1]) == AtMost(xs + [x], bs[k])
    {
      SumBumped(counts, i, k + 1);
      assert (xs + [x])[..|xs|] == xs;
    }
    SumBumped(counts, i, |counts|);
    assert t[..|t|] == t && counts[..|counts|] == counts;
  }

  lemma {:induction false} SumZero(s: seq<nat>)
    requires forall k :: 0 <= k < |s| ==> s[k] == 0
    ensures Sum(s) == 0
  {
    if s != [] {
      SumZero(s[..|s| - 1]);
    }
  }

  /** Conversion to an integer, towards zero. */
  function Trunc(x: real): int {
    if x >= 0.0 then x.Floor else -(-x).Floor
  }

  /** The nanoseconds of all observations, each cut to a whole number. */
  function Nanos(xs: seq<real>): int {
    if xs == [] then 0 else Nanos(xs[..|xs| - 1]) + Trunc(xs[|xs| - 1] * 1000000000.0)
  }

  function Total(xs: seq<real>): real {
    if xs == [] then 0.0 else Total(xs[..|xs| - 1]) + xs[|xs| - 1]
  }

  /** The sum kept is off by less than a nanosecond for each observation. */
  lemma {:induction false} NanosClose(xs: seq<real>)
    ensures -(|xs| as real) <= Nanos(xs) as real - 1000000000.0 * Total(xs) <= |xs| as real
  {
    if xs != [] {
      NanosClose(xs[..|xs| - 1]);
    }
  }

  class Histogram {
    const buckets: seq<real>
    const counts: array<nat>
    var count: nat
    var sum: int
    /** What has been observed, in order. */
    ghost var seen: seq<real>

    ghost predicate Valid()
      reads this, counts
    {
      Ascending(buckets) && Tallies(buckets, counts[..], seen) && count == |seen| && sum == Nanos(seen)
    }

    constructor (boundaries: seq<real>)
      ensures Valid() && seen == [] && multiset(buckets) == multiset(boundaries) && fresh(counts)
    {
      buckets := Sort(boundaries);
      counts := new nat[|Sort(boundaries)| + 1](i => 0);
      count, sum, seen := 0, 0, [];
      new;
      SortSorts(boundaries);
      forall k | 0 <= k <= |buckets| + 1
        ensures Sum(counts[..][..k]) == 0
      {
        SumZero(counts[..][..k]);
      }
      assert counts[..][..|buckets| + 1] == counts[..];
    }

    /** sort.SearchFloat64s */
    method Search(x: real) returns (i: nat)
      requires Ascending(buckets)
      ensures IsBucket(buckets, x, i)
    {
      i := 0;
      var j := |buckets|;
      while i < j
        invariant i <= j <= |buckets|
        invariant forall k :: 0 <= k < i ==> buckets[k] < x
        invariant forall k :: j <= k < |buckets| ==> x <= buckets[k]
      {
        var h := (i + j) / 2;
        if buckets[h] >= x {
          j := h;
        } else {
          i := h + 1;
        }
      }
    }

    method Observe(x: real)
      requires Valid()
      modifies this, counts
      ensures Valid() && seen == old(seen) + [x]
    {
      sum := sum + Trunc(x * 1000000000.0);
      count := count + 1;
      var idx := Search(x);
      ghost var was := counts[..];
      counts[idx] := counts[idx] + 1;
      assert counts[..] == was[idx := was[idx] + 1];
      ObserveTallies(buckets, was, seen, x, idx);
      assert (seen + [x])[..|seen|] == seen;
      seen := seen + [x];
    }

    /**
      The bucket lines: for each boundary the number of observations not above it, and for +Inf
      the number of all, which is also the count line; they never decrease. The sum line is the sum of
      the observations, to the nanosecond for each.
     */
    method Export() returns (lines: array<nat>, seconds: real, total: nat)
      requires Valid()
      ensures fresh(lines) && lines.Length == |buckets| + 1
      ensures forall k :: 0 <= k < |buckets| ==> lines[k] == AtMost(seen, buckets[k])
      ensures lines[|buckets|] == total == |seen|
      ensures -(|seen| as real) <= 1000000000.0 * (seconds - Total(seen)) <= |seen| as real
      ensures forall i, j :: 0 <= i < j < lines.Length ==> lines[i] <= lines[j]
    {
      ghost var c := counts[..];
      lines := new nat[counts.Length](i => 0);
      var cumSum := 0;
      for i := 0 to counts.Length
        invariant counts[..] == c && cumSum == Sum(c[..i])
        invariant forall k :: 0 <= k < i ==> lines[k] == Sum(c[..k + 1])
      {
        assert c[..i + 1][..i] == c[..i];
        cumSum := cumSum + counts[i];
        lines[i] := cumSum;
      }
      seconds, total := sum as real / 1000000000.0, count;
      NanosClose(seen);
      assert c[..|buckets| + 1] == c;
      forall i, j | 0 <= i < j < lines.Length
        ensures lines[i] <= lines[j]
      {
        AtMostMonotone(seen, buckets[i], if j < |buckets| then buckets[j] else buckets[i]);
      }
    }
  }
}
