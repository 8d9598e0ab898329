/** Sums and sizes over subsets of a pool, a subset being a mask over its indices. */
module MaskSums {

  type Mask = seq<bool>

  /** Sum of v over the indices below n that the mask keeps. */
  function Sum(v: seq<int>, mask: Mask, n: nat): int
    requires n <= |v| && n <= |mask|
  {
    if n == 0 then 0 else Sum(v, mask, n - 1) + if mask[n - 1] then v[n - 1] else 0
  }

  function Total(v: seq<int>, mask: Mask): int
    requires |v| == |mask|
  {
    Sum(v, mask, |v|)
  }

  function Everything(n: nat): Mask {
    seq(n, _ => true)
  }

  function Zeros(n: nat): seq<int> {
    seq(n, _ => 0)
  }

  /** Equal summands give equal sums. */
  lemma {:induction false} SumCongruent(v: seq<int>, u: seq<int>, p: Mask, q: Mask, n: nat)
    requires n <= |v| && n <= |u| && n <= |p| && n <= |q|
    requires forall i :: 0 <= i < n ==> (if p[i] then v[i] else 0) == if q[i] then u[i] else 0
    ensures Sum(v, p, n) == Sum(u, q, n)
  {
    if n > 0 {
      SumCongruent(v, u, p, q, n - 1);
    }
  }

  lemma {:induction false} SumMonotone(v: seq<int>, u: seq<int>, p: Mask, n: nat)
    requires n <= |v| && n <= |u| && n <= |p|
    requires forall i :: 0 <= i < n && p[i] ==> v[i] <= u[i]
    ensures Sum(v, p, n) <= Sum(u, p, n)
  {
    if n > 0 {
      SumMonotone(v, u, p, n - 1);
    }
  }

  lemma {:induction false} SumZeros(m: nat, p: Mask, n: nat)
    requires n <= m && n <= |p|
    ensures Sum(Zeros(m), p, n) == 0
  {
    if n > 0 {
      SumZeros(m, p, n - 1);
    }
  }

  /** If every summand of one side is at most the other's and the sums agree, so do the summands. */
  lemma {:induction false} SumTight(v: seq<int>, u: seq<int>, p: Mask, n: nat, i: nat)
    requires i < n <= |v| && n <= |u| && n <= |p| && p[i]
    requires forall k :: 0 <= k < n && p[k] ==> v[k] <= u[k]
    requires Sum(v, p, n) >= Sum(u, p, n)
    ensures v[i] == u[i]
  {
    if i == n - 1 {
      SumMonotone(v, u, p, n - 1);
    } else {
      SumTight(v, u, p, n - 1, i);
    }
  }

  function Size(q: Mask, n: nat): (s: nat)
    requires n <= |q|
    ensures s <= n
  {
    if n == 0 then 0 else Size(q, n - 1) + if q[n - 1] then 1 else 0
  }

  lemma {:induction false} SumNonNegative(v: seq<int>, p: Mask, n: nat)
    requires n <= |v| && n <= |p|
    requires forall i :: 0 <= i < n && p[i] ==> v[i] >= 0
    ensures Sum(v, p, n) >= 0
  {
    if n > 0 {
      SumNonNegative(v, p, n - 1);
    }
  }

  /** Sums, and sizes, of a set cut in two. */
  lemma {:induction false} SumSplit(v: seq<int>, p: Mask, q: Mask, r: Mask, n: nat)
    requires n <= |v| && n <= |p| && n <= |q| && n <= |r|
    requires forall i :: 0 <= i < n ==> (p[i] <==> q[i] || r[i]) && !(q[i] && r[i])
    ensures Sum(v, p, n) == Sum(v, q, n) + Sum(v, r, n)
    ensures Size(p, n) == Size(q, n) + Size(r, n)
  {
    if n > 0 {
      SumSplit(v, p, q, r, n - 1);
    }
  }

  lemma {:induction false} SumAtMost(v: seq<int>, p: Mask, n: nat, x: int)
    requires n <= |v| && n <= |p|
    requires forall i :: 0 <= i < n && p[i] ==> v[i] <= x
    ensures Sum(v, p, n) <= Size(p, n) * x
  {
    if n > 0 {
      SumAtMost(v, p, n - 1, x);
    }
  }

  function Only(n: nat, b: nat): (m: Mask)
    ensures |m| == n
  {
    seq(n, i => i == b)
  }

  lemma {:induction false} SumOnly(v: seq<int>, m: nat, b: nat, n: nat)
    requires n <= |v| && n <= m
    ensures Sum(v, Only(m, b), n) == if b < n then v[b] else 0
    ensures Size(Only(m, b), n) == if b < n then 1 else 0
  {
    if n > 0 {
      SumOnly(v, m, b, n - 1);
    }
  }

  lemma {:induction false} SizePositive(q: Mask, n: nat)
    requires n <= |q| && exists i :: 0 <= i < n && q[i]
    ensures Size(q, n) >= 1
  {
    if !q[n - 1] {
      SizePositive(q, n - 1);
    }
  }

  lemma {:induction false} SizeEverything(m: nat, n: nat)
    requires n <= m
    ensures Size(Everything(m), n) == n
  {
    if n > 0 {
      SizeEverything(m, n - 1);
    }
  }

  lemma {:induction false} SumOfRaised(c: seq<int>, w: seq<int>, raised: seq<int>, sel: Mask, n: nat)
    requires n <= |c| && n <= |w| && n <= |raised| && n <= |sel|
    requires forall j :: 0 <= j < n ==> raised[j] == c[j] + w[j]
    ensures Sum(raised, sel, n) == Sum(c, sel, n) + Sum(w, sel, n)
  {
    if n > 0 {
      SumOfRaised(c, w, raised, sel, n - 1);
    }
  }

  lemma {:induction false} SumAbove(v: seq<int>, p: Mask, n: nat, x: int)
    requires n <= |v| && n <= |p|
    requires forall i :: 0 <= i < n && p[i] ==> v[i] > x
    ensures Sum(v, p, n) >= Size(p, n) * x
    ensures Size(p, n) > 0 ==> Sum(v, p, n) > Size(p, n) * x
  {
    if n > 0 {
      SumAbove(v, p, n - 1, x);
      assert (Size(p, n - 1) + 1) * x == Size(p, n - 1) * x + x;
    }
  }

  lemma MulMonotone(k: int, x: int, y: int)
    requires k >= 0 && x <= y
    ensures k * x <= k * y
  {
  }

  lemma MulCancel(k: int, x: int, y: int)
    requires k > 0 && k * x <= k * y
    ensures x <= y
  {
    if y < x {
      MulMonotone(k, y + 1, x);
    }
  }
}
