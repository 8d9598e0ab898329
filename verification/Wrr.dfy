/**
  Smooth weighted round-robin (internal/balancer/wrr.go): one pick as a step on the current
  weights, and what holds over all runs of such steps.

  A pool of n backends is a sequence of weights; which of them may be picked at some
  moment is a mask over the same indices.
 */
module Wrr {
  import opened MaskSums

  // ---------------------------------------------------------------- one pick

  /** b is the first index below n whose raised weight is maximal among the selectable ones. */
  ghost predicate IsBest(w: seq<int>, sel: Mask, cur: seq<int>, n: nat, b: nat)
    requires n <= |w| && n <= |sel| && n <= |cur|
  {
    && b < n && sel[b]
    && (forall i :: 0 <= i < n && sel[i] ==> cur[i] + w[i] <= cur[b] + w[b])
    && (forall i :: 0 <= i < b && sel[i] ==> cur[i] + w[i] < cur[b] + w[b])
  }

  predicate AnyOf(sel: Mask) {
    exists i :: 0 <= i < |sel| && sel[i]
  }

  /** The backend a pick returns among the indices below n: the first one of maximal raised weight. */
  function Best(w: seq<int>, sel: Mask, cur: seq<int>, n: nat): (b: nat)
    requires n <= |w| && n <= |sel| && n <= |cur|
    requires exists i :: 0 <= i < n && sel[i]
    ensures b < n
  {
    if forall i | 0 <= i < n - 1 :: !sel[i] then n - 1
    else
      var b := Best(w, sel, cur, n - 1);
      if sel[n - 1] && cur[n - 1] + w[n - 1] > cur[b] + w[b] then n - 1 else b
  }

  function Winner(w: seq<int>, sel: Mask, cur: seq<int>): (b: nat)
    requires |w| == |sel| == |cur| && AnyOf(sel)
    ensures b < |w|
  {
    Best(w, sel, cur, |w|)
  }

  lemma {:induction false} BestIsBest(w: seq<int>, sel: Mask, cur: seq<int>, n: nat)
    requires n <= |w| && n <= |sel| && n <= |cur|
    requires exists i :: 0 <= i < n && sel[i]
    ensures IsBest(w, sel, cur, n, Best(w, sel, cur, n))
  {
    if !(forall i :: 0 <= i < n - 1 ==> !sel[i]) {
      BestIsBest(w, sel, cur, n - 1);
    }
  }

  /** The current weights after one pick; nothing selectable leaves them alone. */
  function Step(w: seq<int>, sel: Mask, cur: seq<int>): (next: seq<int>)
    requires |w| == |sel| == |cur|
    ensures |next| == |cur|
  {
    if !AnyOf(sel) then cur
    else
      var b, total := Winner(w, sel, cur), Total(w, sel);
      seq(|cur|, i requires 0 <= i < |cur| =>
            cur[i] + (if sel[i] then w[i] else 0) - if i == b then total else 0)
  }

  function And(p: Mask, q: Mask): (r: Mask)
    requires |p| == |q|
    ensures |r| == |p|
  {
    seq(|p|, i requires 0 <= i < |p| => p[i] && q[i])
  }

  /** What one pick does to the sum over any set q of backends. */
  lemma {:induction false} StepSum(w: seq<int>, sel: Mask, cur: seq<int>, q: Mask, n: nat)
    requires |w| == |sel| == |cur| == |q| && AnyOf(sel) && n <= |w|
    ensures Sum(Step(w, sel, cur), q, n)
         == Sum(cur, q, n) + Sum(w, And(q, sel), n)
            - if Winner(w, sel, cur) < n && q[Winner(w, sel, cur)] then Total(w, sel) else 0
  {
    if n > 0 {
      StepSum(w, sel, cur, q, n - 1);
    }
  }

  /** The sum over a set that holds every selectable backend does not change. */
  lemma StepConserves(w: seq<int>, sel: Mask, cur: seq<int>, q: Mask)
    requires |w| == |sel| == |cur| == |q|
    requires forall i :: 0 <= i < |w| && sel[i] ==> q[i]
    ensures Total(Step(w, sel, cur), q) == Total(cur, q)
  {
    if AnyOf(sel) {
      BestIsBest(w, sel, cur, |w|);
      StepSum(w, sel, cur, q, |w|);
      SumCongruent(w, w, And(q, sel), sel, |w|);
    }
  }

  // ---------------------------------------------------------------- runs with changing flags

  predicate Weights(w: seq<int>) {
    forall i :: 0 <= i < |w| ==> w[i] > 0
  }

  predicate Masks(masks: seq<Mask>, n: nat) {
    forall k :: 0 <= k < |masks| ==> |masks[k]| == n
  }

  /** Current weights after picks made under the given selectable sets, from the reset state. */
  function Run(w: seq<int>, masks: seq<Mask>): (cur: seq<int>)
    requires Masks(masks, |w|)
    ensures |cur| == |w|
  {
    if masks == [] then Zeros(|w|)
    else Step(w, masks[|masks| - 1], Run(w, masks[..|masks| - 1]))
  }

  /** Whatever the flags do between picks, the current weights always add up to zero. */
  lemma {:induction false} RunSumZero(w: seq<int>, masks: seq<Mask>)
    requires Masks(masks, |w|)
    ensures Total(Run(w, masks), Everything(|w|)) == 0
  {
    if masks == [] {
      SumZeros(|w|, Everything(|w|), |w|);
    } else {
      var before := masks[..|masks| - 1];
      RunSumZero(w, before);
      StepConserves(w, masks[|masks| - 1], Run(w, before), Everything(|w|));
    }
  }

  /**
    No set of backends can be driven far into debt: with total weight t, the current weights
    of any q of the n backends add up to at least -t*q*(n-q)/2.
   */
  ghost predicate DebtBounded(w: seq<int>, cur: seq<int>)
    requires |w| == |cur|
  {
    forall q: Mask :: |q| == |w| ==> SetDebtBounded(w, cur, q)
  }

  ghost predicate SetDebtBounded(w: seq<int>, cur: seq<int>, q: Mask)
    requires |w| == |cur| == |q|
  {
    2 * Total(cur, q) >= -Allowance(Total(w, Everything(|w|)), |w|, Size(q, |q|))
  }

  function Allowance(t: int, n: int, s: int): int {
    t * (s * (n - s))
  }

  /** Sizes of a set without its winner, with r more members, and as it is. */
  lemma DebtQuadratic(n: int, q: int, r: int)
    ensures r * ((q - 1) * (n - q + 1)) + (q + r) * (n - q - r) == (r + 1) * (q * (n - q)) - r * (r + 1)
  {
    var m := n - q;
    assert (q - 1) * (m + 1) == q * m + q - m - 1;
    assert r * (q * m + q - m - 1) == r * (q * m) + r * q - r * m - r;
    assert (q + r) * (m - r) == q * m - q * r + r * m - r * r;
  }

  lemma DebtScaled(r: int, x: int, ts: int, ta: int, s: int)
    requires r >= 1 && s >= 2 * x - 2 * ts - ta
    ensures r * s >= 2 * (r * x) - 2 * (r * ts) - r * ta
  {
    MulMonotone(r, 2 * x - 2 * ts - ta, s);
    assert r * (2 * x - 2 * ts - ta) == 2 * (r * x) - 2 * (r * ts) - r * ta;
  }

  lemma DebtFactored(t: int, r: int, a: int, b: int, c: int)
    requires r * a + b == (r + 1) * c - r * (r + 1)
    ensures r * (t * a) + t * b == (r + 1) * (t * c) - t * (r * (r + 1))
  {
    var ra, kc, rr := r * a, (r + 1) * c, r * (r + 1);
    assert r * (t * a) == t * ra;
    assert (r + 1) * (t * c) == t * kc;
    assert t * ra + t * b == t * (ra + b);
    assert t * (kc - rr) == t * kc - t * rr;
  }

  lemma DebtSpare(t: int, ts: int, r: int)
    requires r >= 1 && t >= ts >= 0
    ensures t * (r * (r + 1)) >= 2 * (r * ts)
  {
    var rr := r * (r + 1);
    assert rr >= 2 * r by { MulMonotone(r, 2, r + 1); }
    MulMonotone(t, 2 * r, rr);
    MulMonotone(r, ts, t);
    assert t * (2 * r) == 2 * (r * t);
  }

  lemma DebtLinear(rs: int, s: int, rx: int, rts: int, rta: int, tb: int, kc: int, spare: int)
    requires rs >= 2 * rx - 2 * rts - rta && s >= -tb - 2 * rx
    requires rta + tb == kc - spare && spare >= 2 * rts
    ensures rs + s >= -kc
  {
  }

  /** The arithmetic of the debt argument: two lower bounds on s that trade x against -r*x. */
  lemma DebtArithmetic(t: int, ts: int, a: int, b: int, c: int, r: int, x: int, s: int)
    requires r >= 1 && t >= ts >= 0
    requires r * a + b == (r + 1) * c - r * (r + 1)
    requires s >= 2 * x - 2 * ts - t * a
    requires s >= -(t * b) - 2 * (r * x)
    ensures s >= -(t * c)
  {
    var ta, tb, tc := t * a, t * b, t * c;
    assert (r + 1) * s >= (r + 1) * -tc by {
      DebtScaled(r, x, ts, ta, s);
      DebtFactored(t, r, a, b, c);
      DebtSpare(t, ts, r);
      DebtLinear(r * s, s, r * x, r * ts, r * ta, tb, (r + 1) * tc, t * (r * (r + 1)));
      assert (r + 1) * s == r * s + s;
      assert (r + 1) * -tc == -((r + 1) * tc);
    }
    MulCancel(r + 1, -tc, s);
  }

  /** One pick keeps the bound for a set q: the only hard case is a winner in q beating a loser outside it. */
  lemma StepDebt(w: seq<int>, sel: Mask, cur: seq<int>, q: Mask)
    requires |w| == |sel| == |cur| == |q| && Weights(w) && DebtBounded(w, cur)
    ensures SetDebtBounded(w, Step(w, sel, cur), q)
  {
    var n := |w|;
    assert SetDebtBounded(w, cur, q);
    if !AnyOf(sel) {
      return;
    }
    if !q[Winner(w, sel, cur)] {
      StepSum(w, sel, cur, q, n);
      SumNonNegative(w, And(q, sel), n);
    } else if forall i :: 0 <= i < n && sel[i] ==> q[i] {
      StepConserves(w, sel, cur, q);
    } else {
      StepDebtHard(w, sel, cur, q);
    }
  }

  lemma StepDebtHard(w: seq<int>, sel: Mask, cur: seq<int>, q: Mask)
    requires |w| == |sel| == |cur| == |q| && Weights(w) && DebtBounded(w, cur)
    requires AnyOf(sel) && q[Winner(w, sel, cur)]
    requires exists i :: 0 <= i < |w| && sel[i] && !q[i]
    ensures SetDebtBounded(w, Step(w, sel, cur), q)
  {
    var less, more, r, x := StepDebtFacts(w, sel, cur, q);
    assert SetDebtBounded(w, cur, less) && SetDebtBounded(w, cur, more);
    DebtCombine(Total(w, Everything(|w|)), Total(w, sel), |w|, Size(q, |q|), r, x,
                2 * Total(cur, less), 2 * Total(cur, more), r * x, 2 * Total(Step(w, sel, cur), q));
  }

  lemma DebtCombine(t: int, ts: int, n: int, q: int, r: int, x: int, less: int, more: int, rx: int, s: int)
    requires r >= 1 && t >= ts >= 0 && rx == r * x
    requires less >= -Allowance(t, n, q - 1) && s >= less + 2 * x - 2 * ts
    requires more >= -Allowance(t, n, q + r) && s >= more - 2 * rx
    ensures s >= -Allowance(t, n, q)
  {
    var a, b, c := (q - 1) * (n - q + 1), (q + r) * (n - q - r), q * (n - q);
    assert Allowance(t, n, q - 1) == t * a;
    assert Allowance(t, n, q + r) == t * b;
    DebtQuadratic(n, q, r);
    DebtArithmetic(t, ts, a, b, c, r, x, s);
  }

  /**
    For a winner inside q and some loser outside it: compare q with itself less the winner,
    and with itself plus all r selectable outsiders, none of which was raised above x.
   */
  lemma StepDebtFacts(w: seq<int>, sel: Mask, cur: seq<int>, q: Mask)
    returns (less: Mask, more: Mask, r: nat, x: int)
    requires |w| == |sel| == |cur| == |q| && Weights(w)
    requires AnyOf(sel) && q[Winner(w, sel, cur)]
    requires exists i :: 0 <= i < |w| && sel[i] && !q[i]
    ensures |less| == |more| == |w| && r >= 1
    ensures Size(less, |w|) == Size(q, |w|) - 1 && Size(more, |w|) == Size(q, |w|) + r
    ensures Total(Step(w, sel, cur), q) >= Total(cur, less) + x - Total(w, sel)
    ensures Total(Step(w, sel, cur), q) >= Total(cur, more) - r * x
    ensures Total(w, Everything(|w|)) >= Total(w, sel) >= 0
  {
    var n := |w|;
    var b, next := Winner(w, sel, cur), Step(w, sel, cur);
    BestIsBest(w, sel, cur, n);
    var rest := seq(n, i requires 0 <= i < n => sel[i] && !q[i]);
    less := seq(n, i requires 0 <= i < n => q[i] && i != b);
    more := seq(n, i requires 0 <= i < n => q[i] || sel[i]);
    r, x := Size(rest, n), cur[b] + w[b];
    assert Total(next, q) >= Total(cur, less) + x - Total(w, sel) && Size(less, n) == Size(q, n) - 1 by {
      SumSplit(next, q, less, Only(n, b), n);
      SumOnly(next, n, b, n);
      StepSum(w, sel, cur, less, n);
      SumNonNegative(w, And(less, sel), n);
    }
    assert Total(next, q) >= Total(cur, more) - r * x && Size(more, n) == Size(q, n) + r by {
      SumSplit(next, more, q, rest, n);
      SumAtMost(next, rest, n, x);
      StepConserves(w, sel, cur, more);
    }
    var loser :| 0 <= loser < n && sel[loser] && !q[loser];
    assert rest[loser];
    SizePositive(rest, n);
    var others := seq(n, i requires 0 <= i < n => !sel[i]);
    SumSplit(w, Everything(n), sel, others, n);
    SumNonNegative(w, others, n);
    SumNonNegative(w, sel, n);
  }

  lemma ResetDebt(w: seq<int>)
    requires Weights(w)
    ensures DebtBounded(w, Zeros(|w|))
  {
    SumNonNegative(w, Everything(|w|), |w|);
    forall q: Mask | |q| == |w| ensures SetDebtBounded(w, Zeros(|w|), q) {
      SumZeros(|w|, q, |w|);
      var s := Size(q, |q|);
      MulMonotone(Total(w, Everything(|w|)), 0, s * (|w| - s)) by { MulMonotone(s, 0, |w| - s); }
    }
  }

  lemma {:induction false} RunDebt(w: seq<int>, masks: seq<Mask>)
    requires Masks(masks, |w|) && Weights(w)
    ensures DebtBounded(w, Run(w, masks))
  {
    if masks == [] {
      ResetDebt(w);
    } else {
      var before, sel := masks[..|masks| - 1], masks[|masks| - 1];
      RunDebt(w, before);
      var cur := Run(w, before);
      forall q: Mask | |q| == |w| ensures SetDebtBounded(w, Step(w, sel, cur), q) {
        StepDebt(w, sel, cur, q);
      }
    }
  }

  /**
    However health, drain and circuit flags change between picks, no backend's current
    weight ever leaves [-t*(n-1)/2, t*(n-1)/2]: a backend that was unselectable for long
    neither owes nor is owed more than that.
   */
  lemma RunBounded(w: seq<int>, masks: seq<Mask>, i: nat)
    requires Masks(masks, |w|) && Weights(w) && i < |w|
    ensures -(Total(w, Everything(|w|)) * (|w| - 1)) <= 2 * Run(w, masks)[i] <= Total(w, Everything(|w|)) * (|w| - 1)
  {
    var n, cur := |w|, Run(w, masks);
    RunDebt(w, masks);
    RunSumZero(w, masks);
    var others := seq(n, k requires 0 <= k < n => k != i);
    SumOnly(cur, n, i, n);
    SumSplit(cur, Everything(n), Only(n, i), others, n);
    SizeEverything(n, n);
    assert SetDebtBounded(w, cur, Only(n, i)) && SetDebtBounded(w, cur, others);
    AllowanceOfOne(Total(w, Everything(n)), n);
  }

  lemma AllowanceOfOne(t: int, n: int)
    ensures Allowance(t, n, 1) == Allowance(t, n, n - 1) == t * (n - 1)
  {
  }

  // ---------------------------------------------------------------- runs with fixed flags

  /** Current weights after k picks under one selectable set. */
  function After(w: seq<int>, sel: Mask, k: nat): (cur: seq<int>)
    requires |w| == |sel|
    ensures |cur| == |w|
  {
    if k == 0 then Zeros(|w|) else Step(w, sel, After(w, sel, k - 1))
  }

  /** The backends returned by the first k picks, in order. */
  function Schedule(w: seq<int>, sel: Mask, k: nat): (picks: seq<nat>)
    requires |w| == |sel| && AnyOf(sel)
    ensures |picks| == k
  {
    if k == 0 then [] else Schedule(w, sel, k - 1) + [Winner(w, sel, After(w, sel, k - 1))]
  }

  /** How often x occurs in s. */
  function Count(s: seq<nat>, x: nat): nat {
    multiset(s)[x]
  }

  lemma CountAppend(s: seq<nat>, b: nat, x: nat)
    ensures Count(s + [b], x) == Count(s, x) + if b == x then 1 else 0
  {
  }

  lemma StepAt(w: seq<int>, sel: Mask, cur: seq<int>, i: nat)
    requires |w| == |sel| == |cur| && AnyOf(sel) && i < |w|
    ensures sel[i] ==>
              Step(w, sel, cur)[i] == cur[i] + w[i] - if Winner(w, sel, cur) == i then Total(w, sel) else 0
    ensures !sel[i] ==> Step(w, sel, cur)[i] == cur[i]
  {
    BestIsBest(w, sel, cur, |w|);
  }

  lemma LedgerEntry(k: int, v: int, t: int, p: int, c: int, p': int, c': int)
    requires c == k * v - p * t
    requires if p' == p then c' == c + v else p' == p + 1 && c' == c + v - t
    ensures c' == (k + 1) * v - p' * t
  {
    assert (k + 1) * v == k * v + v;
    assert (p + 1) * t == p * t + t;
  }

  /** One pick moves backend i's current weight and count together. */
  lemma PickRecorded(w: seq<int>, sel: Mask, k: nat, i: nat)
    requires |w| == |sel| && AnyOf(sel) && i < |w| && sel[i]
    ensures var p, p', c, c' := Count(Schedule(w, sel, k), i), Count(Schedule(w, sel, k + 1), i),
                                After(w, sel, k)[i], After(w, sel, k + 1)[i];
            if p' == p then c' == c + w[i] else p' == p + 1 && c' == c + w[i] - Total(w, sel)
  {
    StepAt(w, sel, After(w, sel, k), i);
    CountAppend(Schedule(w, sel, k), Winner(w, sel, After(w, sel, k)), i);
  }

  /** Accounts cs and counts ps that move together: each step adds v, each count costs t. */
  ghost predicate Booked(v: int, t: int, cs: seq<int>, ps: seq<int>) {
    && |cs| == |ps| > 0 && cs[0] == ps[0] == 0
    && forall j :: 0 <= j < |cs| - 1 ==> Booking(v, t, cs[j], ps[j], cs[j + 1], ps[j + 1])
  }

  ghost predicate Booking(v: int, t: int, c: int, p: int, c': int, p': int) {
    if p' == p then c' == c + v else p' == p + 1 && c' == c + v - t
  }

  lemma {:induction false} LedgerBalances(v: int, t: int, cs: seq<int>, ps: seq<int>, k: nat)
    requires Booked(v, t, cs, ps) && k < |cs|
    ensures cs[k] == k * v - ps[k] * t
  {
    if k > 0 {
      LedgerBalances(v, t, cs, ps, k - 1);
      assert Booking(v, t, cs[k - 1], ps[k - 1], cs[k - 1 + 1], ps[k - 1 + 1]);
      LedgerEntry(k - 1, v, t, ps[k - 1], cs[k - 1], ps[k], cs[k]);
    }
  }

  lemma BookedAppend(v: int, t: int, cs: seq<int>, ps: seq<int>, c: int, p: int)
    requires Booked(v, t, cs, ps) && Booking(v, t, cs[|cs| - 1], ps[|ps| - 1], c, p)
    ensures Booked(v, t, cs + [c], ps + [p])
  {
  }

  lemma {:induction false} History(w: seq<int>, sel: Mask, k: nat, i: nat) returns (cs: seq<int>, ps: seq<int>)
    requires |w| == |sel| && AnyOf(sel) && i < |w| && sel[i]
    ensures Booked(w[i], Total(w, sel), cs, ps)
    ensures |cs| == k + 1 && cs[k] == After(w, sel, k)[i] && ps[k] == Count(Schedule(w, sel, k), i)
  {
    if k == 0 {
      cs, ps := [0], [0];
    } else {
      cs, ps := History(w, sel, k - 1, i);
      var c, p := After(w, sel, k)[i], Count(Schedule(w, sel, k), i);
      assert Booking(w[i], Total(w, sel), cs[k - 1], ps[k - 1], c, p) by {
        PickRecorded(w, sel, k - 1, i);
      }
      BookedAppend(w[i], Total(w, sel), cs, ps, c, p);
      cs, ps := cs + [c], ps + [p];
    }
  }

  /** A backend's current weight is what it is due minus what it has been given. */
  lemma Ledger(w: seq<int>, sel: Mask, k: nat, i: nat)
    requires |w| == |sel| && AnyOf(sel) && i < |w| && sel[i]
    ensures After(w, sel, k)[i] == k * w[i] - Count(Schedule(w, sel, k), i) * Total(w, sel)
  {
    var cs, ps := History(w, sel, k, i);
    LedgerBalances(w[i], Total(w, sel), cs, ps, k);
  }

  lemma {:induction false} AfterSumZero(w: seq<int>, sel: Mask, k: nat)
    requires |w| == |sel|
    ensures Total(After(w, sel, k), sel) == 0
  {
    if k == 0 {
      SumZeros(|w|, sel, |w|);
    } else {
      AfterSumZero(w, sel, k - 1);
      StepConserves(w, sel, After(w, sel, k - 1), sel);
    }
  }

  /** When the selectable weights add up to zero, the winner's raised weight is positive. */
  lemma WinnerRaised(w: seq<int>, sel: Mask, cur: seq<int>)
    requires |w| == |sel| == |cur| && AnyOf(sel) && Weights(w) && Total(cur, sel) == 0
    ensures var b := Winner(w, sel, cur); cur[b] + w[b] > 0
  {
    var b := Winner(w, sel, cur);
    BestIsBest(w, sel, cur, |w|);
    var raised := seq(|w|, j requires 0 <= j < |w| => cur[j] + w[j]);
    SumOfRaised(cur, w, raised, sel, |w|);
    TotalPositive(w, sel);
    if raised[b] <= 0 {
      SumAtMost(raised, sel, |w|, 0);
    }
  }

  /** Under a fixed selectable set of total weight T, every current weight stays above -T. */
  lemma {:induction false} AfterAboveMinusTotal(w: seq<int>, sel: Mask, k: nat, i: nat)
    requires |w| == |sel| && AnyOf(sel) && Weights(w) && i < |w|
    ensures After(w, sel, k)[i] > -Total(w, sel)
  {
    TotalPositive(w, sel);
    if k > 0 {
      var cur := After(w, sel, k - 1);
      AfterAboveMinusTotal(w, sel, k - 1, i);
      AfterSumZero(w, sel, k - 1);
      WinnerRaised(w, sel, cur);
      StepAt(w, sel, cur, i);
    }
  }

  lemma TotalPositive(w: seq<int>, sel: Mask)
    requires |w| == |sel| && AnyOf(sel) && Weights(w)
    ensures Total(w, sel) > 0
  {
    var i :| 0 <= i < |w| && sel[i];
    SumSplit(w, sel, Only(|w|, i), seq(|w|, j requires 0 <= j < |w| => sel[j] && j != i), |w|);
    SumOnly(w, |w|, i, |w|);
    SumNonNegative(w, seq(|w|, j requires 0 <= j < |w| => sel[j] && j != i), |w|);
  }

  function Counts(s: seq<nat>, n: nat): (counts: seq<int>)
    ensures |counts| == n
  {
    seq(n, i requires 0 <= i < n => Count(s, i) as int)
  }

  /** A sequence of selectable backends has as many entries as its counts add up to. */
  lemma {:induction false} CountsAddUp(s: seq<nat>, sel: Mask)
    requires forall k :: 0 <= k < |s| ==> s[k] < |sel| && sel[s[k]]
    ensures Total(Counts(s, |sel|), sel) == |s|
  {
    var n := |sel|;
    if s == [] {
      SumCongruent(Counts(s, n), Zeros(n), sel, sel, n);
      SumZeros(n, sel, n);
    } else {
      var init, b := s[..|s| - 1], s[|s| - 1];
      assert s == init + [b];
      CountsAddUp(init, sel);
      var one := seq(n, i requires 0 <= i < n => if i == b then 1 else 0);
      forall i | 0 <= i < n ensures Counts(s, n)[i] == Counts(init, n)[i] + one[i] {
        CountAppend(init, b, i);
      }
      SumOfRaised(Counts(init, n), one, Counts(s, n), sel, n);
      SumCongruent(one, seq(n, _ => 1), sel, Only(n, b), n);
      SumOnly(seq(n, _ => 1), n, b, n);
    }
  }

  lemma {:induction false} ScheduleSelectable(w: seq<int>, sel: Mask, k: nat)
    requires |w| == |sel| && AnyOf(sel)
    ensures forall j :: 0 <= j < k ==> Schedule(w, sel, k)[j] < |sel| && sel[Schedule(w, sel, k)[j]]
  {
    if k > 0 {
      ScheduleSelectable(w, sel, k - 1);
      BestIsBest(w, sel, After(w, sel, k - 1), |w|);
    }
  }

  lemma AtMostShare(t: int, v: int, c: int)
    requires t > 0 && t * v - c * t > -t
    ensures c <= v
  {
    if c > v {
      MulMonotone(t, v + 1, c);
    }
  }

  /** The first T picks already give every selectable backend exactly its weight. */
  lemma FirstRoundExact(w: seq<int>, sel: Mask, t: nat, i: nat)
    requires |w| == |sel| && AnyOf(sel) && Weights(w) && t == Total(w, sel) && i < |w| && sel[i]
    ensures Count(Schedule(w, sel, t), i) == w[i]
  {
    TotalPositive(w, sel);
    var counts := Counts(Schedule(w, sel, t), |w|);
    ScheduleSelectable(w, sel, t);
    CountsAddUp(Schedule(w, sel, t), sel);
    forall j | 0 <= j < |w| && sel[j] ensures counts[j] <= w[j] {
      Ledger(w, sel, t, j);
      AfterAboveMinusTotal(w, sel, t, j);
      AtMostShare(t, w[j], counts[j]);
    }
    SumTight(counts, w, sel, |w|, i);
  }

  lemma {:induction false} Untouched(w: seq<int>, sel: Mask, k: nat, i: nat)
    requires |w| == |sel| && AnyOf(sel) && i < |w| && !sel[i]
    ensures After(w, sel, k)[i] == 0
  {
    if k > 0 {
      Untouched(w, sel, k - 1, i);
      StepAt(w, sel, After(w, sel, k - 1), i);
    }
  }

  /** After T picks every current weight is zero again: the balancer is back in its reset state. */
  lemma RoundResets(w: seq<int>, sel: Mask, t: nat)
    requires |w| == |sel| && AnyOf(sel) && Weights(w) && t == Total(w, sel)
    ensures After(w, sel, t) == Zeros(|w|)
  {
    forall i | 0 <= i < |w| ensures After(w, sel, t)[i] == 0 {
      if sel[i] {
        FirstRoundExact(w, sel, t, i);
        Ledger(w, sel, t, i);
      } else {
        Untouched(w, sel, t, i);
      }
    }
  }

  lemma {:induction false} Periodic(w: seq<int>, sel: Mask, t: nat, k: nat)
    requires |w| == |sel| && AnyOf(sel) && Weights(w) && t == Total(w, sel)
    ensures After(w, sel, k + t) == After(w, sel, k)
  {
    if k == 0 {
      RoundResets(w, sel, t);
    } else {
      Periodic(w, sel, t, k - 1);
      assert k + t - 1 == (k - 1) + t;
    }
  }

  lemma {:induction false} SchedulePrefix(w: seq<int>, sel: Mask, k: nat, m: nat)
    requires |w| == |sel| && AnyOf(sel) && k <= m
    ensures Schedule(w, sel, m)[..k] == Schedule(w, sel, k)
  {
    if k < m {
      SchedulePrefix(w, sel, k, m - 1);
      assert Schedule(w, sel, m)[..k] == Schedule(w, sel, m - 1)[..k];
    }
  }

  lemma CountSplit(s: seq<nat>, lo: nat, x: nat)
    requires lo <= |s|
    ensures Count(s, x) == Count(s[..lo], x) + Count(s[lo..], x)
  {
    assert s == s[..lo] + s[lo..];
  }

  lemma WindowCount(w: seq<int>, sel: Mask, lo: nat, t: nat, i: nat) returns (a: nat, b: nat)
    requires |w| == |sel| && AnyOf(sel)
    ensures a == Count(Schedule(w, sel, lo), i) && b == Count(Schedule(w, sel, lo + t)[lo..], i)
    ensures Count(Schedule(w, sel, lo + t), i) == a + b
  {
    SchedulePrefix(w, sel, lo, lo + t);
    CountSplit(Schedule(w, sel, lo + t), lo, i);
    a, b := Count(Schedule(w, sel, lo), i), Count(Schedule(w, sel, lo + t)[lo..], i);
  }

  lemma SameLedger(lo: int, t: int, v: int, a: int, b: int, ab: int, c: int)
    requires t > 0 && ab == a + b && c == (lo + t) * v - ab * t && c == lo * v - a * t
    ensures b == v
  {
    assert (lo + t) * v == lo * v + t * v;
    assert (a + b) * t == a * t + b * t;
    MulCancel(t, b, v);
    MulCancel(t, v, b);
  }

  /**
    Exact proportionality: any T consecutive picks, wherever the window starts, return each
    selectable backend exactly as often as its weight says.
   */
  lemma WindowExact(w: seq<int>, sel: Mask, t: nat, lo: nat, i: nat)
    requires |w| == |sel| && AnyOf(sel) && Weights(w) && t == Total(w, sel) && i < |w| && sel[i]
    ensures Count(Schedule(w, sel, lo + t)[lo..], i) == w[i]
  {
    var a, b := WindowCount(w, sel, lo, t, i);
    var ab, c := RoundLedger(w, sel, t, lo, i);
    TotalPositive(w, sel);
    SameLedger(lo, t, w[i], a, b, ab, c);
  }

  lemma LedgerAt(w: seq<int>, sel: Mask, k: nat, i: nat) returns (p: nat, c: int)
    requires |w| == |sel| && AnyOf(sel) && i < |w| && sel[i]
    ensures p == Count(Schedule(w, sel, k), i) && c == After(w, sel, k)[i]
    ensures c == k * w[i] - p * Total(w, sel)
  {
    p, c := Count(Schedule(w, sel, k), i), After(w, sel, k)[i];
    Ledger(w, sel, k, i);
  }

  lemma RoundLedger(w: seq<int>, sel: Mask, t: nat, lo: nat, i: nat) returns (ab: nat, c: int)
    requires |w| == |sel| && AnyOf(sel) && Weights(w) && t == Total(w, sel) && i < |w| && sel[i]
    ensures ab == Count(Schedule(w, sel, lo + t), i)
    ensures c == (lo + t) * w[i] - ab * t && c == lo * w[i] - Count(Schedule(w, sel, lo), i) * t
  {
    ab, c := LedgerAt(w, sel, lo + t, i);
    var a, c0 := LedgerAt(w, sel, lo, i);
    Periodic(w, sel, t, lo);
  }

  /**
    Smoothness: after any number k of picks, a backend of weight v among m selectable ones
    of total weight T has been returned fewer than k*v/T + 1 times and, for m > 1, more than
    k*v/T - (m - 1) times (both multiplied out by T).
   */
  lemma Smooth(w: seq<int>, sel: Mask, k: nat, i: nat)
    requires |w| == |sel| && AnyOf(sel) && Weights(w) && i < |w| && sel[i]
    ensures var given, t := Count(Schedule(w, sel, k), i) * Total(w, sel), Total(w, sel);
            && given < k * w[i] + t
            && (Size(sel, |w|) > 1 ==> given > k * w[i] - (Size(sel, |w|) - 1) * t)
  {
    var n, t, cur := |w|, Total(w, sel), After(w, sel, k);
    Ledger(w, sel, k, i);
    forall j | 0 <= j < n ensures cur[j] > -t { AfterAboveMinusTotal(w, sel, k, j); }
    var others := seq(n, j requires 0 <= j < n => sel[j] && j != i);
    AfterSumZero(w, sel, k);
    SumSplit(cur, sel, Only(n, i), others, n);
    SumOnly(cur, n, i, n);
    SumAbove(cur, others, n, -t);
    NegatedProduct(Size(others, n), t);
  }

  lemma NegatedProduct(x: int, y: int)
    ensures x * -y == -(x * y)
  {
  }
}
