/** The WeightedRoundRobin balancer (internal/balancer/wrr.go), refining the steps of module Wrr. */
module WrrBalancer {
  import opened Backend
  import opened MaskSums
  import opened Wrr

  /** math.MinInt on a 64-bit platform: what Pick starts its search for the maximum from. */
  const MIN_INT := -0x8000_0000_0000_0000

  /** No weight raised by a pick sinks to the sentinel Pick starts from. */
  ghost predicate AboveSentinel(w: seq<int>, cur: seq<int>)
    requires |w| == |cur|
  {
    forall i :: 0 <= i < |w| ==> cur[i] + w[i] > MIN_INT
  }

  /** The sentinel is safe in every run whose total weight times pool size fits a machine word. */
  lemma RunAboveSentinel(w: seq<int>, masks: seq<Mask>)
    requires Masks(masks, |w|) && Weights(w)
    requires Total(w, Everything(|w|)) * (|w| - 1) <= -2 * MIN_INT
    ensures AboveSentinel(w, Run(w, masks))
  {
    forall i | 0 <= i < |w| ensures Run(w, masks)[i] + w[i] > MIN_INT {
      RunBounded(w, masks, i);
    }
  }

  /** Some candidate among the first n is raised above the sentinel. */
  ghost predicate AnyAbove(w: seq<int>, sel: Mask, cur: seq<int>, n: nat)
    requires |w| == |sel| == |cur| && n <= |w|
  {
    exists i :: 0 <= i < n && sel[i] && cur[i] + w[i] > MIN_INT
  }

  datatype Candidate = Candidate(idx: nat, weight: int)

  class WeightedRoundRobin {
    var backends: seq<Server>
    var currentWeights: array<int>
    var totalWeight: int

    ghost predicate Valid()
      reads this
    {
      currentWeights.Length == |backends|
    }

    function WeightsOf(): (w: seq<int>)
      reads this
      ensures |w| == |backends|
    {
      seq(|backends|, i requires 0 <= i < |backends| reads this => backends[i].weight)
    }

    /** Which backends are healthy, not draining, and not cut off by their circuit breaker. */
    ghost function Eligible(): (sel: Mask)
      reads this, backends
      ensures |sel| == |backends|
      ensures forall i :: 0 <= i < |sel| ==>
                            sel[i] == (backends[i].healthy && !backends[i].draining && !backends[i].circuitOpen)
    {
      seq(|backends|, i requires 0 <= i < |backends| reads this, backends =>
        backends[i].healthy && !backends[i].draining && !backends[i].circuitOpen)
    }

    constructor (backends: seq<Server>)
      ensures Valid() && fresh(currentWeights) && this.backends == backends
      ensures currentWeights[..] == Zeros(|backends|)
      ensures totalWeight == Total(WeightsOf(), Everything(|backends|))
    {
      this.backends := backends;
      currentWeights := new int[|backends|];
      totalWeight := 0;
      new;
      RebuildWeights();
    }

    method RebuildWeights()
      modifies this`currentWeights, this`totalWeight
      ensures Valid() && fresh(currentWeights)
      ensures currentWeights[..] == Zeros(|backends|)
      ensures totalWeight == Total(WeightsOf(), Everything(|backends|))
    {
      totalWeight := 0;
      currentWeights := new int[|backends|];
      ghost var w := WeightsOf();
      for i := 0 to |backends|
        invariant Valid() && fresh(currentWeights) && WeightsOf() == w
        invariant totalWeight == Sum(w, Everything(|backends|), i)
        invariant forall k :: 0 <= k < i ==> currentWeights[k] == 0
      {
        totalWeight := totalWeight + backends[i].weight;
        currentWeights[i] := 0;
      }
    }

    /** Replacing the backends starts again from the reset state. */
    method UpdateBackends(backends: seq<Server>)
      modifies this
      ensures Valid() && fresh(currentWeights) && this.backends == backends
      ensures currentWeights[..] == Zeros(|backends|)
      ensures totalWeight == Total(WeightsOf(), Everything(|backends|))
    {
      this.backends := backends;
      RebuildWeights();
    }

    method Candidates() returns (healthy: seq<Candidate>, healthyTotal: int)
      ensures healthyTotal == Total(WeightsOf(), Eligible())
      ensures Lists(healthy, WeightsOf(), Eligible(), |backends|)
      ensures forall c :: c in healthy ==> c.idx < |backends| && c.weight == backends[c.idx].weight
      ensures forall i: nat :: i < |backends| ==>
                (Candidate(i, backends[i].weight) in healthy
                 <==> backends[i].healthy && !backends[i].draining && !backends[i].circuitOpen)
    {
      healthy, healthyTotal := [], 0;
      ghost var w, sel := WeightsOf(), Eligible();
      for i := 0 to |backends|
        invariant healthyTotal == Sum(w, sel, i)
        invariant Lists(healthy, w, sel, i)
      {
        if backends[i].Selectable() {
          assert (healthy + [Candidate(i, w[i])])[..|healthy|] == healthy;
          healthy := healthy + [Candidate(i, backends[i].weight)];
          healthyTotal := healthyTotal + backends[i].weight;
        }
      }
      ListsAll(healthy, w, sel, |backends|);
    }

    /** Raises every candidate in place and finds the first of maximal raised weight. */
    method RaiseAndSearch(healthy: seq<Candidate>, ghost w: seq<int>, ghost sel: Mask) returns (bestIdx: nat)
      requires Valid() && |w| == |sel| == |backends|
      requires Lists(healthy, w, sel, |backends|) && healthy != []
      modifies currentWeights
      ensures bestIdx < |backends|
      ensures if AnyAbove(w, sel, old(currentWeights[..]), |backends|)
              then IsBest(w, sel, old(currentWeights[..]), |backends|, bestIdx) else bestIdx == 0
      ensures RaisedBelow(currentWeights[..], w, sel, old(currentWeights[..]), |backends|)
    {
      ghost var cur, n := currentWeights[..], |backends|;
      assert n > 0;
      bestIdx := 0;
      var bestWeight := MIN_INT;
      ListsPrefix(healthy, w, sel, n, 0);
      assert healthy[..0] == [];
      SearchStart(w, sel, cur, Next(healthy, 0, n));
      hide AnyAbove, IsBest;
      for k := 0 to |healthy|
        invariant Next(healthy, k, n) <= n && Lists(healthy[..k], w, sel, Next(healthy, k, n))
        invariant RaisedBelow(currentWeights[..], w, sel, cur, Next(healthy, k, n))
        invariant bestIdx < n && Searched(w, sel, cur, Next(healthy, k, n), bestIdx, bestWeight)
      {
        ListsPrefix(healthy, w, sel, n, k);
        ListsPrefix(healthy, w, sel, n, k + 1);
        assert healthy[..k + 1][..k] == healthy[..k];
        var c := healthy[k];
        ghost var before, next := currentWeights[..], Next(healthy, k + 1, n);
        RaiseNext(before, w, sel, cur, c.idx, next);
        SearchNext(w, sel, cur, c.idx, next, bestIdx, bestWeight);
        currentWeights[c.idx] := currentWeights[c.idx] + c.weight;
        assert currentWeights[..] == before[c.idx := cur[c.idx] + w[c.idx]];
        if currentWeights[c.idx] > bestWeight {
          bestWeight, bestIdx := currentWeights[c.idx], c.idx;
        }
      }
    }

    /** Charges the best raised candidate with the total weight of all candidates. */
    method ChargeBest(healthy: seq<Candidate>, healthyTotal: int, ghost w: seq<int>, ghost sel: Mask)
      returns (bestIdx: nat)
      requires Valid() && |w| == |sel| == |backends| && healthyTotal == Total(w, sel)
      requires Lists(healthy, w, sel, |backends|) && healthy != []
      modifies currentWeights
      ensures AnyOf(sel) && Charged(currentWeights[..], w, sel, old(currentWeights[..]), bestIdx)
      ensures if AnyAbove(w, sel, old(currentWeights[..]), |backends|)
              then bestIdx == Winner(w, sel, old(currentWeights[..])) else bestIdx == 0
      ensures AnyAbove(w, sel, old(currentWeights[..]), |backends|) ==>
                currentWeights[..] == Step(w, sel, old(currentWeights[..]))
    {
      ghost var cur := currentWeights[..];
      bestIdx := RaiseAndSearch(healthy, w, sel);
      ghost var raised := currentWeights[..];
      if AnyAbove(w, sel, cur, |w|) {
        StepFromBest(w, sel, cur, bestIdx, raised);
      }
      currentWeights[bestIdx] := currentWeights[bestIdx] - healthyTotal;
      ghost var now := currentWeights[..];
      assert now == raised[bestIdx := raised[bestIdx] - healthyTotal];
      assert now[bestIdx := now[bestIdx] + healthyTotal] == raised;
    }

    /**
      Pick, with its shortcut for a single candidate and its in-place search, is one step
      of the smooth algorithm: it fails exactly when nothing is selectable, and otherwise
      returns the winner and leaves the stepped weights behind. Only if the raised weights of several
      candidates have all sunk to the sentinel is the first backend returned and charged instead.
     */
    method Pick() returns (r: Option<Server>)
      requires Valid()
      modifies currentWeights
      ensures r.None? <==> forall b :: b in backends ==> !b.healthy || b.draining || b.circuitOpen
      ensures r.None? ==> currentWeights[..] == old(currentWeights[..])
      ensures r.Some? ==> AnyOf(Eligible())
      ensures r.Some? ==>
                var b := Chosen(WeightsOf(), Eligible(), old(currentWeights[..]));
                && r.value == backends[b]
                && Charged(currentWeights[..], WeightsOf(), Eligible(), old(currentWeights[..]), b)
      ensures AboveSentinel(WeightsOf(), old(currentWeights[..])) ==>
                && (r.Some? ==> r.value == backends[Winner(WeightsOf(), Eligible(), old(currentWeights[..]))])
                && (r.Some? ==> r.value.healthy && !r.value.draining && !r.value.circuitOpen)
                && currentWeights[..] == Step(WeightsOf(), Eligible(), old(currentWeights[..]))
    {
      AnyFlags(backends, Eligible());
      hide AnyAbove, Lone, AboveSentinel, Charged, Step, AnyOf, Chosen, Winner;
      var n := |backends|;
      if n == 0 {
        return None;
      }
      var healthy, healthyTotal := Candidates();
      if |healthy| == 0 {
        NoneListed(WeightsOf(), Eligible());
        return None;
      }
      var bestIdx := ChooseFrom(healthy, healthyTotal);
      return Some(backends[bestIdx]);
    }

    /** The shortcut for a single candidate, or the search. */
    method ChooseFrom(healthy: seq<Candidate>, healthyTotal: int) returns (bestIdx: nat)
      requires Valid() && healthy != [] && Lists(healthy, WeightsOf(), Eligible(), |backends|)
      requires healthyTotal == Total(WeightsOf(), Eligible())
      modifies currentWeights
      ensures AnyOf(Eligible()) && bestIdx == Chosen(WeightsOf(), Eligible(), old(currentWeights[..]))
      ensures Charged(currentWeights[..], WeightsOf(), Eligible(), old(currentWeights[..]), bestIdx)
      ensures AboveSentinel(WeightsOf(), old(currentWeights[..])) ==>
                && bestIdx == Winner(WeightsOf(), Eligible(), old(currentWeights[..])) && Eligible()[bestIdx]
                && currentWeights[..] == Step(WeightsOf(), Eligible(), old(currentWeights[..]))
    {
      ghost var w, sel, cur := WeightsOf(), Eligible(), currentWeights[..];
      hide AnyAbove, Lone, AboveSentinel, Charged, Step;
      if |healthy| == 1 {
        OneListed(healthy, w, sel);
        LoneCandidate(w, sel, cur, healthy[0].idx);
        WinnerIn(w, sel, cur);
        return healthy[0].idx;
      }
      SeveralCandidates(healthy, w, sel);
      bestIdx := ChargeBest(healthy, healthyTotal, w, sel);
      if AboveSentinel(w, cur) {
        SomeAbove(w, sel, cur);
        WinnerIn(w, sel, cur);
      }
    }
  }

  /** Every candidate raised by its weight, and then b charged with the total of all candidates. */
  ghost predicate Charged(now: seq<int>, w: seq<int>, sel: Mask, cur: seq<int>, b: nat)
    requires |w| == |sel| == |cur|
  {
    b < |now| == |w| && RaisedBelow(now[b := now[b] + Total(w, sel)], w, sel, cur, |w|)
  }

  ghost predicate NoneIn(sel: Mask, lo: nat, hi: nat) {
    forall i :: lo <= i < hi && i < |sel| ==> !sel[i]
  }

  /** The candidates are exactly the selectable indices below n, in order, with their weights. */
  ghost predicate Lists(healthy: seq<Candidate>, w: seq<int>, sel: Mask, n: nat)
    requires n <= |w| == |sel|
  {
    if healthy == [] then NoneIn(sel, 0, n)
    else
      var c := healthy[|healthy| - 1];
      && c.idx < n && sel[c.idx] && c.weight == w[c.idx]
      && NoneIn(sel, c.idx + 1, n)
      && Lists(healthy[..|healthy| - 1], w, sel, c.idx)
  }

  lemma {:induction false} ListsAll(healthy: seq<Candidate>, w: seq<int>, sel: Mask, n: nat)
    requires n <= |w| == |sel| && Lists(healthy, w, sel, n)
    ensures forall c :: c in healthy ==> c.idx < n && c.weight == w[c.idx]
    ensures forall i: nat :: i < n ==> (Candidate(i, w[i]) in healthy <==> sel[i])
  {
    if healthy != [] {
      var init, last := healthy[..|healthy| - 1], healthy[|healthy| - 1];
      ListsAll(init, w, sel, last.idx);
      assert healthy == init + [last];
    }
  }

  /** Everything selectable below this index has been raised once k candidates are done. */
  ghost function Next(healthy: seq<Candidate>, k: nat, n: nat): nat {
    if k < |healthy| then healthy[k].idx else n
  }

  lemma {:induction false} ListsPrefix(healthy: seq<Candidate>, w: seq<int>, sel: Mask, n: nat, k: nat)
    requires n <= |w| == |sel| && Lists(healthy, w, sel, n) && k <= |healthy|
    ensures Next(healthy, k, n) <= n && Lists(healthy[..k], w, sel, Next(healthy, k, n))
  {
    if k == |healthy| {
      assert healthy[..k] == healthy;
    } else {
      var init, c := healthy[..|healthy| - 1], healthy[|healthy| - 1];
      ListsPrefix(init, w, sel, c.idx, k);
      assert init[..k] == healthy[..k];
      assert Next(init, k, c.idx) == Next(healthy, k, n);
    }
  }

  /** s is cur with the selectable weights below m raised. */
  ghost predicate RaisedBelow(s: seq<int>, w: seq<int>, sel: Mask, cur: seq<int>, m: nat)
    requires |w| == |sel| == |cur|
  {
    |s| == |w| && forall i :: 0 <= i < |w| ==> s[i] == cur[i] + if sel[i] && i < m then w[i] else 0
  }

  lemma RaiseNext(s: seq<int>, w: seq<int>, sel: Mask, cur: seq<int>, m: nat, next: nat)
    requires |w| == |sel| == |cur| && RaisedBelow(s, w, sel, cur, m)
    requires m < next <= |w| && sel[m] && NoneIn(sel, m + 1, next)
    ensures s[m] == cur[m] && RaisedBelow(s[m := cur[m] + w[m]], w, sel, cur, next)
  {
  }

  /** The search below m: the best candidate and its raised weight, unless all have sunk to the sentinel. */
  ghost predicate Searched(w: seq<int>, sel: Mask, cur: seq<int>, m: nat, b: nat, best: int)
    requires |w| == |sel| == |cur| && m <= |w|
  {
    if AnyAbove(w, sel, cur, m) then IsBest(w, sel, cur, m, b) && best == cur[b] + w[b] else b == 0 && best == MIN_INT
  }

  lemma SearchStart(w: seq<int>, sel: Mask, cur: seq<int>, m: nat)
    requires |w| == |sel| == |cur| && m <= |w| && NoneIn(sel, 0, m)
    ensures Searched(w, sel, cur, m, 0, MIN_INT)
  {
  }

  /** What was found below m, and the candidate at m, give what is found below next. */
  lemma SearchNext(w: seq<int>, sel: Mask, cur: seq<int>, m: nat, next: nat, b: nat, best: int)
    requires |w| == |sel| == |cur| && m < next <= |w| && sel[m] && NoneIn(sel, m + 1, next)
    requires Searched(w, sel, cur, m, b, best)
    ensures var raised := cur[m] + w[m];
            if raised > best then Searched(w, sel, cur, next, m, raised) else Searched(w, sel, cur, next, b, best)
  {
    if AnyAbove(w, sel, cur, m) {
      assert AnyAbove(w, sel, cur, next);
    } else if cur[m] + w[m] > MIN_INT {
      assert AnyAbove(w, sel, cur, next);
    }
  }

  /** The only candidate. */
  ghost predicate Lone(sel: Mask, b: nat) {
    b < |sel| && sel[b] && NoneIn(sel, 0, b) && NoneIn(sel, b + 1, |sel|)
  }

  /** The backend a pick returns and charges. */
  ghost function Chosen(w: seq<int>, sel: Mask, cur: seq<int>): (b: nat)
    requires |w| == |sel| == |cur| && AnyOf(sel)
    ensures b < |w|
  {
    if AnyAbove(w, sel, cur, |w|) || exists b :: Lone(sel, b) then Winner(w, sel, cur) else 0
  }

  lemma SomeAbove(w: seq<int>, sel: Mask, cur: seq<int>)
    requires |w| == |sel| == |cur| && AnyOf(sel) && AboveSentinel(w, cur)
    ensures AnyAbove(w, sel, cur, |w|)
  {
  }

  lemma WinnerIn(w: seq<int>, sel: Mask, cur: seq<int>)
    requires |w| == |sel| == |cur| && AnyOf(sel)
    ensures sel[Winner(w, sel, cur)]
  {
    BestIsBest(w, sel, cur, |w|);
  }

  lemma OneListed(healthy: seq<Candidate>, w: seq<int>, sel: Mask)
    requires |w| == |sel| && Lists(healthy, w, sel, |w|) && |healthy| == 1
    ensures Lone(sel, healthy[0].idx)
  {
    assert healthy[..0] == [];
  }

  lemma NoneListed(w: seq<int>, sel: Mask)
    requires |w| == |sel| && Lists([], w, sel, |w|)
    ensures !AnyOf(sel)
    ensures forall cur: seq<int> :: |cur| == |w| ==> Step(w, sel, cur) == cur
  {
  }

  lemma AnyFlags(backends: seq<Server>, sel: Mask)
    requires |sel| == |backends|
    requires forall i :: 0 <= i < |sel| ==>
                           sel[i] == (backends[i].healthy && !backends[i].draining && !backends[i].circuitOpen)
    ensures !AnyOf(sel) <==> forall b :: b in backends ==> !b.healthy || b.draining || b.circuitOpen
  {
  }

  lemma LoneCandidate(w: seq<int>, sel: Mask, cur: seq<int>, b: nat)
    requires |w| == |sel| == |cur| && Lone(sel, b)
    ensures AnyOf(sel) && Chosen(w, sel, cur) == Winner(w, sel, cur) == b
    ensures Step(w, sel, cur) == cur && Charged(cur, w, sel, cur, b)
  {
    SingleCandidate(w, sel, cur, b);
    SingleCharged(w, sel, cur, b);
  }

  lemma SeveralCandidates(healthy: seq<Candidate>, w: seq<int>, sel: Mask)
    requires |w| == |sel| && Lists(healthy, w, sel, |w|) && |healthy| >= 2
    ensures forall b :: !Lone(sel, b)
  {
    var last, before := healthy[|healthy| - 1], healthy[..|healthy| - 1];
    assert before[|before| - 1].idx < last.idx && sel[before[|before| - 1].idx];
  }

  /** Raising the selectable weights and charging the best one is a step. */
  lemma StepFromBest(w: seq<int>, sel: Mask, cur: seq<int>, b: nat, raised: seq<int>)
    requires |w| == |sel| == |cur| && IsBest(w, sel, cur, |w|, b) && RaisedBelow(raised, w, sel, cur, |w|)
    ensures AnyOf(sel) && b == Winner(w, sel, cur)
    ensures raised[b := raised[b] - Total(w, sel)] == Step(w, sel, cur)
  {
    BestIsBest(w, sel, cur, |w|);
  }

  lemma SingleCharged(w: seq<int>, sel: Mask, cur: seq<int>, b: nat)
    requires |w| == |sel| == |cur| && b < |w| && sel[b]
    requires NoneIn(sel, 0, b) && NoneIn(sel, b + 1, |w|)
    ensures Charged(cur, w, sel, cur, b)
  {
    SingleCandidate(w, sel, cur, b);
    StepAt(w, sel, cur, b);
  }

  /** With one candidate a step gives it its weight and takes it back, so skipping it changes nothing. */
  lemma SingleCandidate(w: seq<int>, sel: Mask, cur: seq<int>, b: nat)
    requires |w| == |sel| == |cur| && b < |w| && sel[b]
    requires NoneIn(sel, 0, b) && NoneIn(sel, b + 1, |w|)
    ensures AnyOf(sel) && Winner(w, sel, cur) == b && Step(w, sel, cur) == cur
  {
    BestIsBest(w, sel, cur, |w|);
    SumCongruent(w, w, sel, Only(|w|, b), |w|);
    SumOnly(w, |w|, b, |w|);
  }
}
