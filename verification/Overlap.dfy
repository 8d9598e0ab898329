/**
  Updates of the runtime snapshot that overlap: exactly when every interleaving of them leaves
  every installed checker running.
 */
module Overlap {
  import opened Snapshots
  import opened Reload
  import opened Monitoring
  import opened Interference

  /** No further update begins. */
  ghost predicate NoBegin(t: seq<Event>) {
    forall e :: e in t ==> !e.Begin?
  }

  /** However the updates under way interleave, every installed checker is running at every step. */
  ghost predicate StaysMonitored(v: World) {
    forall t :: NoBegin(t) && IsRun(v, t) ==> Monitored(After(v, t))
  }

  /** All updates under way were built from the installed snapshot, and none has swapped yet. */
  ghost predicate AllPending(v: World) {
    forall id :: id in v.plans ==>
                   && !v.plans[id].swapped && v.plans[id].base == v.version
                   && v.plans[id].stops <= Ids(v.snap.checkers)
  }

  ghost predicate SameStops(plans: map<nat, Plan>) {
    forall i, j :: i in plans && j in plans ==> plans[i].stops == plans[j].stops
  }

  lemma SomeDiffer(plans: map<nat, Plan>) returns (i: nat, j: nat)
    requires !SameStops(plans)
    ensures i in plans && j in plans && !(plans[i].stops <= plans[j].stops)
  {
    i, j :| i in plans && j in plans && plans[i].stops != plans[j].stops;
    if plans[i].stops <= plans[j].stops {
      i, j := j, i;
    }
  }

  lemma BothSame(plans: map<nat, Plan>, i: nat, j: nat)
    requires plans.Keys == {i, j}
    ensures SameStops(plans) <==> plans[i].stops == plans[j].stops
  {
  }

  // ---------------------------------------------------------------- nothing one of them stops is installed by another

  /** No update stops what is installed, or what another has yet to install. */
  ghost predicate Calm(v: World) {
    && Monitored(v)
    && (forall i :: i in v.plans && v.plans[i].swapped ==> v.plans[i].stops !! Ids(v.snap.checkers))
    && (forall i :: i in v.plans && !v.plans[i].swapped ==>
                      Ids(v.plans[i].result.checkers) <= v.current + v.plans[i].starts)
    && (forall i, j :: i in v.plans && j in v.plans && !v.plans[i].swapped ==>
                         v.plans[j].stops !! Ids(v.plans[i].result.checkers))
  }

  /** The only plan a step changes is its own. */
  lemma OthersKept(v: World, e: Event)
    requires Enabled(v, e) && !e.Begin?
    ensures forall i :: i in Step(v, e).plans ==>
                          && i in v.plans && Step(v, e).plans[i].stops <= v.plans[i].stops
                          && Step(v, e).plans[i].result == v.plans[i].result
                          && (v.plans[i].swapped ==> Step(v, e).plans[i].swapped)
                          && (i != e.id ==> Step(v, e).plans[i] == v.plans[i])
  {
  }

  lemma CalmStep(v: World, e: Event)
    requires Calm(v) && Enabled(v, e) && !e.Begin?
    ensures Calm(Step(v, e))
  {
    OthersKept(v, e);
    match e
    case StartOne(id, c) =>
    case Swap(id) =>
    case Cancel(id, c) =>
    case Wait(id) =>
    case End(id) =>
  }

  lemma {:induction false} CalmRun(v: World, t: seq<Event>)
    requires Calm(v) && IsRun(v, t) && NoBegin(t)
    ensures Monitored(After(v, t))
    decreases |t|
  {
    if t != [] {
      assert t[0] in t;
      CalmStep(v, t[0]);
      CalmRun(Step(v, t[0]), t[1..]);
    }
  }

  /** What an up-to-date update keeps of the installed checkers is all it does not stop. */
  lemma KeepsTheRest(v: World, p: Plan)
    requires UpToDate(v, p)
    ensures Ids(p.result.checkers) * Ids(v.snap.checkers) == Ids(v.snap.checkers) - p.stops
  {
  }

  lemma SameStopsCalm(v: World)
    requires Safe(v) && AllPending(v) && SameStops(v.plans)
    ensures Calm(v)
  {
    forall i | i in v.plans
      ensures Ids(v.plans[i].result.checkers) <= v.current + v.plans[i].starts
      ensures v.plans[i].stops !! Ids(v.plans[i].result.checkers)
    {
      assert PlanOk(v, v.plans[i]);
    }
  }

  // ---------------------------------------------------------------- and if one does

  lemma {:induction false} StartAll(v: World, id: nat) returns (t: seq<Event>)
    requires id in v.plans && !v.plans[id].swapped
    ensures NoBegin(t) && IsRun(v, t) && After(v, t).plans == v.plans[id := v.plans[id].(starts := {})]
    decreases |v.plans[id].starts|
  {
    if v.plans[id].starts == {} {
      t := [];
      assert v.plans == v.plans[id := v.plans[id].(starts := {})];
    } else {
      var c :| c in v.plans[id].starts;
      var e := StartOne(id, c);
      var rest := StartAll(Step(v, e), id);
      assert [e][1..] == [];
      Prepend(v, e, rest);
      t := [e] + rest;
    }
  }

  lemma BothStarted(v: World, i: nat, j: nat) returns (t: seq<Event>)
    requires i in v.plans && j in v.plans && i != j && !v.plans[i].swapped && !v.plans[j].swapped
    ensures NoBegin(t) && IsRun(v, t)
    ensures var r := After(v, t);
            && i in r.plans && r.plans[i] == v.plans[i].(starts := {})
            && j in r.plans && r.plans[j] == v.plans[j].(starts := {})
  {
    var t0 := StartAll(v, i);
    var t1 := StartAll(After(v, t0), j);
    Concatenated(v, t0, t1);
    t := t0 + t1;
  }

  /** Both swap, and then the first stops a checker that the second has installed again. */
  lemma Loses(v: World, i: nat, j: nat, c: Checker) returns (t: seq<Event>)
    requires i in v.plans && j in v.plans && i != j && !v.plans[i].swapped && !v.plans[j].swapped
    requires v.plans[i].waiting.None? && c in v.plans[i].stops && c in Ids(v.plans[j].result.checkers)
    ensures NoBegin(t) && IsRun(v, t) && !Monitored(After(v, t))
  {
    var start := BothStarted(v, i, j);
    var r := After(v, start);
    var first, second, stop := Swap(i), Swap(j), Cancel(i, c);
    var r1 := Step(r, first);
    var r2 := Step(r1, second);
    Prepend(r2, stop, []);
    Prepend(r1, second, [stop]);
    Prepend(r, first, [second] + [stop]);
    Concatenated(v, start, [first] + ([second] + [stop]));
    t := start + ([first] + ([second] + [stop]));
    assert c in Ids(Step(r2, stop).snap.checkers) && c !in Step(r2, stop).current;
  }

  lemma Clash(v: World, p: Plan, q: Plan) returns (c: Checker)
    requires UpToDate(v, q) && p.stops <= Ids(v.snap.checkers) && !(p.stops <= q.stops)
    ensures c in p.stops && c in Ids(q.result.checkers)
  {
    KeepsTheRest(v, q);
    c :| c in p.stops && c !in q.stops;
    assert c in Ids(v.snap.checkers) - q.stops;
  }

  lemma PendingPlan(v: World, id: nat)
    requires Safe(v) && AllPending(v) && id in v.plans
    ensures UpToDate(v, v.plans[id]) && v.plans[id].waiting.None? && !v.plans[id].swapped
    ensures v.plans[id].stops <= Ids(v.snap.checkers)
  {
    assert PlanOk(v, v.plans[id]);
  }

  lemma DifferentStopsLose(v: World, i: nat, j: nat)
    requires Safe(v) && AllPending(v) && i in v.plans && j in v.plans && !(v.plans[i].stops <= v.plans[j].stops)
    ensures !StaysMonitored(v)
  {
    PendingPlan(v, i);
    PendingPlan(v, j);
    var c := Clash(v, v.plans[i], v.plans[j]);
    var t := Loses(v, i, j, c);
  }

  lemma SameStopsStay(v: World)
    requires Safe(v) && AllPending(v) && SameStops(v.plans)
    ensures StaysMonitored(v)
  {
    SameStopsCalm(v);
    forall t | NoBegin(t) && IsRun(v, t)
      ensures Monitored(After(v, t))
    {
      CalmRun(v, t);
    }
  }

  /**
    Any number of updates built from the installed snapshot leave every installed checker running,
    however they interleave, if and only if all of them stop the same checkers.
   */
  lemma OverlapSafeIff(v: World)
    requires Safe(v) && AllPending(v)
    ensures StaysMonitored(v) <==> SameStops(v.plans)
  {
    if SameStops(v.plans) {
      SameStopsStay(v);
    } else {
      var i, j := SomeDiffer(v.plans);
      DifferentStopsLose(v, i, j);
    }
  }

  // ---------------------------------------------------------------- two updates begun at rest

  /** An update that goes ahead from the installed snapshot. */
  ghost predicate Applies(w: World, id: nat, u: Update) {
    GoesAhead(w, Begin(id, u, true))
  }

  ghost function BothBegun(w: World, i: nat, u: Update, j: nat, v: Update): World
    requires w.plans == map[] && i != j
  {
    Step(Step(w, Begin(i, u, true)), Begin(j, v, true))
  }

  /**
    By the pools they touch: two reloads; a reload and one pool, the only one checked; one pool twice;
    or pools without checkers.
   */
  predicate OverlapSafe(w: World, u: Update, v: Update) {
    match (u, v)
    case (Full(_), Full(_)) => true
    case (Full(_), Partial(q)) => w.snap.checkers.Keys <= {q.name}
    case (Partial(p), Full(_)) => w.snap.checkers.Keys <= {p.name}
    case (Partial(p), Partial(q)) =>
      p.name == q.name || (p.name !in w.snap.checkers && q.name !in w.snap.checkers)
  }

  /** It brings no checker. */
  predicate MakesNone(u: Update) {
    if u.Full? then forall k :: 0 <= k < |u.cfg.pools| ==> !u.cfg.pools[k].checked else !u.pool.checked
  }

  lemma NoneMade(w: World, u: Update)
    ensures PlanFor(w, u).made == {} <==> MakesNone(u)
  {
    if u.Full? {
      NoneBuilt(u.cfg.pools, w.next, |u.cfg.pools|);
      NoIds(Built(u.cfg, w.next).checkers);
    }
  }

  lemma NoIds(m: map<string, Checker>)
    ensures Ids(m) == {} <==> m == map[]
  {
    if n :| n in m {
      assert m[n] in Ids(m);
    }
  }

  lemma {:induction false} NoneBuilt(pools: seq<Pool>, next: nat, k: nat)
    requires k <= |pools|
    ensures CheckersOf(pools, next, k) == map[] <==> forall j :: 0 <= j < k ==> !pools[j].checked
  {
    if k > 0 {
      NoneBuilt(pools, next, k - 1);
      assert pools[k - 1].checked ==> pools[k - 1].name in CheckersOf(pools, next, k);
    }
  }

  function StopsOf(w: World, u: Update): set<Checker> {
    if u.Full? then Ids(w.snap.checkers) else IdOf(w.snap.checkers, u.pool.name)
  }

  lemma SafeByNames(w: World, u: Update, v: Update)
    requires Injective(w.snap.checkers)
    ensures StopsOf(w, u) == StopsOf(w, v) <==> OverlapSafe(w, u, v)
  {
    var m := w.snap.checkers;
    OneChecked(m, if u.Partial? then u.pool.name else if v.Partial? then v.pool.name else "");
  }

  lemma OneChecked(m: map<string, Checker>, name: string)
    requires Injective(m)
    ensures Ids(m) == IdOf(m, name) <==> m.Keys <= {name}
  {
    if Ids(m) == IdOf(m, name) {
      forall n | n in m
        ensures n == name
      {
        assert m[n] in Ids(m);
      }
    }
    if m.Keys <= {name} {
      assert forall n :: n in m ==> n == name;
    }
  }

  lemma BeginApplies(w: World, id: nat, u: Update) returns (r: World, p: Plan)
    requires Safe(w) && AllPending(w) && id !in w.plans && Applies(w, id, u) && SettingKept(w, u)
    ensures r == Step(w, Begin(id, u, true)) && Safe(r) && AllPending(r) && r.snap == w.snap
    ensures r.plans == w.plans[id := p] && p.stops == StopsOf(w, u) && (p.made == {} <==> MakesNone(u))
  {
    StepKeeps(w, Begin(id, u, true));
    r, p := Step(w, Begin(id, u, true)), PlanFor(w, u);
    NoneMade(w, u);
  }

  lemma SameSnapshot(w: World, r: World, id: nat, u: Update)
    requires r.snap == w.snap
    ensures Applies(r, id, u) <==> Applies(w, id, u)
    ensures SettingKept(r, u) <==> SettingKept(w, u)
    ensures StopsOf(r, u) == StopsOf(w, u)
  {
  }

  /** Both begun, and what each will stop and has made. */
  lemma BothApply(w: World, i: nat, u: Update, j: nat, v: Update) returns (r: World, p: Plan, q: Plan)
    requires AtRest(w) && i != j && Applies(w, i, u) && Applies(w, j, v) && SettingKept(w, u) && SettingKept(w, v)
    ensures r == BothBegun(w, i, u, j, v) && Safe(r) && AllPending(r) && r.plans == map[i := p, j := q]
    ensures p.stops == StopsOf(w, u) && (p.made == {} <==> MakesNone(u))
    ensures q.stops == StopsOf(w, v) && (q.made == {} <==> MakesNone(v))
  {
    hide StopsOf, MakesNone, Safe, Applies, SettingKept;
    AtRestSafe(w);
    var w1;
    w1, p := BeginApplies(w, i, u);
    SameSnapshot(w, w1, j, v);
    r, q := BeginApplies(w1, j, v);
  }

  /** An update that drops the checker of its pool stops it, and leaves it installed. */
  lemma LosesAlone(v: World, id: nat, c: Checker)
    requires id in v.plans && !v.plans[id].swapped && v.plans[id].waiting.None?
    requires c in v.plans[id].stops && c in Ids(v.plans[id].result.checkers)
    ensures !StaysMonitored(v)
  {
    var start := StartAll(v, id);
    var r := After(v, start);
    var swap, stop := Swap(id), Cancel(id, c);
    var r1 := Step(r, swap);
    Prepend(r1, stop, []);
    Prepend(r, swap, [stop]);
    Concatenated(v, start, [swap] + [stop]);
    var t := start + ([swap] + [stop]);
    assert c in Ids(Step(r1, stop).snap.checkers) && c !in Step(r1, stop).current;
    assert NoBegin(t) && !Monitored(After(v, t));
  }

  lemma Dropped(w: World, u: Update) returns (c: Checker)
    requires !SettingKept(w, u)
    ensures c in PlanFor(w, u).stops && c in Ids(PlanFor(w, u).result.checkers)
  {
    c := w.snap.checkers[u.pool.name];
    assert Updated(w.snap, u.pool, w.next).checkers[u.pool.name] == c;
  }

  lemma UnkeptLoses(w: World, i: nat, u: Update, j: nat, v: Update)
    requires w.plans == map[] && i != j && Applies(w, i, u) && Applies(w, j, v)
    requires !SettingKept(w, u) || !SettingKept(w, v)
    ensures !StaysMonitored(BothBegun(w, i, u, j, v))
  {
    var w1 := Step(w, Begin(i, u, true));
    SameSnapshot(w, w1, j, v);
    if !SettingKept(w, u) {
      var c := Dropped(w, u);
      LosesAlone(BothBegun(w, i, u, j, v), i, c);
    } else {
      var c := Dropped(w1, v);
      LosesAlone(BothBegun(w, i, u, j, v), j, c);
    }
  }

  /**
    Two updates begun from the same snapshot at rest, of any kind and in any order: exactly when
    every interleaving leaves every installed checker running.
   */
  lemma TwoOverlapIff(w: World, i: nat, u: Update, j: nat, v: Update)
    requires AtRest(w) && i != j && Applies(w, i, u) && Applies(w, j, v)
    ensures StaysMonitored(BothBegun(w, i, u, j, v))
       <==> SettingKept(w, u) && SettingKept(w, v) && OverlapSafe(w, u, v)
  {
    hide StopsOf, OverlapSafe, MakesNone, Safe, Applies, SettingKept, StaysMonitored;
    if SettingKept(w, u) && SettingKept(w, v) {
      var r, p, q := BothApply(w, i, u, j, v);
      OverlapSafeIff(r);
      BothSame(r.plans, i, j);
      SafeByNames(w, u, v);
    } else {
      UnkeptLoses(w, i, u, j, v);
    }
  }
}
