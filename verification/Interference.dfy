/** When updates of the runtime snapshot come to an end, and which one never does. */
module Interference {
  import opened Backend
  import opened Snapshots
  import opened Reload
  import opened Monitoring

  predicate Solo(id: nat, t: seq<Event>) {
    forall e :: e in t ==> e.id == id && !e.Begin?
  }

  lemma Prepend(w: World, e: Event, t: seq<Event>)
    requires Enabled(w, e) && IsRun(w, [e]) && IsRun(Step(w, e), t)
    ensures IsRun(w, [e] + t) && After(w, [e] + t) == After(Step(w, e), t)
  {
    assert ([e] + t)[1..] == t;
  }

  // ---------------------------------------------------------------- every orderly update can finish

  function StepsLeft(p: Plan): nat {
    |p.starts| + (if p.swapped then 0 else 1) + 2 * |p.stops| + |Waiting(p)|
  }

  lemma StepShrinks(w: World, e: Event)
    requires Enabled(w, e) && !e.Begin? && !e.End?
    ensures e.id in Step(w, e).plans && StepsLeft(Step(w, e).plans[e.id]) < StepsLeft(w.plans[e.id])
  {
    var p, q := w.plans[e.id], Step(w, e).plans[e.id];
    match e
    case StartOne(_, c) =>
      assert |q.starts| == |p.starts| - 1 && Waiting(q) == Waiting(p);
    case Swap(_) =>
      assert Waiting(q) == Waiting(p);
    case Cancel(_, c) =>
      assert |q.stops| == |p.stops| - 1 && Waiting(q) == {c} && Waiting(p) == {};
    case Wait(_) =>
      assert Waiting(q) == {} && Waiting(p) == {p.waiting.value};
  }

  /** The next step of an update on its own. */
  lemma NextStep(w: World, id: nat) returns (e: Event)
    requires Safe(w) && id in w.plans
    ensures !e.Begin? && e.id == id && Enabled(w, e)
    ensures e.Swap? ==> !w.plans[id].swapped
    ensures !e.End? && !e.Swap? ==> id in Step(w, e).plans
    ensures !e.End? && !e.Swap? && !w.plans[id].swapped ==> Step(w, e).version == w.version
  {
    var p := w.plans[id];
    assert PlanOk(w, p);
    if !p.swapped && p.starts != {} {
      var c :| c in p.starts;
      e := StartOne(id, c);
    } else if !p.swapped {
      e := Swap(id);
    } else if p.waiting.Some? {
      assert Alive(w, p.waiting.value) == Probing(w, p.waiting.value);
      e := Wait(id);
    } else if p.stops != {} {
      var c :| c in p.stops;
      e := Cancel(id, c);
    } else {
      e := End(id);
    }
  }

  ghost predicate UpToFinish(w: World, id: nat) {
    Safe(w) && id in w.plans && (w.plans[id].swapped || w.plans[id].base == w.version)
  }

  lemma NextSafeStep(w: World, id: nat) returns (e: Event)
    requires UpToFinish(w, id)
    ensures !e.Begin? && e.id == id && Enabled(w, e) && Safe(Step(w, e))
    ensures !e.End? ==> UpToFinish(Step(w, e), id) && StepsLeft(Step(w, e).plans[id]) < StepsLeft(w.plans[id])
    ensures e.End? ==> id !in Step(w, e).plans
  {
    e := NextStep(w, id);
    StepKeeps(w, e);
    if !e.End? {
      StepShrinks(w, e);
    }
  }

  /** An update whose snapshot is still the installed one can run to its end, and the world stays safe. */
  lemma {:induction false} CanFinish(w: World, id: nat) returns (t: seq<Event>)
    requires UpToFinish(w, id)
    ensures Solo(id, t) && IsRun(w, t) && Safe(After(w, t)) && id !in After(w, t).plans
    decreases StepsLeft(w.plans[id])
  {
    var e := NextSafeStep(w, id);
    var rest: seq<Event> := [];
    if !e.End? {
      rest := CanFinish(Step(w, e), id);
    }
    assert [e][1..] == [];
    Prepend(w, e, rest);
    t := [e] + rest;
  }

  // ---------------------------------------------------------------- a partial update that drops its checker

  /**
    The update starts checker c a second time and then stops it once: a group of its probes is left
    that nothing can cancel, and Stop waits for it.
   */
  ghost predicate Stuck(w: World, id: nat, c: Checker) {
    && id in w.plans && c.watched > 0
    && var p := w.plans[id];
       || (!p.swapped && p.starts == {c} && p.stops == {c} && p.waiting.None? && c in w.current && Alive(w, c) >= 1)
       || (p.starts == {} && p.stops == {c} && p.waiting.None? && c in w.current && Alive(w, c) >= 2)
       || (p.swapped && p.waiting == Some(c) && c !in w.current && Alive(w, c) >= 1)
  }

  lemma StuckStep(w: World, id: nat, c: Checker, e: Event)
    requires Stuck(w, id, c) && Enabled(w, e) && e.id == id && !e.Begin?
    ensures Stuck(Step(w, e), id, c)
  {
    assert {c} - {c} == {};
  }

  lemma {:induction false} NeverFinishes(w: World, id: nat, c: Checker, t: seq<Event>)
    requires Stuck(w, id, c) && Solo(id, t) && IsRun(w, t)
    ensures id in After(w, t).plans
    decreases |t|
  {
    if t != [] {
      assert t[0] in t;
      StuckStep(w, id, c, t[0]);
      assert Solo(id, t[1..]);
      NeverFinishes(Step(w, t[0]), id, c, t[1..]);
    }
  }

  ghost predicate Finishes(w: World, id: nat) {
    exists t :: Solo(id, t) && IsRun(w, t) && id !in After(w, t).plans
  }

  lemma StuckFromTheStart(w: World, id: nat, p: Pool)
    requires AtRest(w) && !SettingKept(w, Partial(p)) && w.snap.checkers[p.name].watched > 0
    ensures Stuck(Step(w, Begin(id, Partial(p), true)), id, w.snap.checkers[p.name])
  {
    var c := w.snap.checkers[p.name];
    assert c in Ids(w.snap.checkers);
    assert Alive(w, c) == Probing(w, c);
  }

  /** What the update has to stop has no probes. */
  ghost predicate Idle(w: World, id: nat) {
    id in w.plans && forall c :: c in w.plans[id].stops + Waiting(w.plans[id]) ==> c.watched == 0 && Alive(w, c) == 0
  }

  lemma IdleStep(w: World, id: nat) returns (e: Event)
    requires Idle(w, id)
    ensures !e.Begin? && e.id == id && Enabled(w, e) && (!e.End? ==> Idle(Step(w, e), id))
  {
    var p := w.plans[id];
    if !p.swapped && p.starts != {} {
      var c :| c in p.starts;
      e := StartOne(id, c);
    } else if !p.swapped {
      e := Swap(id);
    } else if p.waiting.Some? {
      assert p.waiting.value in Waiting(p);
      e := Wait(id);
    } else if p.stops != {} {
      var c :| c in p.stops;
      e := Cancel(id, c);
    } else {
      e := End(id);
    }
  }

  lemma {:induction false} IdleFinishes(w: World, id: nat) returns (t: seq<Event>)
    requires Idle(w, id)
    ensures Solo(id, t) && IsRun(w, t) && id !in After(w, t).plans
    decreases StepsLeft(w.plans[id])
  {
    var e := IdleStep(w, id);
    var rest: seq<Event> := [];
    if !e.End? {
      StepShrinks(w, e);
      rest := IdleFinishes(Step(w, e), id);
    }
    assert [e][1..] == [];
    Prepend(w, e, rest);
    t := [e] + rest;
  }

  lemma IdleFromTheStart(w: World, id: nat, p: Pool)
    requires AtRest(w) && !SettingKept(w, Partial(p)) && w.snap.checkers[p.name].watched == 0
    ensures Idle(Step(w, Begin(id, Partial(p), true)), id)
  {
    var c := w.snap.checkers[p.name];
    assert Alive(w, c) == Probing(w, c);
  }

  /** The installed pool of that name has no servers. */
  predicate NoServers(w: World, name: string) {
    name in w.snap.pools && w.snap.pools[name].servers == []
  }

  /**
    A partial update on its own finishes if and only if it brings a checker, or its pool has none,
    or the installed checker watches no backend. Otherwise it waits for ever in Stop.
   */
  lemma PartialFinishesIff(w: World, id: nat, p: Pool)
    requires AtRest(w)
    ensures Finishes(Step(w, Begin(id, Partial(p), true)), id) <==> SettingKept(w, Partial(p)) || NoServers(w, p.name)
  {
    var e := Begin(id, Partial(p), true);
    var r := Step(w, e);
    if SettingKept(w, Partial(p)) {
      AtRestSafe(w);
      StepKeeps(w, e);
      var t := CanFinish(r, id);
    } else if NoServers(w, p.name) {
      IdleFromTheStart(w, id, p);
      var t := IdleFinishes(r, id);
    } else {
      StuckFromTheStart(w, id, p);
      forall t | Solo(id, t) && IsRun(r, t)
        ensures id in After(r, t).plans
      {
        NeverFinishes(r, id, w.snap.checkers[p.name], t);
      }
    }
  }
}
