/**
  What is left running once updates of the runtime snapshot that overlap have all ended: exactly
  when it is what is installed, and the checkers that leak otherwise.
 */
module Settling {
  import opened Snapshots
  import opened Reload
  import opened Monitoring
  import opened Interference
  import opened Overlap

  /** A run of the updates under way to the end of them all. */
  ghost predicate Complete(v: World, t: seq<Event>) {
    NoBegin(t) && IsRun(v, t) && After(v, t).plans == map[]
  }

  /** However the updates under way interleave, once all have ended exactly the installed checkers run. */
  ghost predicate EndsAtRest(v: World) {
    forall t :: Complete(v, t) ==> AtRest(After(v, t))
  }

  ghost predicate NoneMakes(plans: map<nat, Plan>) {
    forall i :: i in plans ==> plans[i].made == {}
  }

  // ---------------------------------------------------------------- what every interleaving keeps

  /** Updates before their swap that start and stop different checkers, each of which will be started once. */
  ghost predicate Fresh(v: World) {
    && RunsOnce(v) && Below(v, v.current)
    && (forall i :: i in v.plans ==>
                      && !v.plans[i].swapped && v.plans[i].waiting.None?
                      && v.plans[i].starts !! v.current && Below(v, v.plans[i].starts))
    && (forall i, j :: i in v.plans && j in v.plans ==> v.plans[i].starts !! v.plans[j].stops)
    && (forall i, j :: i in v.plans && j in v.plans && i != j ==> v.plans[i].starts !! v.plans[j].starts)
  }

  /** A plan of v, further on. */
  ghost predicate Later(p: Plan, q: Plan, r: World) {
    && q.result == p.result && q.starts <= p.starts && q.stops <= p.stops
    && q.starts !! r.current && (q.swapped ==> q.starts == {})
    && Waiting(q) <= p.stops && Waiting(q) !! r.current
  }

  ghost function AllStarts(plans: map<nat, Plan>): set<Checker> {
    set i, c | i in plans && c in plans[i].starts :: c
  }

  ghost function AllStops(plans: map<nat, Plan>): set<Checker> {
    set i, c | i in plans && c in plans[i].stops :: c
  }

  /** What has been started and what has been stopped is what the plans no longer have to do. */
  ghost predicate Accounted(v: World, r: World) {
    && r.current <= v.current + AllStarts(v.plans) && v.current <= r.current + AllStops(v.plans)
    && (forall i, c :: i in v.plans && c in v.plans[i].starts ==>
                         c in r.current || (i in r.plans && c in r.plans[i].starts))
    && (forall i, c :: i in v.plans && c in v.plans[i].stops && c in r.current ==>
                         i in r.plans && c in r.plans[i].stops)
  }

  /** Nothing is installed yet by any of them, or what one of them installs. */
  ghost predicate SnapOf(v: World, r: World) {
    || (r.snap == v.snap && forall i :: i in v.plans ==> i in r.plans && !r.plans[i].swapped)
    || exists i :: i in v.plans && r.snap == v.plans[i].result
  }

  ghost predicate AllLater(v: World, r: World) {
    forall i :: i in r.plans ==> i in v.plans && Later(v.plans[i], r.plans[i], r)
  }

  ghost predicate Midway(v: World, r: World) {
    AllLater(v, r) && Accounted(v, r) && SnapOf(v, r) && RunsOnce(r) && r.next == v.next
  }

  lemma LaterStep(v: World, r: World, e: Event)
    requires Fresh(v) && AllLater(v, r) && Enabled(r, e) && !e.Begin?
    ensures AllLater(v, Step(r, e))
  {
    hide RunsOnce, Below, Later;
    var s := Step(r, e);
    OthersKept(r, e);
    forall i | i in s.plans
      ensures i in v.plans && Later(v.plans[i], s.plans[i], s)
    {
      assert Later(v.plans[i], r.plans[i], r) && Later(v.plans[e.id], r.plans[e.id], r);
      if i == e.id {
        OwnLater(v.plans[i], r, e);
      } else {
        OtherLater(v.plans[i], v.plans[e.id], r.plans[i], r, e);
      }
    }
  }

  /** The plan that takes the step. */
  lemma OwnLater(p: Plan, r: World, e: Event)
    requires Enabled(r, e) && !e.Begin? && !e.End? && Later(p, r.plans[e.id], r) && p.starts !! p.stops
    ensures Later(p, Step(r, e).plans[e.id], Step(r, e))
  {
  }

  /** A plan beside it. */
  lemma OtherLater(p: Plan, own: Plan, q: Plan, r: World, e: Event)
    requires Enabled(r, e) && !e.Begin? && Later(own, r.plans[e.id], r) && Later(p, q, r)
    requires own.starts !! p.starts && own.starts !! p.stops
    ensures Later(p, q, Step(r, e))
  {
  }

  lemma RunsOnceStep(v: World, r: World, e: Event)
    requires AllLater(v, r) && RunsOnce(r) && Enabled(r, e) && !e.Begin?
    ensures RunsOnce(Step(r, e))
  {
    hide RunsOnce;
    var s := Step(r, e);
    if e.StartOne? {
      assert Later(v.plans[e.id], r.plans[e.id], r);
      StartedOnce(r, e.c);
      SameRuns(Started(r, e.c), s);
    } else if e.Cancel? {
      CancelledOnce(r, e.c);
      SameRuns(Cancelled(r, e.c), s);
    } else {
      SameRuns(r, s);
    }
  }

  lemma SnapStep(v: World, r: World, e: Event)
    requires AllLater(v, r) && SnapOf(v, r) && Enabled(r, e) && !e.Begin?
    ensures SnapOf(v, Step(r, e))
  {
    assert Later(v.plans[e.id], r.plans[e.id], r);
    if e.Swap? {
      assert Step(r, e).snap == v.plans[e.id].result;
    }
  }

  lemma AccountedStart(v: World, r: World, id: nat, c: Checker)
    requires Fresh(v) && AllLater(v, r) && Accounted(v, r) && Enabled(r, StartOne(id, c))
    ensures Accounted(v, Step(r, StartOne(id, c)))
  {
    var s := Step(r, StartOne(id, c));
    assert c in v.plans[id].starts && c in AllStarts(v.plans) by {
      assert Later(v.plans[id], r.plans[id], r);
    }
    StartedApart(v, r, id, c);
  }

  lemma StartedApart(v: World, r: World, id: nat, c: Checker)
    requires Fresh(v) && Accounted(v, r) && Enabled(r, StartOne(id, c)) && id in v.plans && c in v.plans[id].starts
    ensures var s := Step(r, StartOne(id, c));
            && (forall i, x :: i in v.plans && x in v.plans[i].starts ==>
                                 x in s.current || (i in s.plans && x in s.plans[i].starts))
            && (forall i, x :: i in v.plans && x in v.plans[i].stops && x in s.current ==>
                                 i in s.plans && x in s.plans[i].stops)
  {
    hide RunsOnce, Below, AllStarts, AllStops;
    var s := Step(r, StartOne(id, c));
    forall i, x | i in v.plans && x in v.plans[i].stops && x in s.current
      ensures i in s.plans && x in s.plans[i].stops
    {
      assert v.plans[id].starts !! v.plans[i].stops;
      assert x in r.current;
    }
  }

  lemma AccountedCancel(v: World, r: World, id: nat, c: Checker)
    requires Fresh(v) && AllLater(v, r) && Accounted(v, r) && Enabled(r, Cancel(id, c))
    ensures Accounted(v, Step(r, Cancel(id, c)))
  {
    assert c in v.plans[id].stops && c in AllStops(v.plans) by {
      assert Later(v.plans[id], r.plans[id], r);
    }
    StoppedApart(v, r, id, c);
  }

  lemma StoppedApart(v: World, r: World, id: nat, c: Checker)
    requires Fresh(v) && Accounted(v, r) && Enabled(r, Cancel(id, c)) && id in v.plans && c in v.plans[id].stops
    ensures var s := Step(r, Cancel(id, c));
            && (forall i, x :: i in v.plans && x in v.plans[i].starts ==>
                                 x in s.current || (i in s.plans && x in s.plans[i].starts))
            && (forall i, x :: i in v.plans && x in v.plans[i].stops && x in s.current ==>
                                 i in s.plans && x in s.plans[i].stops)
  {
    hide RunsOnce, Below, AllStarts, AllStops;
    var s := Step(r, Cancel(id, c));
    forall i, x | i in v.plans && x in v.plans[i].starts
      ensures x in s.current || (i in s.plans && x in s.plans[i].starts)
    {
      assert v.plans[i].starts !! v.plans[id].stops;
    }
  }

  lemma AccountedEnd(v: World, r: World, id: nat)
    requires AllLater(v, r) && Accounted(v, r) && Enabled(r, End(id))
    ensures Accounted(v, Step(r, End(id)))
  {
    assert Later(v.plans[id], r.plans[id], r);
  }

  lemma AccountedStill(v: World, r: World, e: Event)
    requires Accounted(v, r) && Enabled(r, e) && (e.Swap? || e.Wait?)
    ensures Accounted(v, Step(r, e))
  {
  }

  lemma MidwayStep(v: World, r: World, e: Event)
    requires Fresh(v) && Midway(v, r) && Enabled(r, e) && !e.Begin?
    ensures Midway(v, Step(r, e))
  {
    hide Fresh, AllLater, Accounted, SnapOf, RunsOnce;
    LaterStep(v, r, e);
    RunsOnceStep(v, r, e);
    SnapStep(v, r, e);
    match e
    case StartOne(id, c) => AccountedStart(v, r, id, c);
    case Cancel(id, c) => AccountedCancel(v, r, id, c);
    case End(id) => AccountedEnd(v, r, id);
    case _ => AccountedStill(v, r, e);
  }

  lemma {:induction false} MidwayRun(v: World, r: World, t: seq<Event>)
    requires Fresh(v) && Midway(v, r) && IsRun(r, t) && NoBegin(t)
    ensures Midway(v, After(r, t))
    decreases |t|
  {
    hide Midway, Fresh;
    if t != [] {
      assert t[0] in t;
      MidwayStep(v, r, t[0]);
      MidwayRun(v, Step(r, t[0]), t[1..]);
    }
  }

  lemma MidwayFirst(v: World)
    requires Fresh(v)
    ensures Midway(v, v)
  {
  }

  /** What runs already or is to be started, and is not to be stopped. */
  ghost function Survivors(v: World): set<Checker> {
    v.current + AllStarts(v.plans) - AllStops(v.plans)
  }

  lemma OnlySurvivors(v: World, r: World)
    requires Fresh(v) && Accounted(v, r) && r.plans == map[]
    ensures r.current == Survivors(v)
  {
    assert forall i, c :: i in v.plans && c in v.plans[i].stops ==> c !in r.current;
    assert forall i, c :: i in v.plans && c in v.plans[i].starts ==> c in r.current;
  }

  /** When all have ended, exactly the survivors run, and one of the updates has the last word. */
  lemma AllEnded(v: World, t: seq<Event>)
    requires Fresh(v) && Complete(v, t) && v.plans != map[]
    ensures After(v, t).current == Survivors(v) && RunsOnce(After(v, t)) && After(v, t).next == v.next
    ensures exists i :: i in v.plans && After(v, t).snap == v.plans[i].result
  {
    hide Fresh, AllLater, Accounted, RunsOnce, Survivors;
    MidwayFirst(v);
    MidwayRun(v, v, t);
    OnlySurvivors(v, After(v, t));
    assert exists i :: i in v.plans;
  }

  // ---------------------------------------------------------------- any of them can be the last

  lemma NextMidway(v: World, r: World, id: nat) returns (e: Event)
    requires Fresh(v) && Midway(v, r) && id in r.plans
    ensures !e.Begin? && e.id == id && Enabled(r, e) && Midway(v, Step(r, e))
    ensures e.End? ==> r.plans[id].swapped
    ensures !e.End? ==> id in Step(r, e).plans
  {
    var p := r.plans[id];
    assert Later(v.plans[id], p, r);
    if !p.swapped && p.starts != {} {
      var c :| c in p.starts;
      e := StartOne(id, c);
    } else if !p.swapped {
      e := Swap(id);
    } else if p.waiting.Some? {
      assert p.waiting.value in Waiting(p);
      assert Alive(r, p.waiting.value) == Probing(r, p.waiting.value);
      e := Wait(id);
    } else if p.stops != {} {
      var c :| c in p.stops;
      e := Cancel(id, c);
    } else {
      e := End(id);
    }
    MidwayStep(v, r, e);
  }

  /** What one step of an update does to the others and to what is installed. */
  lemma StepAside(r: World, e: Event)
    requires Enabled(r, e) && !e.Begin?
    ensures Step(r, e).plans - {e.id} == r.plans - {e.id}
    ensures e.End? ==> Step(r, e).plans == r.plans - {e.id}
    ensures Step(r, e).snap == if e.Swap? then r.plans[e.id].result else r.snap
    ensures !e.End? ==> Step(r, e).plans[e.id].result == r.plans[e.id].result
    ensures !e.End? ==> Step(r, e).plans[e.id].swapped == (r.plans[e.id].swapped || e.Swap?)
  {
  }

  /** An update runs on to its end; what it installs stays. */
  lemma {:induction false} FinishOne(v: World, r: World, id: nat) returns (t: seq<Event>)
    requires Fresh(v) && Midway(v, r) && id in r.plans
    ensures NoBegin(t) && IsRun(r, t) && Midway(v, After(r, t)) && After(r, t).plans == r.plans - {id}
    ensures After(r, t).snap == if r.plans[id].swapped then r.snap else r.plans[id].result
    decreases StepsLeft(r.plans[id])
  {
    hide Midway, Fresh, NoBegin;
    var e := NextMidway(v, r, id);
    StepAside(r, e);
    var rest: seq<Event> := [];
    if !e.End? {
      StepShrinks(r, e);
      rest := FinishOne(v, Step(r, e), id);
    }
    assert [e][1..] == [];
    Prepend(r, e, rest);
    OneMore(e, rest);
    t := [e] + rest;
  }

  lemma NoneYet()
    ensures NoBegin([])
  {
  }

  lemma OneMore(e: Event, t: seq<Event>)
    requires !e.Begin? && (t == [] || NoBegin(t))
    ensures NoBegin([e] + t)
  {
  }

  lemma Both(t: seq<Event>, u: seq<Event>)
    requires NoBegin(t) && NoBegin(u)
    ensures NoBegin(t + u)
  {
  }

  /** All others end first. */
  lemma {:induction false} FinishOthers(v: World, r: World, last: nat) returns (t: seq<Event>)
    requires Fresh(v) && Midway(v, r) && last in r.plans
    ensures NoBegin(t) && IsRun(r, t) && Midway(v, After(r, t))
    ensures After(r, t).plans == map[last := r.plans[last]]
    decreases |r.plans|
  {
    hide Midway, Fresh, NoBegin;
    if id :| id in r.plans && id != last {
      var t0 := FinishOne(v, r, id);
      var r0 := After(r, t0);
      assert r0.plans.Keys == r.plans.Keys - {id};
      assert |r0.plans| == |r0.plans.Keys| && |r.plans| == |r.plans.Keys|;
      var t1 := FinishOthers(v, r0, last);
      Concatenated(r, t0, t1);
      Both(t0, t1);
      t := t0 + t1;
    } else {
      t := [];
      assert r.plans == map[last := r.plans[last]];
      NoneYet();
    }
  }

  /** A complete run in which the given update is the last to swap. */
  lemma EndWith(v: World, last: nat) returns (t: seq<Event>)
    requires Fresh(v) && last in v.plans
    ensures Complete(v, t) && After(v, t).snap == v.plans[last].result
  {
    hide Midway, NoBegin;
    MidwayFirst(v);
    var t0 := FinishOthers(v, v, last);
    var r := After(v, t0);
    assert !v.plans[last].swapped;
    var t1 := FinishOne(v, r, last);
    assert r.plans - {last} == map[];
    Concatenated(v, t0, t1);
    Both(t0, t1);
    t := t0 + t1;
  }

  // ---------------------------------------------------------------- what is left, and what is installed

  lemma PendingFresh(v: World)
    requires Safe(v) && AllPending(v)
    ensures Fresh(v)
  {
    forall i | i in v.plans
      ensures !v.plans[i].swapped && Preparing(v, v.plans[i])
    {
      assert PlanOk(v, v.plans[i]);
    }
  }

  /** Nothing to stop but what the last one stops, and no checkers made. */
  ghost predicate OthersIdle(plans: map<nat, Plan>, last: nat)
    requires last in plans
  {
    forall i :: i in plans && i != last ==> plans[i].stops <= plans[last].stops && plans[i].made == {}
  }

  lemma ResultIds(v: World, id: nat)
    requires Safe(v) && AllPending(v) && id in v.plans
    ensures Ids(v.plans[id].result.checkers) == Ids(v.snap.checkers) - v.plans[id].stops + v.plans[id].made
    ensures v.plans[id].made !! Ids(v.snap.checkers) && v.plans[id].stops <= Ids(v.snap.checkers)
    ensures v.plans[id].made <= v.current + v.plans[id].starts && v.plans[id].starts <= v.plans[id].made
    ensures Installed(v.plans[id].result)
  {
    assert PlanOk(v, v.plans[id]);
  }

  lemma MadeApart(v: World, i: nat, j: nat)
    requires Safe(v) && AllPending(v) && i in v.plans && j in v.plans
    ensures v.plans[i].made !! v.plans[j].stops
    ensures i != j ==> v.plans[i].made !! v.plans[j].made
  {
    if i == j {
      assert PlanOk(v, v.plans[i]);
    } else {
      assert Apart(v.plans[i], v.plans[j]);
    }
  }

  /** What was installed and nobody stops, and whatever anybody made. */
  lemma SurvivorIff(v: World, c: Checker)
    requires Safe(v) && AllPending(v)
    ensures c in Survivors(v)
       <==> || (c in Ids(v.snap.checkers) && c !in AllStops(v.plans))
            || exists i :: i in v.plans && c in v.plans[i].made
  {
    hide Installed, RunsOnce, Below, PlansOk;
    if i :| i in v.plans && c in v.plans[i].made {
      ResultIds(v, i);
      forall j | j in v.plans
        ensures c !in v.plans[j].stops
      {
        MadeApart(v, i, j);
      }
    } else if c in Survivors(v) {
      forall j | j in v.plans
        ensures c !in v.plans[j].starts
      {
        ResultIds(v, j);
      }
      assert c in v.current;
      assert forall j :: j in v.plans ==> Owned(v.plans[j]) == v.plans[j].made;
    }
  }

  lemma LastSettles(v: World, last: nat)
    requires Safe(v) && AllPending(v) && last in v.plans && OthersIdle(v.plans, last)
    ensures Survivors(v) == Ids(v.plans[last].result.checkers)
  {
    ResultIds(v, last);
    forall c
      ensures c in Survivors(v) <==> c in Ids(v.plans[last].result.checkers)
    {
      SurvivorIff(v, c);
      MadeApart(v, last, last);
    }
  }

  /** Made by an update that another has the last word over, a checker is left running and installed nowhere. */
  lemma LeftRunning(v: World, i: nat, last: nat, c: Checker)
    requires Safe(v) && AllPending(v) && i in v.plans && last in v.plans && i != last && c in v.plans[i].made
    ensures c in Survivors(v) && c !in Ids(v.plans[last].result.checkers)
  {
    SurvivorIff(v, c);
    ResultIds(v, i);
    ResultIds(v, last);
    MadeApart(v, i, last);
  }

  /** Stopped by one update and kept by the one that has the last word, a checker is installed and does not run. */
  lemma LeftStopped(v: World, i: nat, last: nat, c: Checker)
    requires Safe(v) && AllPending(v) && i in v.plans && last in v.plans
    requires c in v.plans[i].stops && c !in v.plans[last].stops
    ensures c !in Survivors(v) && c in Ids(v.plans[last].result.checkers)
  {
    ResultIds(v, i);
    ResultIds(v, last);
  }

  // ---------------------------------------------------------------- exactly when

  /** The updates do not matter to each other, whichever comes last. */
  ghost predicate AtMostOneMatters(plans: map<nat, Plan>) {
    |plans| <= 1 || (SameStops(plans) && NoneMakes(plans))
  }

  lemma OnlyOne(plans: map<nat, Plan>, i: nat, j: nat)
    requires |plans| <= 1 && i in plans && j in plans
    ensures i == j
  {
    if i != j {
      var two := {i, j};
      assert two <= plans.Keys && |two| == 2;
      SubsetSize(two, plans.Keys);
    }
  }

  lemma {:induction false} SubsetSize(a: set<nat>, b: set<nat>)
    requires a <= b
    ensures |a| <= |b|
  {
    if x :| x in a {
      SubsetSize(a - {x}, b - {x});
    }
  }

  lemma Another(plans: map<nat, Plan>, i: nat) returns (j: nat)
    requires |plans| >= 2 && i in plans
    ensures j in plans && j != i
  {
    var others := plans.Keys - {i};
    assert |others| == |plans.Keys| - 1 && |plans.Keys| == |plans|;
    j :| j in others;
  }

  lemma EndIsRest(v: World, t: seq<Event>)
    requires Safe(v) && AllPending(v) && AtMostOneMatters(v.plans) && v.plans != map[] && Complete(v, t)
    ensures AtRest(After(v, t))
  {
    PendingFresh(v);
    AllEnded(v, t);
    var last :| last in v.plans && After(v, t).snap == v.plans[last].result;
    assert OthersIdle(v.plans, last) by {
      if |v.plans| <= 1 {
        forall i | i in v.plans
          ensures i == last
        {
          OnlyOne(v.plans, i, last);
        }
      }
    }
    LastSettles(v, last);
    ResultIds(v, last);
    SurvivorsBelow(v);
  }

  lemma SurvivorsBelow(v: World)
    requires Fresh(v)
    ensures Below(v, Survivors(v))
  {
  }

  /** Without an update under way nothing happens. */
  lemma NothingHappens(v: World, t: seq<Event>)
    requires v.plans == map[] && Complete(v, t)
    ensures t == []
  {
    assert forall k :: 0 <= k < |t| ==> t[k] in t;
  }

  /** The run that leaks: nothing is under way any more, and the checker is installed nowhere and still runs. */
  lemma Leaks(v: World, i: nat, last: nat, c: Checker) returns (t: seq<Event>)
    requires Safe(v) && AllPending(v) && i in v.plans && last in v.plans && i != last && c in v.plans[i].made
    ensures Complete(v, t) && c in After(v, t).current && c !in Ids(After(v, t).snap.checkers)
  {
    PendingFresh(v);
    t := EndWith(v, last);
    AllEnded(v, t);
    LeftRunning(v, i, last, c);
  }

  lemma Forgets(v: World, i: nat, last: nat, c: Checker) returns (t: seq<Event>)
    requires Safe(v) && AllPending(v) && i in v.plans && last in v.plans
    requires c in v.plans[i].stops && c !in v.plans[last].stops
    ensures Complete(v, t) && c !in After(v, t).current && c in Ids(After(v, t).snap.checkers)
  {
    PendingFresh(v);
    t := EndWith(v, last);
    AllEnded(v, t);
    LeftStopped(v, i, last, c);
  }

  lemma SomeEndIsNot(v: World)
    requires Safe(v) && AllPending(v) && !AtMostOneMatters(v.plans)
    ensures !EndsAtRest(v)
  {
    if !SameStops(v.plans) {
      var i, last := SomeDiffer(v.plans);
      var c :| c in v.plans[i].stops && c !in v.plans[last].stops;
      var t := Forgets(v, i, last, c);
      assert !AtRest(After(v, t));
    } else {
      var i :| i in v.plans && v.plans[i].made != {};
      var last := Another(v.plans, i);
      var c :| c in v.plans[i].made;
      var t := Leaks(v, i, last, c);
      assert !AtRest(After(v, t));
    }
  }

  /**
    Any number of updates built from the installed snapshot end with exactly the installed checkers
    running, however they interleave, if and only if there is at most one, or all stop the same
    checkers and none of them has made any.
   */
  lemma EndsAtRestIff(v: World)
    requires Safe(v) && AllPending(v)
    ensures EndsAtRest(v) <==> AtMostOneMatters(v.plans)
  {
    if !AtMostOneMatters(v.plans) {
      SomeEndIsNot(v);
    } else {
      forall t | Complete(v, t)
        ensures AtRest(After(v, t))
      {
        if v.plans == map[] {
          NothingHappens(v, t);
          RestAgain(v);
        } else {
          EndIsRest(v, t);
        }
      }
    }
  }

  /** And they can always be brought to their end. */
  lemma CanComplete(v: World) returns (t: seq<Event>)
    requires Safe(v) && AllPending(v)
    ensures Complete(v, t)
  {
    if id :| id in v.plans {
      PendingFresh(v);
      t := EndWith(v, id);
    } else {
      t := [];
    }
  }

  // ---------------------------------------------------------------- a leak is for ever

  /** A running checker that is not installed, and that no update under way knows. */
  ghost predicate Orphan(w: World, c: Checker) {
    && c in w.current && c !in Ids(w.snap.checkers) && c.id < w.next
    && forall i :: i in w.plans ==> c !in w.plans[i].stops && c !in Ids(w.plans[i].result.checkers)
  }

  lemma OrphanPlan(w: World, u: Update, c: Checker)
    requires c !in Ids(w.snap.checkers) && c.id < w.next
    ensures c !in PlanFor(w, u).stops && c !in Ids(PlanFor(w, u).result.checkers) && w.next <= NextAfter(w, u)
  {
    if u.Full? {
      BuiltIds(u.cfg, w.next);
    } else {
      var was, now := w.snap.checkers, Updated(w.snap, u.pool, w.next).checkers;
      forall n | n in now
        ensures now[n] != c
      {
        if n in was {
          assert was[n] in Ids(was);
        }
      }
    }
  }

  lemma OrphanStep(w: World, e: Event, c: Checker)
    requires Orphan(w, c) && Enabled(w, e)
    ensures Orphan(Step(w, e), c)
  {
    if e.Begin? {
      OrphanPlan(w, e.update, c);
    }
  }

  /** Whatever updates come later, and however they overlap, none of them stops it. */
  lemma {:induction false} OrphanForever(w: World, t: seq<Event>, c: Checker)
    requires Orphan(w, c) && IsRun(w, t)
    ensures c in After(w, t).current && c !in Ids(After(w, t).snap.checkers)
    decreases |t|
  {
    if t != [] {
      OrphanStep(w, t[0], c);
      OrphanForever(Step(w, t[0]), t[1..], c);
    }
  }

  /** A leaked checker is one of these. */
  lemma LeakIsOrphan(v: World, i: nat, last: nat, c: Checker) returns (t: seq<Event>)
    requires Safe(v) && AllPending(v) && i in v.plans && last in v.plans && i != last && c in v.plans[i].made
    ensures Complete(v, t) && Orphan(After(v, t), c)
  {
    t := Leaks(v, i, last, c);
    PendingFresh(v);
    AllEnded(v, t);
    assert PlanOk(v, v.plans[i]);
  }

  // ---------------------------------------------------------------- two updates begun at rest

  /** Every installed checker runs at every step, and nothing else does in the end. */
  ghost predicate KeepsPromise(v: World) {
    StaysMonitored(v) && EndsAtRest(v)
  }

  lemma TwoMatter(plans: map<nat, Plan>, i: nat, p: Plan, j: nat, q: Plan)
    requires i != j && plans == map[i := p, j := q]
    ensures AtMostOneMatters(plans) <==> p.stops == q.stops && p.made == {} && q.made == {}
  {
    assert plans.Keys == {i, j};
    assert |plans| == |plans.Keys| == 2;
    BothSame(plans, i, j);
  }

  /** Two updates begun from the same snapshot at rest: exactly when overlapping does no harm at all. */
  lemma TwoHarmlessIff(w: World, i: nat, u: Update, j: nat, v: Update)
    requires AtRest(w) && i != j && Applies(w, i, u) && Applies(w, j, v)
    ensures KeepsPromise(BothBegun(w, i, u, j, v))
       <==>
            && SettingKept(w, u) && SettingKept(w, v) && OverlapSafe(w, u, v)
            && MakesNone(u) && MakesNone(v)
  {
    hide StopsOf, OverlapSafe, MakesNone, Safe, Applies, SettingKept, StaysMonitored, EndsAtRest, AtMostOneMatters;
    TwoOverlapIff(w, i, u, j, v);
    if SettingKept(w, u) && SettingKept(w, v) {
      var r, p, q := BothApply(w, i, u, j, v);
      EndsAtRestIff(r);
      TwoMatter(r.plans, i, p, j, q);
      SafeByNames(w, u, v);
    }
  }
}
