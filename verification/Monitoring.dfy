/**
  That no pool is left without its health checker while snapshots are replaced: what makes it so,
  and what happens otherwise.
 */
module Monitoring {
  import opened Counting
  import opened Snapshots
  import opened Reload

  // ---------------------------------------------------------------- the conditions

  /** A partial update brings a checker, or its pool has none. */
  predicate SettingKept(w: World, u: Update) {
    u.Partial? ==> u.pool.checked || u.pool.name !in w.snap.checkers
  }

  /** Updates keep the health-check settings, and a swap replaces the very snapshot it was built from. */
  ghost predicate Orderly(w: World, e: Event)
    requires Enabled(w, e)
  {
    && (e.Begin? && GoesAhead(w, e) ==> SettingKept(w, e.update))
    && (e.Swap? ==> w.plans[e.id].base == w.version)
  }

  ghost predicate OrderlyRun(w: World, t: seq<Event>)
    requires IsRun(w, t)
    decreases |t|
  {
    t == [] || (Orderly(w, t[0]) && OrderlyRun(Step(w, t[0]), t[1..]))
  }

  // ---------------------------------------------------------------- what every orderly step keeps

  /** Every checker of the installed snapshot is running: started, and not stopped since. */
  ghost predicate Monitored(w: World) {
    Ids(w.snap.checkers) <= w.current
  }

  /** No two pools share a checker. */
  ghost predicate Injective(m: map<string, Checker>) {
    forall a, b :: a in m && b in m && m[a] == m[b] ==> a == b
  }

  ghost predicate Installed(s: Snapshot) {
    Injective(s.checkers) && Wired(s.pools, s.checkers)
  }

  function Waiting(p: Plan): set<Checker> {
    if p.waiting.Some? then {p.waiting.value} else {}
  }

  ghost predicate Below(w: World, cs: set<Checker>) {
    forall c :: c in cs ==> c.id < w.next
  }

  /** An update before its swap: the checkers it made are its own, and those it has started run. */
  ghost predicate Preparing(w: World, p: Plan) {
    && p.base <= w.version && p.waiting.None?
    && p.starts <= p.made && p.made - p.starts <= w.current && p.starts !! w.current
    && p.made !! Ids(w.snap.checkers) && p.made !! p.stops && p.made <= Ids(p.result.checkers)
    && Installed(p.result) && Below(w, p.made + p.stops)
  }

  /** If nothing else has been installed since: what it will keep, and what it will stop. */
  ghost predicate UpToDate(w: World, p: Plan) {
    && Ids(p.result.checkers) <= Ids(w.snap.checkers) + p.made
    && Ids(w.snap.checkers) <= Ids(p.result.checkers) + p.stops
    && p.stops !! Ids(p.result.checkers)
  }

  /** An update after its swap: it stops nothing that is installed. */
  ghost predicate Stopping(w: World, p: Plan) {
    && (p.stops + Waiting(p)) !! Ids(w.snap.checkers) && Waiting(p) !! w.current
    && Below(w, p.stops + Waiting(p)) && p.starts == {}
  }

  ghost predicate PlanOk(w: World, p: Plan) {
    if p.swapped then Stopping(w, p) else Preparing(w, p) && (p.base == w.version ==> UpToDate(w, p))
  }

  /** What one update has made, another neither makes nor stops. */
  ghost predicate Apart(p: Plan, q: Plan) {
    !p.swapped ==> p.made !! (q.stops + Waiting(q)) && (!q.swapped ==> p.made !! q.made)
  }

  /** The checkers an update answers for: those it has made, then those it has yet to stop. */
  function Owned(p: Plan): set<Checker> {
    if p.swapped then p.stops else p.made
  }

  /** Nothing runs that is not installed or owned by an update under way. */
  ghost predicate NoStrays(w: World) {
    forall c :: c in w.current ==> c in Ids(w.snap.checkers) || exists id :: id in w.plans && c in Owned(w.plans[id])
  }

  /** A running checker with backends to watch probes them once. */
  ghost predicate RunsOnce(w: World) {
    forall c :: Alive(w, c) == Probing(w, c)
  }

  function Probing(w: World, c: Checker): nat {
    One(c in w.current && c.watched > 0)
  }

  ghost predicate PlansOk(w: World) {
    && (forall id :: id in w.plans ==> PlanOk(w, w.plans[id]))
    && (forall i, j :: i in w.plans && j in w.plans && i != j ==> Apart(w.plans[i], w.plans[j]))
  }

  ghost predicate Safe(w: World) {
    && Monitored(w) && Installed(w.snap) && Below(w, w.current) && RunsOnce(w) && PlansOk(w) && NoStrays(w)
  }

  // ---------------------------------------------------------------- a new plan

  lemma BuiltIds(cfg: Config, next: nat)
    ensures forall c :: c in Ids(Built(cfg, next).checkers) ==> next <= c.id < next + Checked(cfg.pools, |cfg.pools|)
  {
    var m := Built(cfg, next).checkers;
    forall c | c in Ids(m)
      ensures next <= c.id < next + Checked(cfg.pools, |cfg.pools|)
    {
      var n :| n in m && m[n] == c;
      CheckerNew(cfg.pools, next, |cfg.pools|, n);
    }
  }

  ghost predicate NewPlan(w: World, p: Plan, next: nat) {
    && p.base == w.version && !p.swapped && p.waiting.None? && p.starts == p.made
    && w.next <= next && (forall c :: c in p.made ==> w.next <= c.id < next)
    && p.made <= Ids(p.result.checkers) && UpToDate(w, p) && p.stops <= Ids(w.snap.checkers)
    && Installed(p.result)
  }

  lemma FullPlan(w: World, cfg: Config)
    requires Below(w, Ids(w.snap.checkers)) && UniquePools(cfg.pools)
    ensures NewPlan(w, PlanFor(w, Full(cfg)), NextAfter(w, Full(cfg)))
  {
    BuiltIds(cfg, w.next);
    ReporterInstalled(cfg.pools, w.next, |cfg.pools|);
    var m := Built(cfg, w.next).checkers;
    forall a, b | a in m && b in m && m[a] == m[b]
      ensures a == b
    {
      if a != b {
        CheckersDistinct(cfg.pools, w.next, |cfg.pools|, a, b);
      }
    }
  }

  lemma PartialPlan(w: World, p: Pool)
    requires Below(w, Ids(w.snap.checkers)) && SettingKept(w, Partial(p)) && Installed(w.snap)
    ensures NewPlan(w, PlanFor(w, Partial(p)), NextAfter(w, Partial(p)))
  {
    var s := Updated(w.snap, p, w.next);
    UpdatedInstalled(w.snap, p, w.next);
    if p.checked {
      hide Installed, Below;
      assert s.checkers == w.snap.checkers[p.name := CheckerFor(p, w.next)];
      ReplacedIds(w.snap.checkers, p.name, CheckerFor(p, w.next));
    }
  }

  lemma UpdatedInstalled(s: Snapshot, p: Pool, next: nat)
    requires Installed(s) && (forall c :: c in Ids(s.checkers) ==> c.id < next)
    requires p.checked || p.name !in s.checkers
    ensures Installed(Updated(s, p, next))
  {
    assert forall n :: n in s.checkers ==> s.checkers[n] in Ids(s.checkers);
  }

  /** One checker in the place of another. */
  lemma ReplacedIds(m: map<string, Checker>, name: string, c: Checker)
    requires Injective(m) && c !in Ids(m)
    ensures Ids(m[name := c]) == Ids(m) - IdOf(m, name) + {c}
  {
    var now := m[name := c];
    assert now[name] == c;
    forall x | x in Ids(m) && x !in IdOf(m, name)
      ensures x in Ids(now)
    {
      var n :| n in m && m[n] == x;
      assert now[n] == x;
    }
  }

  // ---------------------------------------------------------------- each step

  lemma NewPlanOk(w: World, p: Plan, next: nat, r: World)
    requires Below(w, w.current + Ids(w.snap.checkers)) && NewPlan(w, p, next)
    requires r.snap == w.snap && r.version == w.version && r.current == w.current && r.next == next
    ensures PlanOk(r, p) && w.next <= next
  {
  }

  lemma BesideNew(w: World, p: Plan, next: nat, r: World, q: Plan)
    requires Below(w, Ids(w.snap.checkers)) && NewPlan(w, p, next) && PlanOk(w, q)
    requires r.snap == w.snap && r.version == w.version && r.current == w.current && r.next == next
    ensures PlanOk(r, q) && Apart(p, q) && Apart(q, p)
  {
    hide Injective, Wired;
  }

  lemma BeginKeeps(w: World, id: nat, p: Plan, next: nat, r: World)
    requires Safe(w) && id !in w.plans && NewPlan(w, p, next)
    requires r == w.(plans := w.plans[id := p], next := next)
    ensures Safe(r)
  {
    hide Injective, Wired, RunsOnce, NewPlan, PlanOk, Apart;
    NewPlanOk(w, p, next, r);
    forall i | i in w.plans
      ensures PlanOk(r, w.plans[i]) && Apart(p, w.plans[i]) && Apart(w.plans[i], p)
    {
      BesideNew(w, p, next, r, w.plans[i]);
    }
    forall c | c in r.current
      ensures c in Ids(r.snap.checkers) || exists i :: i in r.plans && c in Owned(r.plans[i])
    {
      if c !in Ids(w.snap.checkers) {
        var i :| i in w.plans && c in Owned(w.plans[i]);
        assert i in r.plans && r.plans[i] == w.plans[i];
      }
    }
    SameRuns(w, r);
  }

  /** What ran and was accounted for still is, when one plan moves on. */
  lemma NoStraysKept(w: World, id: nat, r: World)
    requires NoStrays(w) && id in w.plans && id in r.plans
    requires forall i :: i in w.plans && i != id ==> i in r.plans && r.plans[i] == w.plans[i]
    requires forall x :: x in r.current ==> x in w.current || x in Owned(r.plans[id])
    requires forall x :: x in r.current && (x in Ids(w.snap.checkers) || x in Owned(w.plans[id])) ==>
                           x in Ids(r.snap.checkers) || x in Owned(r.plans[id])
    ensures NoStrays(r)
  {
    forall x | x in r.current
      ensures x in Ids(r.snap.checkers) || exists i :: i in r.plans && x in Owned(r.plans[i])
    {
      if x in Ids(r.snap.checkers) {
      } else if x in Owned(r.plans[id]) {
        assert id in r.plans;
      } else {
        var i :| i in w.plans && x in Owned(w.plans[i]);
        assert i in r.plans && x in Owned(r.plans[i]);
      }
    }
  }

  lemma StartedOnce(w: World, c: Checker)
    requires RunsOnce(w) && c !in w.current
    ensures RunsOnce(Started(w, c))
  {
    var r := Started(w, c);
    forall x
      ensures Alive(r, x) == Probing(r, x)
    {
      assert Alive(w, x) == Probing(w, x);
    }
  }

  lemma CancelledOnce(w: World, c: Checker)
    requires RunsOnce(w)
    ensures RunsOnce(Cancelled(w, c))
  {
    var r := Cancelled(w, c);
    forall x
      ensures Alive(r, x) == Probing(r, x)
    {
      assert Alive(w, x) == Probing(w, x);
    }
  }

  lemma SameRuns(w: World, r: World)
    requires RunsOnce(w) && r.alive == w.alive && r.current == w.current
    ensures RunsOnce(r)
  {
    forall c
      ensures Alive(r, c) == Probing(r, c)
    {
      assert Alive(w, c) == Probing(w, c);
    }
  }

  lemma StartKeeps(w: World, id: nat, c: Checker)
    requires Safe(w) && Enabled(w, StartOne(id, c))
    ensures Safe(Step(w, StartOne(id, c)))
  {
    var r, p := Step(w, StartOne(id, c)), w.plans[id];
    assert PlanOk(w, p);
    assert PlanOk(r, r.plans[id]);
    forall i | i in w.plans && i != id
      ensures PlanOk(r, w.plans[i]) && Apart(r.plans[id], w.plans[i]) && Apart(w.plans[i], r.plans[id])
    {
      assert PlanOk(w, w.plans[i]) && Apart(p, w.plans[i]) && Apart(w.plans[i], p);
    }
    StartedOnce(w, c);
    SameRuns(Started(w, c), r);
    NoStraysKept(w, id, r);
  }

  lemma SwapKeeps(w: World, id: nat)
    requires Safe(w) && Enabled(w, Swap(id)) && w.plans[id].base == w.version
    ensures Safe(Step(w, Swap(id)))
  {
    var r, p := Step(w, Swap(id)), w.plans[id];
    assert PlanOk(w, p);
    assert PlanOk(r, r.plans[id]);
    forall i | i in w.plans && i != id
      ensures PlanOk(r, w.plans[i]) && Apart(r.plans[id], w.plans[i]) && Apart(w.plans[i], r.plans[id])
    {
      assert PlanOk(w, w.plans[i]) && Apart(p, w.plans[i]) && Apart(w.plans[i], p);
    }
    SameRuns(w, r);
    NoStraysKept(w, id, r);
  }

  lemma CancelKeeps(w: World, id: nat, c: Checker)
    requires Safe(w) && Enabled(w, Cancel(id, c))
    ensures Safe(Step(w, Cancel(id, c)))
  {
    var r, p := Step(w, Cancel(id, c)), w.plans[id];
    assert PlanOk(w, p);
    CancelledOnce(w, c);
    assert PlanOk(r, r.plans[id]);
    forall i | i in w.plans && i != id
      ensures PlanOk(r, w.plans[i]) && Apart(r.plans[id], w.plans[i]) && Apart(w.plans[i], r.plans[id])
    {
      assert PlanOk(w, w.plans[i]) && Apart(p, w.plans[i]) && Apart(w.plans[i], p);
    }
    SameRuns(Cancelled(w, c), r);
    NoStraysKept(w, id, r);
  }

  lemma WaitKeeps(w: World, id: nat)
    requires Safe(w) && Enabled(w, Wait(id))
    ensures Safe(Step(w, Wait(id)))
  {
    var r, p := Step(w, Wait(id)), w.plans[id];
    assert PlanOk(w, p);
    assert PlanOk(r, r.plans[id]);
    forall i | i in w.plans && i != id
      ensures PlanOk(r, w.plans[i]) && Apart(r.plans[id], w.plans[i]) && Apart(w.plans[i], r.plans[id])
    {
      assert PlanOk(w, w.plans[i]) && Apart(p, w.plans[i]) && Apart(w.plans[i], p);
    }
    SameRuns(w, r);
    NoStraysKept(w, id, r);
  }

  lemma EndKeeps(w: World, id: nat)
    requires Safe(w) && Enabled(w, End(id))
    ensures Safe(Step(w, End(id)))
  {
    var r := Step(w, End(id));
    forall i | i in r.plans
      ensures PlanOk(r, r.plans[i])
    {
      assert PlanOk(w, w.plans[i]);
    }
    forall i, j | i in r.plans && j in r.plans && i != j
      ensures Apart(r.plans[i], r.plans[j])
    {
      assert Apart(w.plans[i], w.plans[j]);
    }
    forall x | x in r.current && x !in Ids(r.snap.checkers)
      ensures exists i :: i in r.plans && x in Owned(r.plans[i])
    {
      var i :| i in w.plans && x in Owned(w.plans[i]);
      assert i in r.plans && r.plans[i] == w.plans[i];
    }
    SameRuns(w, r);
  }

  lemma StepKeeps(w: World, e: Event)
    requires Safe(w) && Enabled(w, e) && Orderly(w, e)
    ensures Safe(Step(w, e))
  {
    match e
    case Begin(id, u, _) =>
      if GoesAhead(w, e) {
        if u.Full? {
          FullPlan(w, u.cfg);
        } else {
          PartialPlan(w, u.pool);
        }
        BeginKeeps(w, id, PlanFor(w, u), NextAfter(w, u), Step(w, e));
      }
    case StartOne(id, c) => StartKeeps(w, id, c);
    case Swap(id) => SwapKeeps(w, id);
    case Cancel(id, c) => CancelKeeps(w, id, c);
    case Wait(id) => WaitKeeps(w, id);
    case End(id) => EndKeeps(w, id);
  }

  // ---------------------------------------------------------------- every orderly run

  lemma {:induction false} RunKeeps(w: World, t: seq<Event>)
    requires Safe(w) && IsRun(w, t) && OrderlyRun(w, t)
    ensures Safe(After(w, t))
    decreases |t|
  {
    if t != [] {
      StepKeeps(w, t[0]);
      RunKeeps(Step(w, t[0]), t[1..]);
    }
  }

  /** A world with no update under way, in which exactly the installed checkers run, once each. */
  ghost predicate AtRest(w: World) {
    && w.plans == map[] && w.current == Ids(w.snap.checkers) && RunsOnce(w)
    && Installed(w.snap) && Below(w, w.current)
  }

  lemma AtRestSafe(w: World)
    requires AtRest(w)
    ensures Safe(w)
  {
  }

  /** With no update under way, a safe world is at rest. */
  lemma RestAgain(w: World)
    requires Safe(w) && w.plans == map[]
    ensures AtRest(w)
  {
  }

  /**
    At every step of an orderly run every installed checker is running and no stop waits in vain;
    and whenever no update is under way, the running checkers are exactly the installed ones.
   */
  lemma AlwaysMonitored(w: World, t: seq<Event>)
    requires AtRest(w) && IsRun(w, t) && OrderlyRun(w, t)
    ensures Monitored(After(w, t))
    ensures forall id :: id in After(w, t).plans && After(w, t).plans[id].waiting.Some? ==>
                           Enabled(After(w, t), Wait(id))
    ensures After(w, t).plans == map[] ==> AtRest(After(w, t))
  {
    AtRestSafe(w);
    RunKeeps(w, t);
    var r := After(w, t);
    forall id | id in r.plans && r.plans[id].waiting.Some?
      ensures Enabled(r, Wait(id))
    {
      assert PlanOk(r, r.plans[id]);
      assert Alive(r, r.plans[id].waiting.value) == Probing(r, r.plans[id].waiting.value);
    }
  }

  // ---------------------------------------------------------------- one update at a time

  /** Each update begins when no other is under way, and keeps the health-check settings. */
  ghost predicate Serial(w: World, t: seq<Event>)
    requires IsRun(w, t)
    decreases |t|
  {
    t == [] || (&& (t[0].Begin? ==> w.plans == map[] && (GoesAhead(w, t[0]) ==> SettingKept(w, t[0].update)))
                && Serial(Step(w, t[0]), t[1..]))
  }

  /** At most one update is under way, and it has seen the installed snapshot. */
  ghost predicate AtMostOne(w: World) {
    && (forall i, j :: i in w.plans && j in w.plans ==> i == j)
    && (forall i :: i in w.plans && !w.plans[i].swapped ==> w.plans[i].base == w.version)
  }

  lemma {:induction false} SerialIsOrderly(w: World, t: seq<Event>)
    requires AtMostOne(w) && IsRun(w, t) && Serial(w, t)
    ensures OrderlyRun(w, t)
    decreases |t|
  {
    if t != [] {
      assert AtMostOne(Step(w, t[0]));
      SerialIsOrderly(Step(w, t[0]), t[1..]);
    }
  }

  /** Updates that run one at a time never leave a pool unwatched. */
  lemma SerialAlwaysMonitored(w: World, t: seq<Event>)
    requires AtRest(w) && IsRun(w, t) && Serial(w, t)
    ensures Monitored(After(w, t))
    ensures After(w, t).plans == map[] ==> AtRest(After(w, t))
  {
    SerialIsOrderly(w, t);
    AlwaysMonitored(w, t);
  }
}
