/**
  How a new snapshot replaces the running one: start the new health checkers, swap, stop the old
  ones. Reloads of the configuration file, discovery polls and admin updates all do this, without
  a common lock, so their steps interleave (internal/reload/watcher.go, internal/runtime/poller.go,
  internal/admin/handlers.go).
 */
module Reload {
  import opened Backend
  import opened Listeners
  import opened ListenerFields
  import opened Snapshots

  /** A new configuration, or new upstreams for one pool. */
  datatype Update = Full(cfg: Config) | Partial(pool: Pool)

  /**
    An update under way, built from the snapshot it loaded (of version `base`): the checkers it made,
    those it has yet to start, what it will install, those it has yet to stop, and the one whose
    end it is waiting for.
   */
  datatype Plan = Plan(
    base: nat, made: set<Checker>, starts: set<Checker>, result: Snapshot,
    swapped: bool, stops: set<Checker>, waiting: Option<Checker>)

  /**
    A checker may be started more than once. Each start launches a group of probes, one for each
    backend it watches: `alive` counts its groups whose probes have not been cancelled, and it is in
    `current` from a start until its cancel function is called, which cancels the last group only.
    A checker without backends has no probes, so nothing of it is ever alive.
   */
  datatype World = World(
    snap: Snapshot, version: nat, alive: map<Checker, nat>, current: set<Checker>, next: nat, plans: map<nat, Plan>)

  datatype Event =
    | Begin(id: nat, update: Update, succeeds: bool) // load the snapshot and build; may fail to read, parse or build
    | StartOne(id: nat, c: Checker)
    | Swap(id: nat)
    | Cancel(id: nat, c: Checker)                    // the first half of Stop
    | Wait(id: nat)                                  // the second half
    | End(id: nat)

  function Alive(w: World, c: Checker): nat {
    if c in w.alive then w.alive[c] else 0
  }

  function Ids(m: map<string, Checker>): set<Checker> {
    set n | n in m :: m[n]
  }

  function IdOf(m: map<string, Checker>, name: string): set<Checker> {
    if name in m then {m[name]} else {}
  }

  function PlanFor(w: World, u: Update): Plan {
    match u
    case Full(cfg) =>
      var s := Built(cfg, w.next);
      Plan(w.version, Ids(s.checkers), Ids(s.checkers), s, false, Ids(w.snap.checkers), None)
    case Partial(p) =>
      var s := Updated(w.snap, p, w.next);
      Plan(w.version, if p.checked then {CheckerFor(p, w.next)} else {}, IdOf(s.checkers, p.name), s,
           false, IdOf(w.snap.checkers, p.name), None)
  }

  function NextAfter(w: World, u: Update): nat {
    match u
    case Full(cfg) => w.next + Checked(cfg.pools, |cfg.pools|)
    case Partial(_) => w.next + 1
  }

  /** A reload goes ahead only with pools of different names and the same listeners. */
  ghost predicate GoesAhead(w: World, e: Event)
    requires e.Begin?
  {
    && e.succeeds
    && (e.update.Full? ==>
          UniquePools(e.update.cfg.pools) && Accepts(w.snap.listeners, Fingerprints(e.update.cfg.listeners)))
  }

  ghost predicate Enabled(w: World, e: Event) {
    if e.Begin? then e.id !in w.plans
    else
      && e.id in w.plans
      && var p := w.plans[e.id];
         match e
         case StartOne(_, c) => !p.swapped && c in p.starts
         case Swap(_) => !p.swapped && p.starts == {}
         case Cancel(_, c) => p.swapped && p.waiting.None? && c in p.stops
         case Wait(_) => p.waiting.Some? && Alive(w, p.waiting.value) == 0
         case End(_) => p.swapped && p.stops == {} && p.waiting.None?
  }

  function Started(w: World, c: Checker): World {
    w.(alive := if c.watched > 0 then w.alive[c := Alive(w, c) + 1] else w.alive, current := w.current + {c})
  }

  function Cancelled(w: World, c: Checker): World {
    w.(alive := if c in w.current && Alive(w, c) > 0 then w.alive[c := Alive(w, c) - 1] else w.alive,
       current := w.current - {c})
  }

  ghost function Step(w: World, e: Event): World
    requires Enabled(w, e)
  {
    match e
    case Begin(id, u, _) =>
      if GoesAhead(w, e) then w.(plans := w.plans[id := PlanFor(w, u)], next := NextAfter(w, u)) else w
    case StartOne(id, c) =>
      Started(w, c).(plans := w.plans[id := w.plans[id].(starts := w.plans[id].starts - {c})])
    case Swap(id) =>
      w.(snap := w.plans[id].result, version := w.version + 1, plans := w.plans[id := w.plans[id].(swapped := true)])
    case Cancel(id, c) =>
      Cancelled(w, c).(plans := w.plans[id := w.plans[id].(stops := w.plans[id].stops - {c}, waiting := Some(c))])
    case Wait(id) => w.(plans := w.plans[id := w.plans[id].(waiting := None)])
    case End(id) => w.(plans := w.plans - {id})
  }

  ghost predicate IsRun(w: World, t: seq<Event>)
    decreases |t|
  {
    t == [] || (Enabled(w, t[0]) && IsRun(Step(w, t[0]), t[1..]))
  }

  ghost function After(w: World, t: seq<Event>): World
    requires IsRun(w, t)
    decreases |t|
  {
    if t == [] then w else After(Step(w, t[0]), t[1..])
  }

  lemma {:induction false} Concatenated(w: World, t: seq<Event>, u: seq<Event>)
    requires IsRun(w, t) && IsRun(After(w, t), u)
    ensures IsRun(w, t + u) && After(w, t + u) == After(After(w, t), u)
    decreases |t|
  {
    if t == [] {
      assert t + u == u;
    } else {
      Concatenated(Step(w, t[0]), t[1..], u);
      assert (t + u)[1..] == t[1..] + u;
    }
  }

  // ---------------------------------------------------------------- listeners never change

  ghost predicate SameListeners(fs: seq<Fingerprint>, s: Snapshot) {
    multiset(fs) == multiset(s.listeners)
  }

  ghost predicate ListenersKept(fs: seq<Fingerprint>, w: World) {
    && SameListeners(fs, w.snap)
    && forall id :: id in w.plans ==> SameListeners(fs, w.plans[id].result)
  }

  lemma UniqueNamesKept(a: seq<Fingerprint>, b: seq<Fingerprint>)
    requires UniqueNames(a) && multiset(a) == multiset(b)
    ensures UniqueNames(b)
  {
    forall i, j | 0 <= i < j < |b|
      ensures b[i].name != b[j].name
    {
      assert b[i] in multiset(a) && b[j] in multiset(a);
      var x :| 0 <= x < |a| && a[x] == b[i];
      var y :| 0 <= y < |a| && a[y] == b[j];
      if b[i].name == b[j].name {
        assert x == y;
        Distinct(a, b[i]);
        Twice(b, i, j);
      }
    }
  }

  lemma Twice(b: seq<Fingerprint>, i: nat, j: nat)
    requires i < j < |b| && b[i] == b[j]
    ensures multiset(b)[b[i]] >= 2
  {
    assert b == b[..j] + [b[j]] + b[j + 1..];
    assert b[..j][i] == b[i];
    assert b[i] in multiset(b[..j]);
  }

  lemma StepKeepsListeners(fs: seq<Fingerprint>, w: World, e: Event)
    requires UniqueNames(fs) && ListenersKept(fs, w) && Enabled(w, e)
    ensures ListenersKept(fs, Step(w, e))
  {
    if e.Begin? && GoesAhead(w, e) {
      UniqueNamesKept(fs, w.snap.listeners);
      if e.update.Full? {
        AcceptsReorderings(w.snap.listeners, Fingerprints(e.update.cfg.listeners));
      }
      assert SameListeners(fs, PlanFor(w, e.update).result);
    } else if !e.Begin? {
      assert SameListeners(fs, w.plans[e.id].result);
    }
  }

  /** Whatever updates interleave, from stale snapshots too, the installed listeners stay the same. */
  lemma {:induction false} ListenersNeverChange(fs: seq<Fingerprint>, w: World, t: seq<Event>)
    requires UniqueNames(fs) && ListenersKept(fs, w) && IsRun(w, t)
    ensures ListenersKept(fs, After(w, t))
    decreases |t|
  {
    if t != [] {
      StepKeepsListeners(fs, w, t[0]);
      ListenersNeverChange(fs, Step(w, t[0]), t[1..]);
    }
  }

  // ---------------------------------------------------------------- the listeners themselves

  /**
    The listeners of the configuration behind the installed snapshot after a run, from those behind
    the first: a reload brings its own, an update of one pool carries over those it found, and a swap
    installs them.
   */
  ghost function Behind(w: World, listeners: seq<Listener>, pending: map<nat, seq<Listener>>, t: seq<Event>)
    : seq<Listener>
    requires IsRun(w, t)
    decreases |t|
  {
    if t == [] then listeners
    else Behind(Step(w, t[0]), NowBehind(w, listeners, pending, t[0]), ToCome(w, listeners, pending, t[0]), t[1..])
  }

  ghost function NowBehind(w: World, listeners: seq<Listener>, pending: map<nat, seq<Listener>>, e: Event)
    : seq<Listener>
  {
    if e.Swap? && e.id in pending then pending[e.id] else listeners
  }

  ghost function ToCome(w: World, listeners: seq<Listener>, pending: map<nat, seq<Listener>>, e: Event)
    : map<nat, seq<Listener>>
  {
    if e.Begin? && GoesAhead(w, e) then pending[e.id := if e.update.Full? then e.update.cfg.listeners else listeners]
    else pending
  }

  /** The snapshot is of these listeners, and they are those it all began with. */
  ghost predicate Of(first: seq<Listener>, s: Snapshot, ls: seq<Listener>) {
    s.listeners == Fingerprints(ls) && Reordered(first, ls)
  }

  ghost predicate AllOf(first: seq<Listener>, w: World, listeners: seq<Listener>, pending: map<nat, seq<Listener>>) {
    && Of(first, w.snap, listeners)
    && forall id :: id in w.plans ==> id in pending && Of(first, w.plans[id].result, pending[id])
  }

  lemma StillUnique(first: seq<Listener>, ls: seq<Listener>)
    requires UniqueListeners(first) && Reordered(first, ls)
    ensures UniqueListeners(ls)
  {
    hide UniqueListeners, Reordered;
    var fs, gs := Fingerprints(first), Fingerprints(ls);
    AcceptsIff(first, ls);
    NamesOf(first);
    NamesOf(ls);
    AcceptsReorderings(fs, gs);
    UniqueNamesKept(fs, gs);
  }

  lemma NewOf(first: seq<Listener>, w: World, listeners: seq<Listener>, e: Event)
    requires UniqueListeners(first) && Of(first, w.snap, listeners) && e.Begin? && GoesAhead(w, e)
    ensures Of(first, PlanFor(w, e.update).result, if e.update.Full? then e.update.cfg.listeners else listeners)
  {
    if e.update.Full? {
      hide UniqueListeners, Reordered, Accepts;
      StillUnique(first, listeners);
      AcceptsIff(listeners, e.update.cfg.listeners);
      Reordering(first, listeners, e.update.cfg.listeners);
    }
  }

  lemma StepOf(
    first: seq<Listener>, w: World, listeners: seq<Listener>, pending: map<nat, seq<Listener>>, e: Event)
    requires UniqueListeners(first) && AllOf(first, w, listeners, pending) && Enabled(w, e)
    ensures AllOf(first, Step(w, e), NowBehind(w, listeners, pending, e), ToCome(w, listeners, pending, e))
  {
    hide UniqueListeners, Of;
    if e.Begin? && GoesAhead(w, e) {
      NewOf(first, w, listeners, e);
    }
  }

  lemma {:induction false} RunOf(
    first: seq<Listener>, w: World, listeners: seq<Listener>, pending: map<nat, seq<Listener>>, t: seq<Event>)
    requires UniqueListeners(first) && AllOf(first, w, listeners, pending) && IsRun(w, t)
    ensures Reordered(first, Behind(w, listeners, pending, t))
    decreases |t|
  {
    hide UniqueListeners;
    if t != [] {
      hide AllOf, Reordered;
      StepOf(first, w, listeners, pending, t[0]);
      RunOf(first, Step(w, t[0]), NowBehind(w, listeners, pending, t[0]), ToCome(w, listeners, pending, t[0]), t[1..]);
    }
  }

  /**
    From a snapshot built of a configuration, whatever updates interleave, the listeners of the
    configuration that is running are those of the first, in name, address, protocol and TLS mode.
   */
  lemma ListenersAgree(cfg: Config, next: nat, w: World, t: seq<Event>)
    requires UniqueListeners(cfg.listeners) && w.snap == Built(cfg, next) && w.plans == map[] && IsRun(w, t)
    ensures Reordered(cfg.listeners, Behind(w, cfg.listeners, map[], t))
  {
    ReorderedSelf(cfg.listeners);
    RunOf(cfg.listeners, w, cfg.listeners, map[], t);
  }
}
