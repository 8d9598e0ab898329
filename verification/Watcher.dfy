/**
  The reload itself, from reading the file to stopping the old checkers (internal/reload/watcher.go),
  when no other update runs beside it.
 */
module Watcher {
  import opened Backend
  import opened Counting
  import opened Listeners
  import opened ListenerFields
  import opened Snapshots
  import opened Reload
  import opened Monitoring

  /** What reading and parsing the file gave. */
  datatype Source = Unreadable | Unparsable | Parsed(cfg: Config)

  /** How a reload ends: the first thing that goes wrong, or nothing. */
  datatype Outcome =
    | NotRead
    | NotParsed
    | Invalid
    | Rejected(diff: Diff)
    | NoCertificates(listener: string)
    | NotBuilt
    | Reloaded

  // ---------------------------------------------------------------- validation

  /** Names may not repeat; the remaining checks concern fields on their own. */
  method Validate(cfg: Config, fieldsOk: bool) returns (valid: bool)
    ensures valid <==> fieldsOk && UniquePools(cfg.pools) && UniqueListeners(cfg.listeners)
  {
    valid := fieldsOk;
    var poolNames: set<string> := {};
    for i := 0 to |cfg.pools|
      invariant forall n :: n in poolNames <==> exists k :: 0 <= k < i && cfg.pools[k].name == n
      invariant valid <==> fieldsOk && UniquePools(cfg.pools[..i])
    {
      var name := cfg.pools[i].name;
      if name in poolNames {
        valid := false;
      }
      poolNames := poolNames + {name};
    }
    assert cfg.pools[..|cfg.pools|] == cfg.pools;
    var listenerNames: set<string> := {};
    for i := 0 to |cfg.listeners|
      invariant forall n :: n in listenerNames <==> exists k :: 0 <= k < i && cfg.listeners[k].name == n
      invariant valid <==> fieldsOk && UniquePools(cfg.pools) && UniqueListeners(cfg.listeners[..i])
    {
      var name := cfg.listeners[i].name;
      if name in listenerNames {
        valid := false;
      }
      listenerNames := listenerNames + {name};
    }
    assert cfg.listeners[..|cfg.listeners|] == cfg.listeners;
  }

  // ---------------------------------------------------------------- certificates

  /** The certificates each terminating listener serves, by identity. */
  type Stores = map<string, nat>

  predicate HasStore(stores: Stores, l: Listener) {
    l.tlsMode == Some("terminate") && l.name in stores
  }

  /** The first listener whose certificates cannot be loaded. */
  function FirstUnloadable(stores: Stores, ls: seq<Listener>, load: string -> Option<nat>): Option<string>
    decreases |ls|
  {
    if ls == [] then None
    else if HasStore(stores, ls[0]) && load(ls[0].name).None? then Some(ls[0].name)
    else FirstUnloadable(stores, ls[1..], load)
  }

  /** One listener after the other, up to the first whose certificates cannot be loaded: earlier ones stay replaced. */
  function Refreshed(stores: Stores, ls: seq<Listener>, load: string -> Option<nat>): Stores
    decreases |ls|
  {
    if ls == [] then stores
    else if !HasStore(stores, ls[0]) then Refreshed(stores, ls[1..], load)
    else if load(ls[0].name).None? then stores
    else Refreshed(stores[ls[0].name := load(ls[0].name).value], ls[1..], load)
  }

  /** One of the first m listeners terminates TLS under that name. */
  ghost predicate Reloads(ls: seq<Listener>, m: nat, n: string) {
    exists k :: 0 <= k < m && k < |ls| && ls[k].name == n && ls[k].tlsMode == Some("terminate")
  }

  /**
    The listeners are gone through up to the first that terminates TLS, has a store, and whose
    certificates cannot be loaded: exactly the stores of those before it that terminate TLS hold what was
    loaded for them, and every other store holds what it held.
   */
  lemma {:induction false} CertificatesExact(stores: Stores, ls: seq<Listener>, load: string -> Option<nat>)
    returns (m: nat)
    ensures m <= |ls| && Refreshed(stores, ls, load).Keys == stores.Keys
    ensures forall k :: 0 <= k < m && ls[k].tlsMode == Some("terminate") && ls[k].name in stores ==>
                          load(ls[k].name).Some?
    ensures m == |ls| ==> FirstUnloadable(stores, ls, load) == None
    ensures m < |ls| ==>
              && ls[m].tlsMode == Some("terminate") && ls[m].name in stores && load(ls[m].name).None?
              && FirstUnloadable(stores, ls, load) == Some(ls[m].name)
    ensures forall n :: n in stores ==>
              if Reloads(ls, m, n) then load(n) == Some(Refreshed(stores, ls, load)[n])
              else Refreshed(stores, ls, load)[n] == stores[n]
    decreases |ls|
  {
    if ls == [] || (HasStore(stores, ls[0]) && load(ls[0].name).None?) {
      m := 0;
    } else {
      var l, rest := ls[0], ls[1..];
      var next := if HasStore(stores, l) then stores[l.name := load(l.name).value] else stores;
      var j := CertificatesExact(next, rest, load);
      SameKeys(stores, next, rest, load);
      m := j + 1;
      assert forall k :: 0 < k < |ls| ==> ls[k] == rest[k - 1];
      forall n | n in stores
        ensures Reloads(ls, m, n) <==> Reloads(rest, j, n) || (l.name == n && l.tlsMode == Some("terminate"))
      {
        if Reloads(rest, j, n) {
          var k :| 0 <= k < j && k < |rest| && rest[k].name == n && rest[k].tlsMode == Some("terminate");
          assert ls[k + 1] == rest[k];
        }
      }
    }
  }

  /** Only which stores there are matters to what can be loaded. */
  lemma {:induction false} SameKeys(a: Stores, b: Stores, ls: seq<Listener>, load: string -> Option<nat>)
    requires a.Keys == b.Keys
    ensures FirstUnloadable(a, ls, load) == FirstUnloadable(b, ls, load)
    decreases |ls|
  {
    if ls != [] {
      SameKeys(a, b, ls[1..], load);
    }
  }

  // ---------------------------------------------------------------- how a reload ends

  /** The outcomes after which certificates have been looked at. */
  predicate Reaches(r: Outcome) {
    r.NoCertificates? || r.NotBuilt? || r.Reloaded?
  }

  /** The outcome is the first obstacle there is. */
  ghost predicate Ends(r: Outcome, listeners: seq<Listener>, stores: Stores,
                       source: Source, fieldsOk: bool, load: string -> Option<nat>, buildOk: bool) {
    match source
    case Unreadable => r == NotRead
    case Unparsable => r == NotParsed
    case Parsed(cfg) =>
      if !fieldsOk || !UniquePools(cfg.pools) || !UniqueListeners(cfg.listeners) then r == Invalid
      else if !Reordered(listeners, cfg.listeners) then r.Rejected? && Explains(listeners, cfg.listeners, r.diff)
      else
        var failed := FirstUnloadable(stores, cfg.listeners, load);
        if failed.Some? then r == NoCertificates(failed.value)
        else r == if buildOk then Reloaded else NotBuilt
  }

  // ---------------------------------------------------------------- the steps a reload takes

  /** The steps of one reload of this configuration. */
  ghost predicate OneReload(cfg: Config, t: seq<Event>) {
    && t != [] && t[0] == Begin(0, Full(cfg), true)
    && forall k :: 0 < k < |t| ==> !t[k].Begin? && t[k].id == 0
  }

  lemma OneMoreStep(cfg: Config, t: seq<Event>, e: Event)
    requires OneReload(cfg, t) && !e.Begin? && e.id == 0
    ensures OneReload(cfg, t + [e])
  {
  }

  lemma {:induction false} Extended(w: World, t: seq<Event>, e: Event)
    requires IsRun(w, t) && Enabled(After(w, t), e)
    ensures IsRun(w, t + [e]) && After(w, t + [e]) == Step(After(w, t), e)
  {
    var r := After(w, t);
    assert [e][1..] == [];
    assert IsRun(Step(r, e), []) && After(Step(r, e), []) == Step(r, e);
    assert IsRun(r, [e]) && After(r, [e]) == Step(r, e);
    Concatenated(w, t, [e]);
  }

  lemma BeginReload(w: World, cfg: Config) returns (p: Plan)
    requires AtRest(w) && UniquePools(cfg.pools) && Accepts(w.snap.listeners, Fingerprints(cfg.listeners))
    ensures var r := Step(w, Begin(0, Full(cfg), true));
            Safe(r) && r == w.(plans := map[0 := p], next := w.next + Checked(cfg.pools, |cfg.pools|))
    ensures p == PlanFor(w, Full(cfg)) && p.base == w.version && p.stops == Ids(w.snap.checkers)
    ensures p.result == Built(cfg, w.next) && p.starts == Ids(p.result.checkers) && !p.swapped && p.waiting.None?
    ensures var t := [Begin(0, Full(cfg), true)];
            OneReload(cfg, t) && IsRun(w, t) && After(w, t) == Step(w, t[0])
  {
    AtRestSafe(w);
    StepKeeps(w, Begin(0, Full(cfg), true));
    p := PlanFor(w, Full(cfg));
    Extended(w, [], Begin(0, Full(cfg), true));
    assert [] + [Begin(0, Full(cfg), true)] == [Begin(0, Full(cfg), true)];
  }

  /** One more checker started, and the world is still safe. */
  lemma StartStep(w: World, p: Plan, c: Checker)
    requires Safe(w) && w.plans == map[0 := p] && !p.swapped && c in p.starts
    ensures Enabled(w, StartOne(0, c)) && Safe(Step(w, StartOne(0, c)))
    ensures Step(w, StartOne(0, c)) == Started(w, c).(plans := map[0 := p.(starts := p.starts - {c})])
  {
    StepKeeps(w, StartOne(0, c));
  }

  lemma SwapStep(w: World, p: Plan)
    requires Safe(w) && w.plans == map[0 := p] && !p.swapped && p.starts == {} && p.base == w.version
    ensures Enabled(w, Swap(0)) && Safe(Step(w, Swap(0)))
    ensures Step(w, Swap(0)) == w.(snap := p.result, version := w.version + 1, plans := map[0 := p.(swapped := true)])
  {
    StepKeeps(w, Swap(0));
  }

  lemma CancelStep(w: World, p: Plan, c: Checker)
    requires Safe(w) && w.plans == map[0 := p] && p.swapped && p.waiting.None? && c in p.stops
    ensures Enabled(w, Cancel(0, c)) && Safe(Step(w, Cancel(0, c))) && Alive(w, c) <= One(c in w.current)
    ensures Step(w, Cancel(0, c)) == Cancelled(w, c).(plans := map[0 := p.(stops := p.stops - {c}, waiting := Some(c))])
  {
    assert Alive(w, c) == Probing(w, c);
    StepKeeps(w, Cancel(0, c));
  }

  lemma WaitStep(w: World, p: Plan)
    requires Safe(w) && w.plans == map[0 := p] && p.waiting.Some? && Alive(w, p.waiting.value) == 0
    ensures Enabled(w, Wait(0)) && Safe(Step(w, Wait(0)))
    ensures Step(w, Wait(0)) == w.(plans := map[0 := p.(waiting := None)])
  {
    StepKeeps(w, Wait(0));
  }

  lemma EndStep(w: World, p: Plan)
    requires Safe(w) && w.plans == map[0 := p] && p.swapped && p.stops == {} && p.waiting.None?
    ensures Enabled(w, End(0)) && AtRest(Step(w, End(0))) && Step(w, End(0)) == w.(plans := map[])
  {
    StepKeeps(w, End(0));
    assert map[0 := p] - {0} == map[];
    RestAgain(Step(w, End(0)));
  }

  // ---------------------------------------------------------------- the running process

  class Runtime {
    var snap: Snapshot
    var alive: map<Checker, nat>
    var current: set<Checker>
    var next: nat
    var stores: Stores
    /** How many snapshots have been installed. */
    ghost var version: nat
    /** The listeners of the configuration that is running. */
    ghost var listeners: seq<Listener>

    ghost function During(plans: map<nat, Plan>): World
      reads this
    {
      World(snap, version, alive, current, next, plans)
    }

    ghost function Value(): World
      reads this
    {
      During(map[])
    }

    ghost predicate Valid()
      reads this
    {
      AtRest(Value()) && UniqueListeners(listeners) && snap.listeners == Fingerprints(listeners)
    }

    function AliveOf(c: Checker): nat
      reads this
    {
      if c in alive then alive[c] else 0
    }

    method Start(c: Checker)
      modifies this`alive, this`current
      ensures forall plans :: During(plans) == Started(old(During(plans)), c)
    {
      if c.watched > 0 {
        alive := alive[c := AliveOf(c) + 1];
      }
      current := current + {c};
    }

    /** Cancels, and waits for the probes to end, which they do if the cancelled group is the only one. */
    method Stop(c: Checker)
      requires AliveOf(c) <= One(c in current)
      modifies this`alive, this`current
      ensures AliveOf(c) == 0 && forall plans :: During(plans) == Cancelled(old(During(plans)), c)
    {
      if c in current && AliveOf(c) > 0 {
        alive := alive[c := AliveOf(c) - 1];
      }
      current := current - {c};
    }

    method RefreshCertificates(ls: seq<Listener>, load: string -> Option<nat>) returns (failed: Option<string>)
      modifies this`stores
      ensures failed == FirstUnloadable(old(stores), ls, load)
      ensures stores == Refreshed(old(stores), ls, load)
    {
      for i := 0 to |ls|
        invariant stores.Keys == old(stores).Keys
        invariant FirstUnloadable(old(stores), ls, load) == FirstUnloadable(old(stores), ls[i..], load)
        invariant Refreshed(old(stores), ls, load) == Refreshed(stores, ls[i..], load)
      {
        var l := ls[i];
        assert ls[i..][1..] == ls[i + 1..] && ls[i..][0] == l;
        if l.tlsMode == Some("terminate") && l.name in stores {
          var newCerts := load(l.name);
          if newCerts.None? {
            return Some(l.name);
          }
          stores := stores[l.name := newCerts.value];
        }
      }
      return None;
    }

    /** At startup: build, and start every checker. */
    constructor (cfg: Config, stores: Stores)
      requires UniquePools(cfg.pools) && UniqueListeners(cfg.listeners)
      ensures Valid() && this.stores == stores && snap == Built(cfg, 0) && listeners == cfg.listeners
    {
      var s, n := BuildSnapshot(cfg, 0);
      snap, next, this.stores, version, listeners := s, n, stores, 0, cfg.listeners;
      alive, current := map[], {};
      new;
      StartFirst(Ids(s.checkers));
      InitialAtRest(Value(), cfg);
    }

    method StartFirst(checkers: set<Checker>)
      requires current == {} && alive == map[]
      modifies this`alive, this`current
      ensures current == checkers && RunsOnce(Value())
    {
      var left := checkers;
      while left != {}
        invariant left <= checkers && current == checkers - left && RunsOnce(Value())
        decreases |left|
      {
        var c :| c in left;
        StartedOnce(Value(), c);
        Start(c);
        left := left - {c};
      }
    }

    ghost predicate Reached(w: World, cfg: Config, t: seq<Event>, p: Plan)
      reads this
    {
      OneReload(cfg, t) && IsRun(w, t) && After(w, t) == During(map[0 := p]) && Safe(During(map[0 := p]))
    }

    method StartNew(checkers: set<Checker>, ghost w: World, ghost cfg: Config, ghost run: seq<Event>, ghost p: Plan)
      returns (ghost t: seq<Event>)
      requires Reached(w, cfg, run, p) && !p.swapped && p.starts == checkers
      modifies this`alive, this`current
      ensures Reached(w, cfg, t, p.(starts := {}))
    {
      t := run;
      var left := checkers;
      while left != {}
        invariant Reached(w, cfg, t, p.(starts := left))
        decreases |left|
      {
        var c :| c in left;
        ghost var now := During(map[0 := p.(starts := left)]);
        StartStep(now, p.(starts := left), c);
        Extended(w, t, StartOne(0, c));
        OneMoreStep(cfg, t, StartOne(0, c));
        Start(c);
        t := t + [StartOne(0, c)];
        left := left - {c};
      }
    }

    method StopOld(checkers: set<Checker>, ghost w: World, ghost cfg: Config, ghost run: seq<Event>, ghost p: Plan)
      returns (ghost t: seq<Event>)
      requires Reached(w, cfg, run, p) && p.swapped && p.waiting.None? && p.stops == checkers
      modifies this`alive, this`current
      ensures Reached(w, cfg, t, p.(stops := {}))
    {
      t := run;
      var left := checkers;
      while left != {}
        invariant Reached(w, cfg, t, p.(stops := left))
        decreases |left|
      {
        var c :| c in left;
        t := StopOne(c, w, cfg, t, p.(stops := left));
        left := left - {c};
      }
    }

    method StopOne(c: Checker, ghost w: World, ghost cfg: Config, ghost run: seq<Event>, ghost p: Plan)
      returns (ghost t: seq<Event>)
      requires Reached(w, cfg, run, p) && p.swapped && p.waiting.None? && c in p.stops
      modifies this`alive, this`current
      ensures Reached(w, cfg, t, p.(stops := p.stops - {c}))
    {
      ghost var q := p.(stops := p.stops - {c}, waiting := Some(c));
      CancelStep(During(map[0 := p]), p, c);
      Extended(w, run, Cancel(0, c));
      OneMoreStep(cfg, run, Cancel(0, c));
      Stop(c);
      t := run + [Cancel(0, c)];
      assert After(w, t) == During(map[0 := q]);
      WaitStep(During(map[0 := q]), q);
      Extended(w, t, Wait(0));
      OneMoreStep(cfg, t, Wait(0));
      t := t + [Wait(0)];
      assert q.(waiting := None) == p.(stops := p.stops - {c});
    }

    /** Start the new checkers, swap, stop the old ones: the steps of one update, with nothing between them. */
    method Install(cfg: Config, newSnap: Snapshot, after: nat) returns (ghost t: seq<Event>)
      requires Valid() && UniquePools(cfg.pools) && UniqueListeners(cfg.listeners)
      requires Reordered(listeners, cfg.listeners)
      requires newSnap == Built(cfg, next) && after == next + Checked(cfg.pools, |cfg.pools|)
      modifies this`snap, this`alive, this`current, this`next, this`version, this`listeners
      ensures Valid() && snap == newSnap && next == after && listeners == cfg.listeners
      ensures OneReload(cfg, t) && IsRun(old(Value()), t) && Value() == After(old(Value()), t)
    {
      assert newSnap.listeners == Fingerprints(cfg.listeners);
      hide Safe, AtRest, OneReload, IsRun, After, Step, Enabled, Built, Ids, PlanFor, Accepts, UniquePools;
      AcceptsIff(listeners, cfg.listeners);
      ghost var w := Value();
      ghost var p := BeginReload(w, cfg);
      t := [Begin(0, Full(cfg), true)];
      var stops := Ids(snap.checkers);
      next := after;
      t := StartNew(Ids(newSnap.checkers), w, cfg, t, p);
      p := p.(starts := {});
      SwapStep(During(map[0 := p]), p);
      Extended(w, t, Swap(0));
      OneMoreStep(cfg, t, Swap(0));
      t := t + [Swap(0)];
      snap, version, listeners := newSnap, version + 1, cfg.listeners;
      p := p.(swapped := true);
      t := StopOld(stops, w, cfg, t, p);
      p := p.(stops := {});
      EndStep(During(map[0 := p]), p);
      Extended(w, t, End(0));
      OneMoreStep(cfg, t, End(0));
      t := t + [End(0)];
    }

    /**
      A reload on its own. It goes through exactly if the file is read, parsed and valid, the
      listeners are the same, and certificates and snapshot can be made; and then the process is
      where the steps of one update lead, with exactly the new checkers running. Otherwise the first
      obstacle is reported and neither the snapshot nor any checker is touched, only certificates of
      listeners before the one that failed may have been replaced.
     */
    method CheckAndReload(source: Source, fieldsOk: bool, load: string -> Option<nat>, buildOk: bool)
      returns (r: Outcome, ghost t: seq<Event>)
      requires Valid()
      modifies this
      ensures Valid()
      ensures Ends(r, old(listeners), old(stores), source, fieldsOk, load, buildOk)
      ensures listeners == if r.Reloaded? then source.cfg.listeners else old(listeners)
      ensures stores == if Reaches(r) then Refreshed(old(stores), source.cfg.listeners, load) else old(stores)
      ensures !r.Reloaded? ==> Value() == old(Value())
      ensures r.Reloaded? ==> snap == Built(source.cfg, old(next)) && current == Ids(snap.checkers)
      ensures r.Reloaded? ==>
                OneReload(source.cfg, t) && IsRun(old(Value()), t) && Value() == After(old(Value()), t)
    {
      t := [];
      if source.Unreadable? {
        return NotRead, [];
      }
      if source.Unparsable? {
        return NotParsed, [];
      }
      var newCfg := source.cfg;
      var valid := Validate(newCfg, fieldsOk);
      if !valid {
        return Invalid, [];
      }
      var fp := BuildFingerprints(newCfg.listeners);
      var diff := DiffListeners(snap.listeners, fp[..]);
      AcceptsIff(listeners, newCfg.listeners);
      if !diff.Same? {
        ReportExplains(listeners, newCfg.listeners, diff);
        return Rejected(diff), [];
      }
      var failed := RefreshCertificates(newCfg.listeners, load);
      if failed.Some? {
        return NoCertificates(failed.value), [];
      }
      if !buildOk {
        return NotBuilt, [];
      }
      var newSnap, after := BuildSnapshot(newCfg, next);
      t := Install(newCfg, newSnap, after);
      r := Reloaded;
    }
  }

  lemma InitialAtRest(w: World, cfg: Config)
    requires UniquePools(cfg.pools) && w.snap == Built(cfg, 0) && w.next == Checked(cfg.pools, |cfg.pools|)
    requires w.plans == map[] && w.current == Ids(w.snap.checkers) && RunsOnce(w)
    ensures AtRest(w)
  {
    var empty := World(Snapshot(map[], {}, [], map[]), 0, map[], {}, 0, map[]);
    FullPlan(empty, cfg);
    BuiltIds(cfg, 0);
  }
}
