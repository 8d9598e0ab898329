/**
  Runtime snapshots and how they are built, whole from a configuration or from the current one with
  one pool replaced (internal/runtime/snapshot.go, partial_update.go, poller.go).
 */
module Snapshots {
  import opened Backend
  import opened Listeners

  /** A health checker: its identity, and how many backends it was made to watch. */
  datatype Checker = Checker(id: nat, watched: nat)

  datatype Upstream = Upstream(address: string, weight: int)

  /** The settings of a pool that reach its state; the upstreams are configured or discovered. */
  datatype Pool = Pool(
    name: string, algorithm: string, checked: bool, breakers: bool,
    sticky: Option<string>, retry: Option<string>, upstreams: seq<Upstream>)

  datatype PoolState = PoolState(
    algorithm: string, servers: seq<Upstream>, reporter: Option<Checker>,
    sticky: Option<string>, breakers: set<string>, retry: Option<string>)

  /** The certificate stores are given by the names of the listeners they are for. */
  datatype Snapshot = Snapshot(
    pools: map<string, PoolState>, certStores: set<string>, listeners: seq<Fingerprint>, checkers: map<string, Checker>)

  datatype Config = Config(listeners: seq<Listener>, pools: seq<Pool>)

  function Addresses(us: seq<Upstream>): set<string> {
    set u | u in us :: u.address
  }

  function CheckerFor(p: Pool, id: nat): Checker {
    Checker(id, |p.upstreams|)
  }

  /** The state of a pool, with a checker of that identity if it is checked. */
  function StateOf(p: Pool, id: nat): PoolState {
    PoolState(p.algorithm, p.upstreams, if p.checked then Some(CheckerFor(p, id)) else None,
              p.sticky, if p.breakers then Addresses(p.upstreams) else {}, p.retry)
  }

  // ---------------------------------------------------------------- a snapshot from a configuration

  /** The number of checkers the first k pools take. */
  function Checked(pools: seq<Pool>, k: nat): (n: nat)
    requires k <= |pools|
    ensures n <= k
  {
    if k == 0 then 0 else Checked(pools, k - 1) + if pools[k - 1].checked then 1 else 0
  }

  /** The states of the first k pools. */
  function PoolsOf(pools: seq<Pool>, next: nat, k: nat): map<string, PoolState>
    requires k <= |pools|
  {
    if k == 0 then map[]
    else PoolsOf(pools, next, k - 1)[pools[k - 1].name := StateOf(pools[k - 1], next + Checked(pools, k - 1))]
  }

  /** The checkers of the first k pools. */
  function CheckersOf(pools: seq<Pool>, next: nat, k: nat): map<string, Checker>
    requires k <= |pools|
  {
    if k == 0 then map[]
    else if !pools[k - 1].checked then CheckersOf(pools, next, k - 1)
    else CheckersOf(pools, next, k - 1)[pools[k - 1].name := CheckerFor(pools[k - 1], next + Checked(pools, k - 1))]
  }

  /** The listeners that terminate TLS. */
  function Terminating(ls: seq<Listener>): set<string> {
    set l | l in ls && l.tlsMode == Some("terminate") :: l.name
  }

  function Built(cfg: Config, next: nat): Snapshot {
    Snapshot(PoolsOf(cfg.pools, next, |cfg.pools|), Terminating(cfg.listeners), Fingerprints(cfg.listeners),
             CheckersOf(cfg.pools, next, |cfg.pools|))
  }

  /** Every setting of the pool is in its state. */
  ghost predicate Describes(st: PoolState, p: Pool) {
    && st.algorithm == p.algorithm && st.servers == p.upstreams && st.sticky == p.sticky && st.retry == p.retry
    && (st.reporter.Some? <==> p.checked) && (st.reporter.Some? ==> st.reporter.value.watched == |p.upstreams|)
    && (forall a :: a in st.breakers <==> p.breakers && exists u :: u in p.upstreams && u.address == a)
  }

  /** New checkers are numbered from `next`. */
  method BuildSnapshot(cfg: Config, next: nat) returns (s: Snapshot, after: nat)
    ensures s == Built(cfg, next) && after == next + Checked(cfg.pools, |cfg.pools|)
    ensures UniquePools(cfg.pools) ==>
              && (forall p :: p in cfg.pools ==> p.name in s.pools && Describes(s.pools[p.name], p))
              && (forall n :: n in s.pools ==> exists p :: p in cfg.pools && p.name == n)
    ensures forall n :: n in s.certStores <==>
                        exists l :: l in cfg.listeners && l.name == n && l.tlsMode == Some("terminate")
  {
    var pools: map<string, PoolState>, checkers: map<string, Checker> := map[], map[];
    after := next;
    for k := 0 to |cfg.pools|
      invariant after == next + Checked(cfg.pools, k)
      invariant pools == PoolsOf(cfg.pools, next, k) && checkers == CheckersOf(cfg.pools, next, k)
    {
      var p := cfg.pools[k];
      var reporter := None;
      var breakers := {};
      if p.breakers {
        breakers := Addresses(p.upstreams);
      }
      if p.checked {
        var hc := Checker(after, |p.upstreams|);
        reporter := Some(hc);
        checkers := checkers[p.name := hc];
        after := after + 1;
      }
      pools := pools[p.name := PoolState(p.algorithm, p.upstreams, reporter, p.sticky, breakers, p.retry)];
    }
    var certStores := BuildCertStores(cfg.listeners);
    var fp := BuildFingerprints(cfg.listeners);
    s := Snapshot(pools, certStores, fp[..], checkers);
    if UniquePools(cfg.pools) {
      AllDescribed(cfg.pools, next);
    }
  }

  /** Pool by pool, the built state has all the settings of the configuration, and there are no other pools. */
  lemma AllDescribed(pools: seq<Pool>, next: nat)
    requires UniquePools(pools)
    ensures var m := PoolsOf(pools, next, |pools|);
            && (forall p :: p in pools ==> p.name in m && Describes(m[p.name], p))
            && (forall n :: n in m ==> exists p :: p in pools && p.name == n)
  {
    var m := PoolsOf(pools, next, |pools|);
    forall p | p in pools
      ensures p.name in m && Describes(m[p.name], p)
    {
      var i :| 0 <= i < |pools| && pools[i] == p;
      PoolBuilt(pools, next, i, |pools|);
      StateDescribes(p, next + Checked(pools, i));
    }
    ReporterInstalled(pools, next, |pools|);
  }

  lemma StateDescribes(p: Pool, id: nat)
    ensures Describes(StateOf(p, id), p)
  {
  }

  method BuildCertStores(ls: seq<Listener>) returns (certStores: set<string>)
    ensures certStores == Terminating(ls)
  {
    certStores := {};
    for k := 0 to |ls|
      invariant certStores == Terminating(ls[..k])
    {
      if ls[k].tlsMode == Some("terminate") {
        certStores := certStores + {ls[k].name};
      }
    }
    assert ls[..|ls|] == ls;
  }

  lemma {:induction false} CheckerNew(pools: seq<Pool>, next: nat, k: nat, n: string)
    requires k <= |pools| && n in CheckersOf(pools, next, k)
    ensures next <= CheckersOf(pools, next, k)[n].id < next + Checked(pools, k)
  {
    if !pools[k - 1].checked || pools[k - 1].name != n {
      CheckerNew(pools, next, k - 1, n);
    }
  }

  /** The checkers of a built snapshot are new, and no two pools share one. */
  lemma {:induction false} CheckersDistinct(pools: seq<Pool>, next: nat, k: nat, m: string, n: string)
    requires k <= |pools| && m in CheckersOf(pools, next, k) && n in CheckersOf(pools, next, k) && m != n
    ensures CheckersOf(pools, next, k)[m] != CheckersOf(pools, next, k)[n]
  {
    var last := pools[k - 1];
    if last.checked && last.name == m {
      CheckerNew(pools, next, k - 1, n);
    } else if last.checked && last.name == n {
      CheckerNew(pools, next, k - 1, m);
    } else {
      CheckersDistinct(pools, next, k - 1, m, n);
    }
  }

  ghost predicate UniquePools(pools: seq<Pool>) {
    forall i, j :: 0 <= i < j < |pools| ==> pools[i].name != pools[j].name
  }

  /** Each pool of a configuration has its own state; its failures go to its own checker. */
  lemma {:induction false} PoolBuilt(pools: seq<Pool>, next: nat, i: nat, k: nat)
    requires UniquePools(pools) && i < k <= |pools|
    ensures var n := pools[i].name;
            && n in PoolsOf(pools, next, k)
            && PoolsOf(pools, next, k)[n] == StateOf(pools[i], next + Checked(pools, i))
    decreases k
  {
    if i < k - 1 {
      PoolBuilt(pools, next, i, k - 1);
    }
  }

  /** Each installed checker is the one its pool reports failures to, and watches that pool's servers. */
  ghost predicate Wired(pools: map<string, PoolState>, checkers: map<string, Checker>) {
    forall n :: n in checkers ==>
                  && n in pools && pools[n].reporter == Some(checkers[n])
                  && checkers[n].watched == |pools[n].servers|
  }

  /** Pool by pool, the checker that failures are reported to is the one installed for the pool. */
  lemma {:induction false} ReporterInstalled(pools: seq<Pool>, next: nat, k: nat)
    requires UniquePools(pools) && k <= |pools|
    ensures Wired(PoolsOf(pools, next, k), CheckersOf(pools, next, k))
    ensures forall n :: n in PoolsOf(pools, next, k) && PoolsOf(pools, next, k)[n].reporter.Some? ==>
                          n in CheckersOf(pools, next, k)
    ensures forall n :: n in PoolsOf(pools, next, k) ==> exists i :: 0 <= i < k && pools[i].name == n
  {
    if k > 0 {
      ReporterInstalled(pools, next, k - 1);
    }
  }

  // ---------------------------------------------------------------- one pool replaced

  /** A partial update does not carry the retry setting over. */
  function Updated(current: Snapshot, p: Pool, id: nat): Snapshot {
    Snapshot(current.pools[p.name := StateOf(p, id).(retry := None)], current.certStores, current.listeners,
             if p.checked then current.checkers[p.name := CheckerFor(p, id)] else current.checkers)
  }

  /** All but the pools of that name are the same, and so are the listeners and their certificate stores. */
  ghost predicate SameButFor(name: string, s: Snapshot, t: Snapshot) {
    && s.listeners == t.listeners && s.certStores == t.certStores
    && s.pools - {name} == t.pools - {name} && s.checkers - {name} == t.checkers - {name}
  }

  method UpdatePoolBackends(current: Snapshot, p: Pool, next: nat) returns (s: Snapshot)
    ensures s == Updated(current, p, next) && SameButFor(p.name, s, current)
    ensures p.name in s.pools && Describes(s.pools[p.name], p.(retry := None))
  {
    StateDescribes(p, next);
    var breakers := {};
    if p.breakers {
      breakers := Addresses(p.upstreams);
    }
    var reporter := None;
    if p.checked {
      reporter := Some(Checker(next, |p.upstreams|));
    }
    var pools := CopyMap(current.pools);
    pools := pools[p.name := PoolState(p.algorithm, p.upstreams, reporter, p.sticky, breakers, None)];
    var checkers := CopyMap(current.checkers);
    if p.checked {
      checkers := checkers[p.name := Checker(next, |p.upstreams|)];
    }
    s := Snapshot(pools, current.certStores, current.listeners, checkers);
  }

  /** Entry by entry, in no particular order. */
  method CopyMap<V>(m: map<string, V>) returns (r: map<string, V>)
    ensures r == m
  {
    r := map[];
    var left := m.Keys;
    while left != {}
      invariant left <= m.Keys && r.Keys == m.Keys - left
      invariant forall k :: k in r ==> k in m && r[k] == m[k]
      decreases |left|
    {
      var k :| k in left;
      r := r[k := m[k]];
      left := left - {k};
    }
  }

  /**
    The updated pool is the one a full build with these upstreams would make if and only if the
    pool has no retry setting.
   */
  lemma UpdateIsRebuildIff(current: Snapshot, cfg: Config, i: nat, next: nat, p: Pool, id: nat, s: Snapshot)
    requires UniquePools(cfg.pools) && i < |cfg.pools| && p == cfg.pools[i] && id == next + Checked(cfg.pools, i)
    requires s == Updated(current, p, id)
    ensures p.name in s.pools && p.name in Built(cfg, next).pools
    ensures s.pools[p.name] == Built(cfg, next).pools[p.name] <==> p.retry.None?
  {
    PoolBuilt(cfg.pools, next, i, |cfg.pools|);
    UpdatedPool(current, p, id);
    RetryDropped(p, id);
  }

  lemma RetryDropped(p: Pool, id: nat)
    ensures StateOf(p, id).(retry := None) == StateOf(p, id) <==> p.retry.None?
  {
  }

  lemma UpdatedPool(current: Snapshot, p: Pool, id: nat)
    ensures p.name in Updated(current, p, id).pools
    ensures Updated(current, p, id).pools[p.name] == StateOf(p, id).(retry := None)
  {
  }

  // ---------------------------------------------------------------- has a discovered set changed?

  function AddressList(us: seq<Upstream>): (r: seq<string>)
    ensures |r| == |us|
  {
    seq(|us|, i requires 0 <= i < |us| => us[i].address)
  }

  function CountOf(m: map<string, int>, a: string): int {
    if a in m then m[a] else 0
  }

  ghost predicate Counts(m: map<string, int>, ms: multiset<string>) {
    forall x :: CountOf(m, x) == ms[x]
  }

  method CountAddresses(a: seq<Upstream>) returns (counts: map<string, int>)
    ensures Counts(counts, multiset(AddressList(a)))
  {
    ghost var list := AddressList(a);
    counts := map[];
    for i := 0 to |a|
      invariant Counts(counts, multiset(list[..i]))
    {
      assert list[..i + 1] == list[..i] + [a[i].address];
      counts := counts[a[i].address := CountOf(counts, a[i].address) + 1];
    }
    assert list[..|a|] == list;
  }

  /** Compares the addresses with their number, in any order; a change of weight alone is not noticed. */
  method BackendSetsEqual(a: seq<Upstream>, b: seq<Upstream>) returns (same: bool)
    ensures same <==> multiset(AddressList(a)) == multiset(AddressList(b))
  {
    ghost var all, list := multiset(AddressList(a)), AddressList(b);
    assert |all| == |a| && |multiset(list)| == |b|;
    if |a| != |b| {
      return false;
    }
    var counts := CountAddresses(a);
    ghost var left := all;
    for i := 0 to |b|
      invariant multiset(list[..i]) + left == all && Counts(counts, left)
    {
      var address := b[i].address;
      TakeOne(list, i);
      if CountOf(counts, address) <= 0 {
        assert left[address] == 0;
        return false;
      }
      CountsTake(counts, left, address);
      left := left - multiset{address};
      counts := counts[address := CountOf(counts, address) - 1];
    }
    assert list[..|b|] == list;
    EqualBySize(multiset(list), all);
    return true;
  }

  lemma CountsTake(m: map<string, int>, left: multiset<string>, a: string)
    requires Counts(m, left) && CountOf(m, a) > 0
    ensures a in left && Counts(m[a := CountOf(m, a) - 1], left - multiset{a})
  {
    assert left[a] == CountOf(m, a);
  }

  lemma TakeOne(list: seq<string>, i: nat)
    requires i < |list|
    ensures multiset(list[..i + 1]) == multiset(list[..i]) + multiset{list[i]}
    ensures multiset(list)[list[i]] > multiset(list[..i])[list[i]]
  {
    assert list[..i + 1] == list[..i] + [list[i]];
    assert list == list[..i + 1] + list[i + 1..];
  }
}
