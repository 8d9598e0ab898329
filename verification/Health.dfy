/**
  Health hysteresis (internal/health/checker.go): active probes and passively reported failures.
 */
module Health {
  import opened Backend

  datatype Thresholds = Thresholds(healthy: int, unhealthy: int)

  /** The settings configuration validation lets through. */
  predicate Positive(c: Thresholds) {
    c.healthy > 0 && c.unhealthy > 0
  }

  // ---------------------------------------------------------------- one backend

  /** The two counters, and the server's flag. */
  datatype State = State(healthy: bool, successes: int, failures: int)

  datatype Event = ProbeOk | ProbeFailed | DialFailed

  function Start(healthy: bool): State {
    State(healthy, 0, 0)
  }

  function Step(c: Thresholds, s: State, e: Event): State {
    match e
    case ProbeOk =>
      if !s.healthy && s.successes + 1 >= c.healthy then State(true, 0, 0)
      else State(s.healthy, s.successes + 1, 0)
    case ProbeFailed =>
      if s.healthy && s.failures + 1 >= c.unhealthy then State(false, 0, 0)
      else State(s.healthy, 0, s.failures + 1)
    case DialFailed =>
      if s.healthy then State(false, 0, s.failures) else s
  }

  /** The state after the first k events. */
  function At(c: Thresholds, up: bool, t: seq<Event>, k: nat): State
    requires k <= |t|
  {
    if k == 0 then Start(up) else Step(c, At(c, up, t, k - 1), t[k - 1])
  }

  function Count(t: seq<Event>, e: Event, j: nat, k: nat): nat
    requires j <= k <= |t|
    decreases k
  {
    if j == k then 0 else Count(t, e, j, k - 1) + if t[k - 1] == e then 1 else 0
  }

  /** No probe has succeeded from event j up to k. */
  ghost predicate Failing(t: seq<Event>, j: nat, k: nat)
    requires j <= k <= |t|
  {
    forall m :: j <= m < k ==> t[m] != ProbeOk
  }

  /** Down from j up to k, and no probe has failed meanwhile. */
  ghost predicate Recovering(c: Thresholds, up: bool, t: seq<Event>, j: nat, k: nat)
    requires j <= k <= |t|
  {
    && (forall m :: j <= m <= k ==> !At(c, up, t, m).healthy)
    && (forall m :: j <= m < k ==> t[m] != ProbeFailed)
  }

  lemma {:induction false} Counters(c: Thresholds, up: bool, t: seq<Event>, k: nat)
    requires Positive(c) && k <= |t|
    ensures var s := At(c, up, t, k);
            && 0 <= s.successes && 0 <= s.failures
            && (s.healthy ==> s.failures < c.unhealthy) && (!s.healthy ==> s.successes < c.healthy)
  {
    if k > 0 {
      Counters(c, up, t, k - 1);
    }
  }

  lemma {:induction false} FailingCounted(c: Thresholds, up: bool, t: seq<Event>, k: nat) returns (j: nat)
    requires Positive(c) && k <= |t| && At(c, up, t, k).healthy
    ensures j <= k && Failing(t, j, k) && Count(t, ProbeFailed, j, k) == At(c, up, t, k).failures
  {
    if k == 0 || t[k - 1] == ProbeOk {
      j := k;
    } else {
      j := FailingCounted(c, up, t, k - 1);
    }
  }

  lemma {:induction false} FailingAtMost(c: Thresholds, up: bool, t: seq<Event>, j: nat, k: nat)
    requires Positive(c) && j <= k <= |t| && At(c, up, t, k).healthy && Failing(t, j, k)
    ensures Count(t, ProbeFailed, j, k) <= At(c, up, t, k).failures
    decreases k
  {
    Counters(c, up, t, k);
    if j < k {
      FailingAtMost(c, up, t, j, k - 1);
    }
  }

  /**
    A healthy backend goes down exactly on a reported dial failure, or on the probe failure that
    completes `unhealthy` failures in a row since its last successful probe.
   */
  lemma GoesDownExactly(c: Thresholds, up: bool, t: seq<Event>, k: nat)
    requires Positive(c) && k < |t| && At(c, up, t, k).healthy
    ensures !At(c, up, t, k + 1).healthy
       <==>
            || t[k] == DialFailed
            || (&& t[k] == ProbeFailed
                && exists j: nat :: j <= k && Failing(t, j, k) && Count(t, ProbeFailed, j, k) + 1 == c.unhealthy)
  {
    Counters(c, up, t, k);
    var j := FailingCounted(c, up, t, k);
    forall j: nat | j <= k && Failing(t, j, k)
      ensures Count(t, ProbeFailed, j, k) <= At(c, up, t, k).failures
    {
      FailingAtMost(c, up, t, j, k);
    }
  }

  lemma {:induction false} RecoveringCounted(c: Thresholds, up: bool, t: seq<Event>, k: nat) returns (j: nat)
    requires Positive(c) && k <= |t| && !At(c, up, t, k).healthy
    ensures j <= k && Recovering(c, up, t, j, k) && Count(t, ProbeOk, j, k) == At(c, up, t, k).successes
  {
    if k == 0 || t[k - 1] == ProbeFailed || At(c, up, t, k - 1).healthy {
      j := k;
    } else {
      j := RecoveringCounted(c, up, t, k - 1);
    }
  }

  lemma {:induction false} RecoveringAtMost(c: Thresholds, up: bool, t: seq<Event>, j: nat, k: nat)
    requires Positive(c) && j <= k <= |t| && Recovering(c, up, t, j, k)
    ensures Count(t, ProbeOk, j, k) <= At(c, up, t, k).successes
    decreases k
  {
    Counters(c, up, t, k);
    if j < k {
      RecoveringAtMost(c, up, t, j, k - 1);
    }
  }

  /** It comes back exactly on the probe that completes `healthy` successes in a row since it went down. */
  lemma ComesBackExactly(c: Thresholds, up: bool, t: seq<Event>, k: nat)
    requires Positive(c) && k < |t| && !At(c, up, t, k).healthy
    ensures At(c, up, t, k + 1).healthy
       <==>
            && t[k] == ProbeOk
            && exists j: nat :: j <= k && Recovering(c, up, t, j, k) && Count(t, ProbeOk, j, k) + 1 == c.healthy
  {
    Counters(c, up, t, k);
    var j := RecoveringCounted(c, up, t, k);
    forall j: nat | j <= k && Recovering(c, up, t, j, k)
      ensures Count(t, ProbeOk, j, k) <= At(c, up, t, k).successes
    {
      RecoveringAtMost(c, up, t, j, k);
    }
  }

  // ---------------------------------------------------------------- a pool

  /** A finished probe of one backend, or a failed dial reported for an address. */
  datatype PoolEvent = Probe(index: nat, ok: bool) | Report(address: string)

  /** The first backend at the address, or the number of backends. */
  function First(addresses: seq<string>, a: string): (i: nat)
    ensures i <= |addresses| && (i < |addresses| ==> addresses[i] == a) && a !in addresses[..i]
  {
    if addresses == [] || addresses[0] == a then 0
    else
      var i := First(addresses[1..], a);
      assert addresses[..1 + i] == [addresses[0]] + addresses[1..][..i];
      1 + i
  }

  /** What a pool event is for backend i, if anything. */
  function Seen(addresses: seq<string>, i: nat, e: PoolEvent): Option<Event> {
    match e
    case Probe(index, ok) => if index != i then None else Some(if ok then ProbeOk else ProbeFailed)
    case Report(a) => if First(addresses, a) != i then None else Some(DialFailed)
  }

  function StepIf(c: Thresholds, s: State, e: Option<Event>): State {
    match e
    case None => s
    case Some(x) => Step(c, s, x)
  }

  function PoolStep(c: Thresholds, addresses: seq<string>, ss: seq<State>, e: PoolEvent): (r: seq<State>)
    ensures |r| == |ss|
  {
    seq(|ss|, i requires 0 <= i < |ss| => StepIf(c, ss[i], Seen(addresses, i, e)))
  }

  class BackendHealth {
    const server: Server
    var consecutiveSuccess: int
    var consecutiveFailure: int

    constructor (server: Server)
      ensures this.server == server && consecutiveSuccess == 0 && consecutiveFailure == 0
    {
      this.server, consecutiveSuccess, consecutiveFailure := server, 0, 0;
    }

    function Value(): State
      reads this, server
    {
      State(server.healthy, consecutiveSuccess, consecutiveFailure)
    }

    method MarkFailed(ghost c: Thresholds)
      modifies this, server`healthy
      ensures Value() == Step(c, old(Value()), DialFailed)
    {
      if server.healthy {
        server.healthy := false;
        consecutiveSuccess := 0;
      }
    }

    method Apply(c: Thresholds, success: bool)
      modifies this, server`healthy
      ensures Value() == Step(c, old(Value()), if success then ProbeOk else ProbeFailed)
    {
      if success {
        consecutiveFailure := 0;
        consecutiveSuccess := consecutiveSuccess + 1;
        if !server.healthy && consecutiveSuccess >= c.healthy {
          server.healthy := true;
          consecutiveSuccess := 0;
        }
      } else {
        consecutiveSuccess := 0;
        consecutiveFailure := consecutiveFailure + 1;
        if server.healthy && consecutiveFailure >= c.unhealthy {
          server.healthy := false;
          consecutiveFailure := 0;
        }
      }
    }
  }

  class Checker {
    const config: Thresholds
    const backends: seq<BackendHealth>

    /** No two entries share a server, as the pool's servers are made one per entry. */
    ghost predicate Valid() {
      forall i, j :: 0 <= i < j < |backends| ==> backends[i] != backends[j] && backends[i].server != backends[j].server
    }

    ghost function Repr(): set<object> {
      (set b: BackendHealth | b in backends :: b as object) +
      (set b: BackendHealth | b in backends :: b.server as object)
    }

    function Addresses(): (r: seq<string>)
      ensures |r| == |backends|
    {
      seq(|backends|, i requires 0 <= i < |backends| => backends[i].server.address)
    }

    ghost function ValueAt(i: nat): State
      requires i < |backends|
      reads Repr()
    {
      var b := backends[i];
      assert b in backends && b in Repr() && b.server in Repr();
      b.Value()
    }

    ghost function Values(): (r: seq<State>)
      reads Repr()
      ensures |r| == |backends|
    {
      seq(|backends|, i requires 0 <= i < |backends| reads Repr() => ValueAt(i))
    }

    constructor (config: Thresholds, backends: seq<BackendHealth>)
      ensures this.config == config && this.backends == backends
    {
      this.config, this.backends := config, backends;
    }

    method RunCheck(index: nat, success: bool)
      requires Valid() && index < |backends|
      modifies Repr()
      ensures Values() == PoolStep(config, Addresses(), old(Values()), Probe(index, success))
    {
      var bh := backends[index];
      assert bh in backends && bh in Repr() && bh.server in Repr();
      bh.Apply(config, success);
    }

    method ReportFailure(address: string)
      requires Valid()
      modifies Repr()
      ensures Values() == PoolStep(config, Addresses(), old(Values()), Report(address))
    {
      var i := 0;
      while i < |backends|
        invariant i <= First(Addresses(), address) && i <= |backends|
        invariant Values() == old(Values())
      {
        var bh := backends[i];
        if bh.server.address == address {
          assert Addresses()[i] == address;
          assert bh in backends && bh in Repr() && bh.server in Repr();
          bh.MarkFailed(config);
          return;
        }
        i := i + 1;
      }
    }
  }

  // ---------------------------------------------------------------- backends do not disturb each other

  function PoolRun(c: Thresholds, addresses: seq<string>, ss: seq<State>, t: seq<PoolEvent>): (r: seq<State>)
    ensures |r| == |ss|
    decreases |t|
  {
    if t == [] then ss else PoolRun(c, addresses, PoolStep(c, addresses, ss, t[0]), t[1..])
  }

  /** The events backend i sees. */
  function Own(addresses: seq<string>, i: nat, t: seq<PoolEvent>): seq<Event> {
    if t == [] then [] else
      var e := Seen(addresses, i, t[0]);
      (if e.Some? then [e.value] else []) + Own(addresses, i, t[1..])
  }

  function Run(c: Thresholds, s: State, t: seq<Event>): State
    decreases |t|
  {
    if t == [] then s else Run(c, Step(c, s, t[0]), t[1..])
  }

  /** In any run of a pool, each backend's state is that of its own events alone. */
  lemma {:induction false} BackendsIndependent(
    c: Thresholds, addresses: seq<string>, ss: seq<State>, t: seq<PoolEvent>, i: nat)
    requires i < |ss|
    ensures PoolRun(c, addresses, ss, t)[i] == Run(c, ss[i], Own(addresses, i, t))
    decreases |t|
  {
    if t != [] {
      var next := PoolStep(c, addresses, ss, t[0]);
      BackendsIndependent(c, addresses, next, t[1..], i);
      var e, rest := Seen(addresses, i, t[0]), Own(addresses, i, t[1..]);
      if e.Some? {
        assert ([e.value] + rest)[1..] == rest;
      } else {
        assert [] + rest == rest;
      }
    }
  }

  lemma {:induction false} RunSplit(c: Thresholds, s: State, t: seq<Event>, e: Event)
    ensures Run(c, s, t + [e]) == Step(c, Run(c, s, t), e)
    decreases |t|
  {
    if t != [] {
      assert (t + [e])[1..] == t[1..] + [e];
      RunSplit(c, Step(c, s, t[0]), t[1..], e);
    }
  }

  /** The two ways of running agree. */
  lemma {:induction false} RunIsAt(c: Thresholds, up: bool, t: seq<Event>, k: nat)
    requires k <= |t|
    ensures Run(c, Start(up), t[..k]) == At(c, up, t, k)
  {
    if k > 0 {
      RunIsAt(c, up, t, k - 1);
      RunSplit(c, Start(up), t[..k - 1], t[k - 1]);
      assert t[..k] == t[..k - 1] + [t[k - 1]];
    }
  }

  // ---------------------------------------------------------------- one backend of a pool

  function Starts(ups: seq<bool>): (ss: seq<State>)
    ensures |ss| == |ups|
  {
    seq(|ups|, i requires 0 <= i < |ups| => Start(ups[i]))
  }

  lemma {:induction false} OwnAppend(addresses: seq<string>, i: nat, t: seq<PoolEvent>, e: PoolEvent)
    ensures Own(addresses, i, t + [e]) ==
            Own(addresses, i, t) + if Seen(addresses, i, e).Some? then [Seen(addresses, i, e).value] else []
    decreases |t|
  {
    if t == [] {
      assert [] + [e] == [e] && [e][1..] == [];
    } else {
      assert (t + [e])[1..] == t[1..] + [e];
      OwnAppend(addresses, i, t[1..], e);
    }
  }

  /** In a run of the pool, backend i is where its own events take it. */
  lemma PoolAt(c: Thresholds, addresses: seq<string>, ups: seq<bool>, t: seq<PoolEvent>, i: nat)
    requires i < |ups|
    ensures var own := Own(addresses, i, t);
            PoolRun(c, addresses, Starts(ups), t)[i] == At(c, ups[i], own, |own|)
  {
    var own := Own(addresses, i, t);
    BackendsIndependent(c, addresses, Starts(ups), t, i);
    RunIsAt(c, ups[i], own, |own|);
    assert own[..|own|] == own;
  }

  /** The state of backend i before and after one more pool event, as positions in its own trace. */
  lemma PoolNext(c: Thresholds, addresses: seq<string>, ups: seq<bool>, t: seq<PoolEvent>, e: PoolEvent, i: nat)
    returns (own: seq<Event>, next: seq<Event>)
    requires i < |ups|
    ensures own == Own(addresses, i, t) && next == Own(addresses, i, t + [e])
    ensures next == own + if Seen(addresses, i, e).Some? then [Seen(addresses, i, e).value] else []
    ensures PoolRun(c, addresses, Starts(ups), t)[i] == At(c, ups[i], next, |own|)
    ensures PoolRun(c, addresses, Starts(ups), t + [e])[i] == At(c, ups[i], next, |next|)
  {
    own, next := Own(addresses, i, t), Own(addresses, i, t + [e]);
    OwnAppend(addresses, i, t, e);
    PoolAt(c, addresses, ups, t, i);
    PoolAt(c, addresses, ups, t + [e], i);
    SamePrefix(c, ups[i], own, next, |own|);
  }

  lemma {:induction false} SamePrefix(c: Thresholds, up: bool, t: seq<Event>, u: seq<Event>, k: nat)
    requires k <= |t| && k <= |u| && t[..k] == u[..k]
    ensures At(c, up, t, k) == At(c, up, u, k)
  {
    if k > 0 {
      assert t[k - 1] == t[..k][k - 1] && u[k - 1] == u[..k][k - 1];
      assert t[..k - 1] == t[..k][..k - 1] && u[..k - 1] == u[..k][..k - 1];
      SamePrefix(c, up, t, u, k - 1);
    }
  }

  /** Enough probes of the backend have failed in a row, in the pool's run so far, for one more to take it down. */
  ghost predicate DownNext(c: Thresholds, own: seq<Event>) {
    exists j: nat :: j <= |own| && Failing(own, j, |own|) && Count(own, ProbeFailed, j, |own|) + 1 == c.unhealthy
  }

  /** Enough have succeeded in a row since it went down for one more to bring it back. */
  ghost predicate BackNext(c: Thresholds, up: bool, own: seq<Event>) {
    exists j: nat :: BackAt(c, up, own, j)
  }

  ghost predicate BackAt(c: Thresholds, up: bool, own: seq<Event>, j: nat) {
    j <= |own| && Recovering(c, up, own, j, |own|) && Count(own, ProbeOk, j, |own|) + 1 == c.healthy
  }

  lemma {:induction false} CountPrefix(t: seq<Event>, u: seq<Event>, e: Event, j: nat, k: nat)
    requires j <= k <= |t| && k <= |u| && t[..k] == u[..k]
    ensures Count(t, e, j, k) == Count(u, e, j, k)
    decreases k
  {
    if j < k {
      assert t[k - 1] == t[..k][k - 1] && u[k - 1] == u[..k][k - 1];
      assert t[..k - 1] == t[..k][..k - 1] && u[..k - 1] == u[..k][..k - 1];
      CountPrefix(t, u, e, j, k - 1);
    }
  }

  lemma FailingPrefix(t: seq<Event>, u: seq<Event>, j: nat, k: nat)
    requires j <= k <= |t| && k <= |u| && t[..k] == u[..k]
    ensures Failing(t, j, k) <==> Failing(u, j, k)
  {
    assert forall m :: j <= m < k ==> t[m] == t[..k][m] && u[m] == u[..k][m];
  }

  lemma RecoveringPrefix(c: Thresholds, up: bool, t: seq<Event>, u: seq<Event>, j: nat, k: nat)
    requires j <= k <= |t| && k <= |u| && t[..k] == u[..k]
    ensures Recovering(c, up, t, j, k) <==> Recovering(c, up, u, j, k)
  {
    assert forall m :: j <= m < k ==> t[m] == t[..k][m] && u[m] == u[..k][m];
    forall m | j <= m <= k
      ensures At(c, up, t, m) == At(c, up, u, m)
    {
      assert t[..m] == t[..k][..m] && u[..m] == u[..k][..m];
      SamePrefix(c, up, t, u, m);
    }
  }

  lemma DownAfter(c: Thresholds, addresses: seq<string>, ups: seq<bool>, t: seq<PoolEvent>, e: PoolEvent, i: nat)
    requires Positive(c) && i < |ups| && PoolRun(c, addresses, Starts(ups), t)[i].healthy
    ensures !PoolRun(c, addresses, Starts(ups), t + [e])[i].healthy
       <==>
            || Seen(addresses, i, e) == Some(DialFailed)
            || (Seen(addresses, i, e) == Some(ProbeFailed) && DownNext(c, Own(addresses, i, t)))
  {
    var own, next := PoolNext(c, addresses, ups, t, e, i);
    if Seen(addresses, i, e).Some? {
      var k := |own|;
      assert next[..k] == own[..k];
      GoesDownExactly(c, ups[i], next, k);
      forall j: nat | j <= k
        ensures Failing(next, j, k) <==> Failing(own, j, k)
        ensures Count(next, ProbeFailed, j, k) == Count(own, ProbeFailed, j, k)
      {
        FailingPrefix(next, own, j, k);
        CountPrefix(next, own, ProbeFailed, j, k);
      }
    }
  }

  lemma BackAfter(c: Thresholds, addresses: seq<string>, ups: seq<bool>, t: seq<PoolEvent>, e: PoolEvent, i: nat)
    requires Positive(c) && i < |ups| && !PoolRun(c, addresses, Starts(ups), t)[i].healthy
    ensures PoolRun(c, addresses, Starts(ups), t + [e])[i].healthy
       <==> Seen(addresses, i, e) == Some(ProbeOk) && BackNext(c, ups[i], Own(addresses, i, t))
  {
    var own, next := PoolNext(c, addresses, ups, t, e, i);
    if Seen(addresses, i, e).Some? {
      var k := |own|;
      assert next[..k] == own[..k];
      ComesBackExactly(c, ups[i], next, k);
      forall j: nat | j <= k
        ensures BackAt(c, ups[i], own, j) <==>
                Recovering(c, ups[i], next, j, k) && Count(next, ProbeOk, j, k) + 1 == c.healthy
      {
        RecoveringPrefix(c, ups[i], next, own, j, k);
        CountPrefix(next, own, ProbeOk, j, k);
      }
    }
  }

  // ---------------------------------------------------------------- in terms of the pool's run alone

  /** How often an event occurs. */
  function Number<T(==)>(t: seq<T>, e: T): nat {
    if t == [] then 0 else (if t[0] == e then 1 else 0) + Number(t[1..], e)
  }

  lemma {:induction false} NumberLast<T>(t: seq<T>, e: T, last: T)
    ensures Number(t + [last], e) == Number(t, e) + if last == e then 1 else 0
  {
    if t == [] {
      assert [] + [last] == [last] && [last][1..] == [];
    } else {
      assert (t + [last])[1..] == t[1..] + [last];
      NumberLast(t[1..], e, last);
    }
  }

  lemma {:induction false} CountIsNumber(t: seq<Event>, e: Event, j: nat, k: nat)
    requires j <= k <= |t|
    ensures Count(t, e, j, k) == Number(t[j..k], e)
    decreases k
  {
    if j < k {
      CountIsNumber(t, e, j, k - 1);
      NumberLast(t[j..k - 1], e, t[k - 1]);
      assert t[j..k] == t[j..k - 1] + [t[k - 1]];
    }
  }

  lemma {:induction false} NumberNone<T>(t: seq<T>, e: T)
    ensures Number(t, e) == 0 <==> e !in t
  {
    if t != [] {
      NumberNone(t[1..], e);
      assert t == [t[0]] + t[1..];
    }
  }

  /** Backend i is the first at the address. */
  predicate Hit(addresses: seq<string>, i: nat, a: string) {
    i < |addresses| && addresses[i] == a && a !in addresses[..i]
  }

  lemma FirstHit(addresses: seq<string>, i: nat, a: string)
    requires i < |addresses|
    ensures First(addresses, a) == i <==> Hit(addresses, i, a)
  {
    var f := First(addresses, a);
    if f < i {
      assert a == addresses[..i][f];
    } else if i < f {
      assert addresses[i] == addresses[..f][i];
    }
  }

  /** A backend's own probes are its probes in the pool. */
  lemma {:induction false} OwnNumber(addresses: seq<string>, i: nat, t: seq<PoolEvent>)
    ensures Number(Own(addresses, i, t), ProbeOk) == Number(t, Probe(i, true))
    ensures Number(Own(addresses, i, t), ProbeFailed) == Number(t, Probe(i, false))
  {
    if t != [] {
      OwnNumber(addresses, i, t[1..]);
      var e, rest := Seen(addresses, i, t[0]), Own(addresses, i, t[1..]);
      if e.Some? {
        assert ([e.value] + rest)[1..] == rest;
      } else {
        assert [] + rest == rest;
      }
    }
  }

  lemma {:induction false} OwnSplit(addresses: seq<string>, i: nat, t: seq<PoolEvent>, j: nat)
    requires j <= |t|
    ensures Own(addresses, i, t) == Own(addresses, i, t[..j]) + Own(addresses, i, t[j..])
    decreases |t|
  {
    if j == 0 {
      assert t[..0] == [] && t[0..] == t;
    } else {
      OwnSplit(addresses, i, t[1..], j - 1);
      assert t[..j][1..] == t[1..][..j - 1] && t[1..][j - 1..] == t[j..];
    }
  }

  /** Where in the pool's run a backend had seen that many events. */
  lemma {:induction false} WhenSeen(addresses: seq<string>, i: nat, t: seq<PoolEvent>, n: nat, from: nat)
    returns (j: nat)
    requires from <= |t| && |Own(addresses, i, t[..from])| <= n <= |Own(addresses, i, t)|
    ensures from <= j <= |t| && |Own(addresses, i, t[..j])| == n
    decreases |t| - from
  {
    if |Own(addresses, i, t[..from])| == n {
      j := from;
    } else {
      assert t[..|t|] == t;
      assert t[..from + 1] == t[..from] + [t[from]];
      OwnAppend(addresses, i, t[..from], t[from]);
      j := WhenSeen(addresses, i, t, n, from + 1);
    }
  }

  /** From event j on, the backend's own events. */
  lemma OwnFrom(addresses: seq<string>, i: nat, t: seq<PoolEvent>, j: nat, n: nat)
    requires j <= |t| && n == |Own(addresses, i, t[..j])|
    ensures n <= |Own(addresses, i, t)| && Own(addresses, i, t)[n..] == Own(addresses, i, t[j..])
    ensures Own(addresses, i, t)[..n] == Own(addresses, i, t[..j])
  {
    OwnSplit(addresses, i, t, j);
  }

  lemma FailingFrom(addresses: seq<string>, i: nat, t: seq<PoolEvent>, j: nat, n: nat)
    requires j <= |t| && n == |Own(addresses, i, t[..j])| <= |Own(addresses, i, t)|
    ensures var own := Own(addresses, i, t);
            && (Failing(own, n, |own|) <==> Probe(i, true) !in t[j..])
            && Count(own, ProbeFailed, n, |own|) == Number(t[j..], Probe(i, false))
            && Count(own, ProbeOk, n, |own|) == Number(t[j..], Probe(i, true))
            && ((forall m :: n <= m < |own| ==> own[m] != ProbeFailed) <==> Probe(i, false) !in t[j..])
  {
    var own := Own(addresses, i, t);
    OwnFrom(addresses, i, t, j, n);
    OwnNumber(addresses, i, t[j..]);
    assert own[n..|own|] == own[n..];
    CountIsNumber(own, ProbeFailed, n, |own|);
    CountIsNumber(own, ProbeOk, n, |own|);
    NumberNone(own[n..], ProbeOk);
    NumberNone(own[n..], ProbeFailed);
    NumberNone(t[j..], Probe(i, true));
    NumberNone(t[j..], Probe(i, false));
    AnyFrom(own, n, ProbeOk);
    AnyFrom(own, n, ProbeFailed);
  }

  lemma AnyFrom(t: seq<Event>, n: nat, e: Event)
    requires n <= |t|
    ensures e !in t[n..] <==> forall m :: n <= m < |t| ==> t[m] != e
  {
    forall m | n <= m < |t|
      ensures t[m] in t[n..]
    {
      assert t[n..][m - n] == t[m];
    }
  }

  /** No probe of backend i has succeeded since event j, and one more failed one completes the threshold. */
  ghost predicate DownDue(c: Thresholds, t: seq<PoolEvent>, i: nat, j: nat) {
    j <= |t| && Probe(i, true) !in t[j..] && Number(t[j..], Probe(i, false)) + 1 == c.unhealthy
  }

  lemma DownNextIff(c: Thresholds, addresses: seq<string>, t: seq<PoolEvent>, i: nat)
    ensures DownNext(c, Own(addresses, i, t)) <==> exists j: nat :: DownDue(c, t, i, j)
  {
    var own := Own(addresses, i, t);
    forall j: nat | DownDue(c, t, i, j)
      ensures DownNext(c, own)
    {
      var n := |Own(addresses, i, t[..j])|;
      OwnFrom(addresses, i, t, j, n);
      FailingFrom(addresses, i, t, j, n);
    }
    if DownNext(c, own) {
      var n: nat :| n <= |own| && Failing(own, n, |own|) && Count(own, ProbeFailed, n, |own|) + 1 == c.unhealthy;
      assert t[..0] == [];
      var j := WhenSeen(addresses, i, t, n, 0);
      FailingFrom(addresses, i, t, j, n);
      assert DownDue(c, t, i, j);
    }
  }

  /** Backend i has been down since event j, none of its probes has failed, and one more successful one is enough. */
  ghost predicate BackDue(
    c: Thresholds, addresses: seq<string>, ups: seq<bool>, t: seq<PoolEvent>, i: nat, j: nat)
    requires i < |ups|
  {
    && j <= |t| && Probe(i, false) !in t[j..] && Number(t[j..], Probe(i, true)) + 1 == c.healthy
    && DownInPool(c, addresses, ups, t, i, j)
  }

  lemma AtInPool(c: Thresholds, addresses: seq<string>, ups: seq<bool>, t: seq<PoolEvent>, i: nat, m: nat)
    requires i < |ups| && m <= |t|
    ensures var own, n := Own(addresses, i, t), |Own(addresses, i, t[..m])|;
            n <= |own| && PoolRun(c, addresses, Starts(ups), t[..m])[i] == At(c, ups[i], own, n)
  {
    var own, before := Own(addresses, i, t), Own(addresses, i, t[..m]);
    OwnFrom(addresses, i, t, m, |before|);
    PoolAt(c, addresses, ups, t[..m], i);
    SamePrefix(c, ups[i], before, own, |before|);
  }

  lemma OwnGrows(addresses: seq<string>, i: nat, t: seq<PoolEvent>, j: nat, m: nat)
    requires j <= m <= |t|
    ensures |Own(addresses, i, t[..j])| <= |Own(addresses, i, t[..m])|
  {
    assert t[..m][..j] == t[..j];
    OwnSplit(addresses, i, t[..m], j);
  }

  ghost predicate DownInPool(
    c: Thresholds, addresses: seq<string>, ups: seq<bool>, t: seq<PoolEvent>, i: nat, j: nat)
    requires i < |ups|
  {
    forall m :: j <= m <= |t| ==> !PoolRun(c, addresses, Starts(ups), t[..m])[i].healthy
  }

  ghost predicate DownOnItsOwn(c: Thresholds, up: bool, own: seq<Event>, n: nat) {
    forall x :: n <= x <= |own| ==> !At(c, up, own, x).healthy
  }

  /** Down in the pool's run from event j on, exactly if in the backend's own. */
  lemma DownFrom(c: Thresholds, addresses: seq<string>, ups: seq<bool>, t: seq<PoolEvent>, i: nat, j: nat, n: nat)
    requires i < |ups| && j <= |t| && n == |Own(addresses, i, t[..j])|
    ensures DownInPool(c, addresses, ups, t, i, j) <==> DownOnItsOwn(c, ups[i], Own(addresses, i, t), n)
  {
    var own := Own(addresses, i, t);
    if DownInPool(c, addresses, ups, t, i, j) {
      forall x | n <= x <= |own|
        ensures !At(c, ups[i], own, x).healthy
      {
        var m := WhenSeen(addresses, i, t, x, j);
        AtInPool(c, addresses, ups, t, i, m);
      }
    }
    if DownOnItsOwn(c, ups[i], own, n) {
      forall m | j <= m <= |t|
        ensures !PoolRun(c, addresses, Starts(ups), t[..m])[i].healthy
      {
        OwnGrows(addresses, i, t, j, m);
        AtInPool(c, addresses, ups, t, i, m);
      }
    }
  }

  lemma RecoveringFrom(
    c: Thresholds, addresses: seq<string>, ups: seq<bool>, t: seq<PoolEvent>, i: nat, j: nat, n: nat)
    requires i < |ups| && j <= |t| && n == |Own(addresses, i, t[..j])| <= |Own(addresses, i, t)|
    ensures BackDue(c, addresses, ups, t, i, j) <==> BackAt(c, ups[i], Own(addresses, i, t), n)
  {
    FailingFrom(addresses, i, t, j, n);
    DownFrom(c, addresses, ups, t, i, j, n);
    var own := Own(addresses, i, t);
    assert Recovering(c, ups[i], own, n, |own|) <==>
           DownOnItsOwn(c, ups[i], own, n) && forall m :: n <= m < |own| ==> own[m] != ProbeFailed;
  }

  lemma BackNextIff(c: Thresholds, addresses: seq<string>, ups: seq<bool>, t: seq<PoolEvent>, i: nat)
    requires i < |ups|
    ensures BackNext(c, ups[i], Own(addresses, i, t)) <==> exists j: nat :: BackDue(c, addresses, ups, t, i, j)
  {
    hide BackDue, BackAt;
    var own := Own(addresses, i, t);
    forall j: nat | j <= |t| && BackDue(c, addresses, ups, t, i, j)
      ensures BackNext(c, ups[i], own)
    {
      var n := |Own(addresses, i, t[..j])|;
      OwnFrom(addresses, i, t, j, n);
      RecoveringFrom(c, addresses, ups, t, i, j, n);
    }
    DueInRange(c, addresses, ups, t, i);
    if BackNext(c, ups[i], own) {
      var n: nat :| BackAt(c, ups[i], own, n);
      BackRange(c, ups[i], own, n);
      assert t[..0] == [];
      var j := WhenSeen(addresses, i, t, n, 0);
      RecoveringFrom(c, addresses, ups, t, i, j, n);
    }
  }

  lemma BackRange(c: Thresholds, up: bool, own: seq<Event>, j: nat)
    requires BackAt(c, up, own, j)
    ensures j <= |own|
  {
  }

  lemma DueInRange(c: Thresholds, addresses: seq<string>, ups: seq<bool>, t: seq<PoolEvent>, i: nat)
    requires i < |ups|
    ensures forall j: nat :: BackDue(c, addresses, ups, t, i, j) ==> j <= |t|
  {
  }

  /**
    In a run of a whole pool, a healthy backend goes down exactly on a dial failure reported for its
    address, if it is the first there, or on a failed probe of its own that completes `unhealthy` failures
    in a row since its last successful one.
   */
  lemma PoolGoesDownExactly(
    c: Thresholds, addresses: seq<string>, ups: seq<bool>, t: seq<PoolEvent>, e: PoolEvent, i: nat)
    requires Positive(c) && i < |ups| == |addresses| && PoolRun(c, addresses, Starts(ups), t)[i].healthy
    ensures !PoolRun(c, addresses, Starts(ups), t + [e])[i].healthy
       <==>
            || (e.Report? && Hit(addresses, i, e.address))
            || (e == Probe(i, false) && exists j: nat :: DownDue(c, t, i, j))
  {
    hide DownDue, DownNext;
    DownAfter(c, addresses, ups, t, e, i);
    DownNextIff(c, addresses, t, i);
    if e.Report? {
      FirstHit(addresses, i, e.address);
    }
  }

  /** It comes back exactly on its own probe that completes `healthy` successes in a row since it went down. */
  lemma PoolComesBackExactly(
    c: Thresholds, addresses: seq<string>, ups: seq<bool>, t: seq<PoolEvent>, e: PoolEvent, i: nat)
    requires Positive(c) && i < |ups| == |addresses| && !PoolRun(c, addresses, Starts(ups), t)[i].healthy
    ensures PoolRun(c, addresses, Starts(ups), t + [e])[i].healthy
       <==> e == Probe(i, true) && exists j: nat :: BackDue(c, addresses, ups, t, i, j)
  {
    hide BackDue, BackNext;
    BackAfter(c, addresses, ups, t, e, i);
    BackNextIff(c, addresses, ups, t, i);
  }
}
