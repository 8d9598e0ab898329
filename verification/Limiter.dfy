/**
  The per-client token-bucket rate limiter (internal/ratelimit/limiter.go).

  Times and token counts are real numbers. Each locked section of the source is one event:
  an Allow call, or the sweep of one shard.
 */
module Limiter {
  import opened Backend

  const NUM_SHARDS := 16

  datatype Settings = Settings(rate: real, capacity: real, idleTTL: real)

  datatype Bucket = Bucket(tokens: real, lastTime: real)

  /** The tokens that come in at a rate within a time. */
  function Scale(rate: real, t: real): real {
    rate * t
  }

  /** One request against a bucket: refill for the time passed, cap, then spend a token if there is one. */
  function Spend(cfg: Settings, b: Bucket, now: real): (r: (Bucket, bool)) {
    var elapsed := now - b.lastTime;
    var refilled := if elapsed > 0.0 then b.tokens + Scale(cfg.rate, elapsed) else b.tokens;
    var tokens := if elapsed > 0.0 && refilled > cfg.capacity then cfg.capacity else refilled;
    if tokens >= 1.0 then (Bucket(tokens - 1.0, now), true) else (Bucket(tokens, now), false)
  }

  /** A request from a client whose bucket may not exist yet; new buckets start full. */
  function Serve(cfg: Settings, b: Option<Bucket>, now: real): (r: (Bucket, bool)) {
    Spend(cfg, if b.Some? then b.value else Bucket(cfg.capacity, now), now)
  }

  function Lookup(m: map<string, Bucket>, ip: string): Option<Bucket> {
    if ip in m then Some(m[ip]) else None
  }

  /** The buckets a sweep at time now keeps. */
  function Swept(cfg: Settings, m: map<string, Bucket>, now: real): map<string, Bucket> {
    map ip | ip in m && !(now - m[ip].lastTime > cfg.idleTTL) :: m[ip]
  }

  // ---------------------------------------------------------------- the limiter object

  class Limiter {
    const cfg: Settings
    const fhash: string -> nat
    const shards: array<map<string, Bucket>>

    ghost predicate Valid() {
      shards.Length == NUM_SHARDS
    }

    function ShardOf(ip: string): (i: nat)
      ensures i < NUM_SHARDS
    {
      fhash(ip) % NUM_SHARDS
    }

    constructor (requestsPerSecond: real, burst: nat, idleTTL: real, fhash: string -> nat)
      ensures Valid() && fresh(shards) && this.fhash == fhash
      ensures cfg == Settings(requestsPerSecond, burst as real, idleTTL)
      ensures shards[..] == NoShards()
    {
      cfg := Settings(requestsPerSecond, burst as real, idleTTL);
      this.fhash := fhash;
      shards := new map<string, Bucket>[NUM_SHARDS](_ => map[]);
    }

    method Allow(clientIP: string, now: real) returns (ok: bool)
      requires Valid()
      modifies shards
      ensures (shards[..], Some(ok)) == ShardedStep(cfg, fhash, old(shards[..]), Request(clientIP, now))
    {
      var s := ShardOf(clientIP);
      var b := if clientIP in shards[s] then shards[s][clientIP] else Bucket(cfg.capacity, now);
      var (b', result) := Spend(cfg, b, now);
      shards[s] := shards[s][clientIP := b'];
      ok := result;
    }

    /** One locked section of the sweep: every idle bucket of shard i is deleted, and no other. */
    method EvictShard(i: nat, now: real)
      requires Valid() && i < NUM_SHARDS
      modifies shards
      ensures (shards[..], None) == ShardedStep(cfg, fhash, old(shards[..]), Sweep(i, now))
    {
      ghost var before := shards[i];
      var todo := shards[i].Keys;
      while todo != {}
        invariant todo <= before.Keys
        invariant forall k :: 0 <= k < NUM_SHARDS && k != i ==> shards[k] == old(shards[k])
        invariant shards[i] == map ip | ip in before && (ip in todo || ip in Swept(cfg, before, now)) :: before[ip]
        decreases |todo|
      {
        var ip :| ip in todo;
        if now - shards[i][ip].lastTime > cfg.idleTTL {
          shards[i] := shards[i] - {ip};
        }
        todo := todo - {ip};
      }
      assert shards[i] == Swept(cfg, before, now);
      assert shards[..] == old(shards[..])[i := Swept(cfg, before, now)];
    }

    /** The whole sweep, when nothing runs in between: no idle bucket survives it and no other is lost. */
    method Evict(now: real)
      requires Valid()
      modifies shards
      ensures forall i :: 0 <= i < NUM_SHARDS ==> shards[i] == Swept(cfg, old(shards[i]), now)
    {
      for i := 0 to NUM_SHARDS
        invariant forall k :: 0 <= k < i ==> shards[k] == Swept(cfg, old(shards[k]), now)
        invariant forall k :: i <= k < NUM_SHARDS ==> shards[k] == old(shards[k])
      {
        ghost var before := shards[..];
        EvictShard(i, now);
        assert shards[..] == before[i := Swept(cfg, before[i], now)];
      }
    }
  }

  // ---------------------------------------------------------------- runs

  datatype Event = Request(ip: string, at: real) | Sweep(shard: nat, at: real)

  type Shards = s: seq<map<string, Bucket>> | |s| == NUM_SHARDS witness NoShards()

  function NoShards(): (s: seq<map<string, Bucket>>)
    ensures |s| == NUM_SHARDS
  {
    seq(NUM_SHARDS, _ => map[])
  }

  /** What one event does to the shards, and the answer if it is a request. */
  function ShardedStep(cfg: Settings, fhash: string -> nat, s: Shards, e: Event): (r: (Shards, Option<bool>)) {
    match e
    case Request(ip, at) =>
      var i := fhash(ip) % NUM_SHARDS;
      var (b, ok) := Serve(cfg, Lookup(s[i], ip), at);
      (s[i := s[i][ip := b]], Some(ok))
    case Sweep(i, at) =>
      (if i < NUM_SHARDS then s[i := Swept(cfg, s[i], at)] else s, None)
  }

  /** The answers the sharded, sweeping limiter gives to the requests among the events. */
  function ShardedRun(cfg: Settings, fhash: string -> nat, s: Shards, events: seq<Event>): seq<bool>
    decreases |events|
  {
    if events == [] then []
    else
      var (s', ok) := ShardedStep(cfg, fhash, s, events[0]);
      (if ok.Some? then [ok.value] else []) + ShardedRun(cfg, fhash, s', events[1..])
  }

  /** The answers of the limiter it stands for: one map, and nothing ever deleted. */
  function PlainRun(cfg: Settings, m: map<string, Bucket>, events: seq<Event>): seq<bool>
    decreases |events|
  {
    if events == [] then []
    else match events[0]
      case Request(ip, at) =>
        var (b, ok) := Serve(cfg, Lookup(m, ip), at);
        [ok] + PlainRun(cfg, m[ip := b], events[1..])
      case Sweep(_, _) => PlainRun(cfg, m, events[1..])
  }

  function Max(x: real, y: real): real {
    if x >= y then x else y
  }

  /**
    No request carries a time earlier than any event before it. A sweep reads the clock once,
    before its first shard, so its own time may lie behind requests already served.
   */
  predicate Timely(events: seq<Event>, clock: real)
    decreases |events|
  {
    events == [] ||
    ((events[0].Request? ==> events[0].at >= clock) && Timely(events[1..], Max(clock, events[0].at)))
  }

  // ---------------------------------------------------------------- sweeping and sharding are invisible

  ghost predicate Positive(cfg: Settings) {
    cfg.rate > 0.0 && cfg.capacity >= 1.0 && cfg.idleTTL > 0.0
  }

  /** A client's bucket is in its shard as in the plain map, or it has been idle past the TTL at clock. */
  ghost predicate Agrees(
    cfg: Settings, fhash: string -> nat, s: Shards, m: map<string, Bucket>, clock: real, ip: string)
  {
    var b := Lookup(s[fhash(ip) % NUM_SHARDS], ip);
    b == Lookup(m, ip) || (b.None? && ip in m && m[ip].tokens >= 0.0 && clock - m[ip].lastTime > cfg.idleTTL)
  }

  ghost predicate Simulates(cfg: Settings, fhash: string -> nat, s: Shards, m: map<string, Bucket>, clock: real) {
    && (forall ip :: Agrees(cfg, fhash, s, m, clock, ip))
    && (forall ip :: ip in m ==> m[ip].tokens >= 0.0)
  }

  lemma ScaleUp(rate: real, x: real, y: real)
    requires rate > 0.0 && x <= y
    ensures Scale(rate, x) <= Scale(rate, y)
  {
  }

  /** A bucket idle for longer than it takes to fill is as good as a new one. */
  lemma IdleIsNew(cfg: Settings, b: Bucket, now: real)
    requires Positive(cfg) && cfg.rate * cfg.idleTTL >= cfg.capacity
    requires b.tokens >= 0.0 && now - b.lastTime > cfg.idleTTL
    ensures Serve(cfg, Some(b), now) == Serve(cfg, None, now)
  {
    assert Scale(cfg.rate, cfg.idleTTL) >= cfg.capacity;
    hide Scale;
    ScaleUp(cfg.rate, cfg.idleTTL, now - b.lastTime);
  }

  lemma RequestSimulates(
    cfg: Settings, fhash: string -> nat, s: Shards, m: map<string, Bucket>, clock: real, ip: string, at: real)
    requires Positive(cfg) && cfg.rate * cfg.idleTTL >= cfg.capacity
    requires Simulates(cfg, fhash, s, m, clock) && at >= clock
    ensures var (s', ok) := ShardedStep(cfg, fhash, s, Request(ip, at));
            var (b, ok') := Serve(cfg, Lookup(m, ip), at);
            ok == Some(ok') && Simulates(cfg, fhash, s', m[ip := b], Max(clock, at))
  {
    assert Agrees(cfg, fhash, s, m, clock, ip);
    if Lookup(s[fhash(ip) % NUM_SHARDS], ip) != Lookup(m, ip) {
      IdleIsNew(cfg, m[ip], at);
    }
    var (s', ok) := ShardedStep(cfg, fhash, s, Request(ip, at));
    var (b, ok') := Serve(cfg, Lookup(m, ip), at);
    TokensStayNonNegative(cfg, Lookup(m, ip), at);
    var m', clock' := m[ip := b], Max(clock, at);
    forall other ensures Agrees(cfg, fhash, s', m', clock', other) {
      assert Agrees(cfg, fhash, s, m, clock, other);
    }
  }

  lemma TokensStayNonNegative(cfg: Settings, b: Option<Bucket>, now: real)
    requires cfg.rate > 0.0 && cfg.capacity >= 0.0 && (b.Some? ==> b.value.tokens >= 0.0)
    ensures Serve(cfg, b, now).0.tokens >= 0.0
  {
    assert Scale(cfg.rate, 0.0) == 0.0;
    hide Scale;
    if b.Some? && now > b.value.lastTime {
      ScaleUp(cfg.rate, 0.0, now - b.value.lastTime);
    }
  }

  lemma SweepSimulates(
    cfg: Settings, fhash: string -> nat, s: Shards, m: map<string, Bucket>, clock: real, i: nat, at: real)
    requires Positive(cfg) && Simulates(cfg, fhash, s, m, clock)
    ensures Simulates(cfg, fhash, ShardedStep(cfg, fhash, s, Sweep(i, at)).0, m, Max(clock, at))
  {
    var s' := ShardedStep(cfg, fhash, s, Sweep(i, at)).0;
    forall ip ensures Agrees(cfg, fhash, s', m, Max(clock, at), ip) {
      assert Agrees(cfg, fhash, s, m, clock, ip);
    }
  }

  lemma {:induction false} SimulationRuns(
    cfg: Settings, fhash: string -> nat, s: Shards, m: map<string, Bucket>, clock: real, events: seq<Event>)
    requires Positive(cfg) && cfg.rate * cfg.idleTTL >= cfg.capacity
    requires Simulates(cfg, fhash, s, m, clock) && Timely(events, clock)
    ensures ShardedRun(cfg, fhash, s, events) == PlainRun(cfg, m, events)
    decreases |events|
  {
    if events != [] {
      var s' := ShardedStep(cfg, fhash, s, events[0]).0;
      match events[0]
      case Request(ip, at) =>
        RequestSimulates(cfg, fhash, s, m, clock, ip, at);
        SimulationRuns(cfg, fhash, s', m[ip := Serve(cfg, Lookup(m, ip), at).0], Max(clock, at), events[1..]);
      case Sweep(i, at) =>
        SweepSimulates(cfg, fhash, s, m, clock, i, at);
        SimulationRuns(cfg, fhash, s', m, Max(clock, at), events[1..]);
    }
  }

  /**
    If a bucket refills completely within the idle TTL, every interleaving of requests and
    sweeps, under any hash, is answered as by a single map that never forgets a client.
   */
  lemma SweepingInvisible(cfg: Settings, fhash: string -> nat, events: seq<Event>, clock: real)
    requires Positive(cfg) && cfg.rate * cfg.idleTTL >= cfg.capacity && Timely(events, clock)
    ensures ShardedRun(cfg, fhash, NoShards(), events) == PlainRun(cfg, map[], events)
  {
    SimulationRuns(cfg, fhash, NoShards(), map[], clock, events);
  }

  // ---------------------------------------------------------------- one client's run

  /** The answers to one client's requests at the given times. */
  function ClientRun(cfg: Settings, b: Option<Bucket>, times: seq<real>): (answers: seq<bool>)
    ensures |answers| == |times|
    decreases |times|
  {
    if times == [] then []
    else
      var (b', ok) := Serve(cfg, b, times[0]);
      [ok] + ClientRun(cfg, Some(b'), times[1..])
  }

  /** The client's bucket after those requests. */
  function ClientBucket(cfg: Settings, b: Option<Bucket>, times: seq<real>): Option<Bucket>
    decreases |times|
  {
    if times == [] then b else ClientBucket(cfg, Some(Serve(cfg, b, times[0]).0), times[1..])
  }

  function TimesOf(events: seq<Event>, ip: string): seq<real> {
    if events == [] then []
    else (if events[0].Request? && events[0].ip == ip then [events[0].at] else []) + TimesOf(events[1..], ip)
  }

  /** Those of the answers that went to one client. */
  function AnswersTo(events: seq<Event>, answers: seq<bool>, ip: string): seq<bool> {
    if events == [] || answers == [] then []
    else if events[0].Sweep? then AnswersTo(events[1..], answers, ip)
    else (if events[0].ip == ip then [answers[0]] else []) + AnswersTo(events[1..], answers[1..], ip)
  }

  /** Clients do not disturb each other: what one is told depends on its own requests alone. */
  lemma {:induction false} ClientsIndependent(cfg: Settings, m: map<string, Bucket>, events: seq<Event>, ip: string)
    ensures AnswersTo(events, PlainRun(cfg, m, events), ip) == ClientRun(cfg, Lookup(m, ip), TimesOf(events, ip))
    decreases |events|
  {
    hide Spend, Serve, PlainRun, ClientRun, AnswersTo, TimesOf;
    if events == [] {
      NoRequests(cfg, m, ip);
    } else {
      var rest := events[1..];
      match events[0]
      case Sweep(_, _) =>
        ClientsIndependent(cfg, m, rest, ip);
        SweepFirst(cfg, m, events, ip);
      case Request(who, at) =>
        var (b, ok) := Serve(cfg, Lookup(m, who), at);
        ClientsIndependent(cfg, m[who := b], rest, ip);
        RequestFirst(cfg, m, events, ip);
        if who == ip {
          RunFirst(cfg, Lookup(m, ip), at, TimesOf(rest, ip));
        }
    }
  }

  lemma NoRequests(cfg: Settings, m: map<string, Bucket>, ip: string)
    ensures AnswersTo([], PlainRun(cfg, m, []), ip) == [] == ClientRun(cfg, Lookup(m, ip), TimesOf([], ip))
  {
  }

  /** A sweep is answered to nobody. */
  lemma SweepFirst(cfg: Settings, m: map<string, Bucket>, events: seq<Event>, ip: string)
    requires events != [] && events[0].Sweep?
    ensures AnswersTo(events, PlainRun(cfg, m, events), ip) == AnswersTo(events[1..], PlainRun(cfg, m, events[1..]), ip)
    ensures TimesOf(events, ip) == TimesOf(events[1..], ip)
  {
  }

  /** The first answer goes to the client that asked. */
  lemma RequestFirst(cfg: Settings, m: map<string, Bucket>, events: seq<Event>, ip: string)
    requires events != [] && events[0].Request?
    ensures var who := events[0].ip;
            var (b, ok) := Serve(cfg, Lookup(m, who), events[0].at);
            var all, rest := PlainRun(cfg, m, events), PlainRun(cfg, m[who := b], events[1..]);
            && (who == ip ==>
                  && AnswersTo(events, all, ip) == [ok] + AnswersTo(events[1..], rest, ip)
                  && TimesOf(events, ip) == [events[0].at] + TimesOf(events[1..], ip))
            && (who != ip ==>
                  && AnswersTo(events, all, ip) == AnswersTo(events[1..], rest, ip)
                  && TimesOf(events, ip) == TimesOf(events[1..], ip))
  {
    hide Spend, Serve;
    var (b, ok) := Serve(cfg, Lookup(m, events[0].ip), events[0].at);
    var all, rest := PlainRun(cfg, m, events), PlainRun(cfg, m[events[0].ip := b], events[1..]);
    assert all == [ok] + rest && all[1..] == rest;
  }

  lemma RunFirst(cfg: Settings, b: Option<Bucket>, at: real, times: seq<real>)
    ensures var (b', ok) := Serve(cfg, b, at);
            ClientRun(cfg, b, [at] + times) == [ok] + ClientRun(cfg, Some(b'), times)
  {
    hide Spend, Serve;
    assert ([at] + times)[1..] == times;
  }

  function Admitted(answers: seq<bool>): nat {
    if answers == [] then 0 else (if answers[0] then 1 else 0) + Admitted(answers[1..])
  }

  predicate NonDecreasing(times: seq<real>) {
    forall i :: 0 < i < |times| ==> times[i - 1] <= times[i]
  }

  // Measured in units of the time one token takes to refill, the rate is 1 and the accounts
  // of a bucket are linear.

  function UnitSpend(capacity: real, b: Bucket, now: real): (r: (Bucket, bool)) {
    var refilled := if now > b.lastTime then b.tokens + (now - b.lastTime) else b.tokens;
    var tokens := if now > b.lastTime && refilled > capacity then capacity else refilled;
    if tokens >= 1.0 then (Bucket(tokens - 1.0, now), true) else (Bucket(tokens, now), false)
  }

  function UnitServe(capacity: real, b: Option<Bucket>, now: real): (r: (Bucket, bool)) {
    UnitSpend(capacity, if b.Some? then b.value else Bucket(capacity, now), now)
  }

  function UnitRun(capacity: real, b: Option<Bucket>, times: seq<real>): (answers: seq<bool>)
    ensures |answers| == |times|
    decreases |times|
  {
    if times == [] then []
    else
      var (b', ok) := UnitServe(capacity, b, times[0]);
      [ok] + UnitRun(capacity, Some(b'), times[1..])
  }

  function UnitBucket(capacity: real, b: Option<Bucket>, times: seq<real>): Option<Bucket>
    decreases |times|
  {
    if times == [] then b else UnitBucket(capacity, Some(UnitServe(capacity, b, times[0]).0), times[1..])
  }

  function ScaledBucket(rate: real, b: Bucket): Bucket {
    b.(lastTime := Scale(rate, b.lastTime))
  }

  function ScaledOption(rate: real, b: Option<Bucket>): Option<Bucket> {
    if b.Some? then Some(ScaledBucket(rate, b.value)) else None
  }

  lemma ScaledDifference(rate: real, x: real, y: real)
    requires rate > 0.0
    ensures Scale(rate, y) - Scale(rate, x) == Scale(rate, y - x)
    ensures y > x <==> Scale(rate, y) > Scale(rate, x)
  {
    assert Scale(rate, y) - Scale(rate, x) == rate * (y - x);
    if y > x {
      assert rate * (y - x) > 0.0;
    } else {
      ScaleUp(rate, y, x);
    }
  }

  lemma ServeScales(cfg: Settings, b: Option<Bucket>, now: real)
    requires cfg.rate > 0.0
    ensures var (b', ok) := Serve(cfg, b, now);
            (ScaledBucket(cfg.rate, b'), ok) == UnitServe(cfg.capacity, ScaledOption(cfg.rate, b), Scale(cfg.rate, now))
  {
    hide Scale;
    ScaledDifference(cfg.rate, if b.Some? then b.value.lastTime else now, now);
  }

  ghost predicate IsScaled(rate: real, times: seq<real>, us: seq<real>) {
    |us| == |times| && forall i :: 0 <= i < |times| ==> us[i] == Scale(rate, times[i])
  }

  lemma {:induction false} RunScales(cfg: Settings, b: Option<Bucket>, times: seq<real>, us: seq<real>)
    requires cfg.rate > 0.0 && IsScaled(cfg.rate, times, us)
    ensures ClientRun(cfg, b, times) == UnitRun(cfg.capacity, ScaledOption(cfg.rate, b), us)
    ensures ScaledOption(cfg.rate, ClientBucket(cfg, b, times))
         == UnitBucket(cfg.capacity, ScaledOption(cfg.rate, b), us)
    decreases |times|
  {
    if times != [] {
      ServeScales(cfg, b, times[0]);
      RunScales(cfg, Some(Serve(cfg, b, times[0]).0), times[1..], us[1..]);
    }
  }

  /** A bucket no newer than now, holding between no tokens and a full load. */
  predicate Legal(capacity: real, b: Option<Bucket>, now: real) {
    b.Some? ==> 0.0 <= b.value.tokens <= capacity && b.value.lastTime <= now
  }

  function Cost(ok: bool): nat {
    if ok then 1 else 0
  }

  lemma AdmittedFirst(capacity: real, b: Option<Bucket>, times: seq<real>)
    requires times != []
    ensures var (b', ok) := UnitServe(capacity, b, times[0]);
            Admitted(UnitRun(capacity, b, times)) == Cost(ok) + Admitted(UnitRun(capacity, Some(b'), times[1..]))
  {
    var (b', ok) := UnitServe(capacity, b, times[0]);
    var answers := UnitRun(capacity, b, times);
    assert answers == [ok] + UnitRun(capacity, Some(b'), times[1..]);
    assert answers[1..] == UnitRun(capacity, Some(b'), times[1..]);
  }

  /** Every admission is paid for out of what the bucket held or has since refilled. */
  lemma {:induction false} SpentFromBucket(capacity: real, b: Bucket, times: seq<real>)
    requires capacity >= 1.0 && NonDecreasing(times) && times != [] && Legal(capacity, Some(b), times[0])
    ensures Admitted(UnitRun(capacity, Some(b), times)) as real <= b.tokens + (times[|times| - 1] - b.lastTime)
    decreases |times|
  {
    AdmittedFirst(capacity, Some(b), times);
    if |times| > 1 {
      SpentFromBucket(capacity, UnitServe(capacity, Some(b), times[0]).0, times[1..]);
    } else {
      assert times[1..] == [];
    }
  }

  lemma WindowBound(capacity: real, b: Option<Bucket>, times: seq<real>)
    requires capacity >= 1.0 && NonDecreasing(times) && times != [] && Legal(capacity, b, times[0])
    ensures Admitted(UnitRun(capacity, b, times)) as real <= capacity + (times[|times| - 1] - times[0])
  {
    AdmittedFirst(capacity, b, times);
    if |times| > 1 {
      SpentFromBucket(capacity, UnitServe(capacity, b, times[0]).0, times[1..]);
    } else {
      assert times[1..] == [];
    }
  }

  lemma {:induction false} UnitLegal(capacity: real, b: Option<Bucket>, times: seq<real>)
    requires capacity >= 1.0 && NonDecreasing(times) && (times != [] ==> Legal(capacity, b, times[0]))
    ensures times != [] ==> Legal(capacity, UnitBucket(capacity, b, times), times[|times| - 1])
    decreases |times|
  {
    if times != [] {
      UnitLegal(capacity, Some(UnitServe(capacity, b, times[0]).0), times[1..]);
    }
  }

  lemma {:induction false} UnitRunSplit(capacity: real, b: Option<Bucket>, times: seq<real>, i: nat)
    requires i <= |times|
    ensures UnitRun(capacity, b, times)[i..] == UnitRun(capacity, UnitBucket(capacity, b, times[..i]), times[i..])
    decreases |times|
  {
    if i > 0 {
      var b' := UnitServe(capacity, b, times[0]).0;
      UnitRunSplit(capacity, Some(b'), times[1..], i - 1);
      assert times[..i][1..] == times[1..][..i - 1];
      assert times[1..][i - 1..] == times[i..];
      assert UnitRun(capacity, b, times)[i..] == UnitRun(capacity, Some(b'), times[1..])[i - 1..];
    } else {
      assert times[..0] == [] && times[0..] == times;
    }
  }

  lemma {:induction false} UnitRunPrefix(capacity: real, b: Option<Bucket>, times: seq<real>, j: nat)
    requires j <= |times|
    ensures UnitRun(capacity, b, times)[..j] == UnitRun(capacity, b, times[..j])
    decreases |times|
  {
    if j > 0 {
      var b' := UnitServe(capacity, b, times[0]).0;
      UnitRunPrefix(capacity, Some(b'), times[1..], j - 1);
      assert times[..j][1..] == times[1..][..j - 1];
    }
  }

  lemma ScaledTimes(cfg: Settings, times: seq<real>) returns (us: seq<real>)
    requires Positive(cfg) && NonDecreasing(times)
    ensures IsScaled(cfg.rate, times, us) && NonDecreasing(us)
    ensures ClientRun(cfg, None, times) == UnitRun(cfg.capacity, None, us)
    ensures ScaledOption(cfg.rate, ClientBucket(cfg, None, times)) == UnitBucket(cfg.capacity, None, us)
  {
    us := seq(|times|, i requires 0 <= i < |times| => Scale(cfg.rate, times[i]));
    RunScales(cfg, None, times, us);
    forall i | 0 < i < |times| ensures us[i - 1] <= us[i] {
      ScaledDifference(cfg.rate, times[i], times[i - 1]);
    }
  }

  /** Tokens never leave [0, burst], whatever a client does. */
  lemma TokensLegal(cfg: Settings, times: seq<real>)
    requires Positive(cfg) && NonDecreasing(times) && times != []
    ensures var b := ClientBucket(cfg, None, times); b.Some? && 0.0 <= b.value.tokens <= cfg.capacity
  {
    var us := ScaledTimes(cfg, times);
    UnitLegal(cfg.capacity, None, us);
    BucketExists(cfg, None, times);
  }

  lemma {:induction false} BucketExists(cfg: Settings, b: Option<Bucket>, times: seq<real>)
    requires times != [] || b.Some?
    ensures ClientBucket(cfg, b, times).Some?
    decreases |times|
  {
    if times != [] {
      BucketExists(cfg, Some(Serve(cfg, b, times[0]).0), times[1..]);
    }
  }

  /**
    The rate bound: of any consecutive requests numbered i .. j - 1, spanning the times s to t,
    at most burst + rate * (t - s) are admitted.
   */
  lemma RateBound(cfg: Settings, times: seq<real>, i: nat, j: nat)
    requires Positive(cfg) && NonDecreasing(times) && i < j <= |times|
    ensures Admitted(ClientRun(cfg, None, times)[i..j]) as real <= Budget(cfg, times[i], times[j - 1])
  {
    var us := ScaledTimes(cfg, times);
    UnitRateBound(cfg.capacity, us, i, j);
    ScaledBudget(cfg, times[i], times[j - 1]);
  }

  /** What a client may be admitted between two moments. */
  function Budget(cfg: Settings, s: real, t: real): real {
    cfg.capacity + cfg.rate * (t - s)
  }

  lemma ScaledBudget(cfg: Settings, s: real, t: real)
    requires cfg.rate > 0.0
    ensures Budget(cfg, s, t) == cfg.capacity + (Scale(cfg.rate, t) - Scale(cfg.rate, s))
  {
    ScaledDifference(cfg.rate, s, t);
  }

  /** A stretch of a run is a run of its own, from the bucket the requests before it left. */
  lemma UnitRunWindow(capacity: real, times: seq<real>, i: nat, j: nat)
    requires i <= j <= |times|
    ensures UnitRun(capacity, None, times)[i..j]
         == UnitRun(capacity, UnitBucket(capacity, None, times[..i]), times[i..j])
  {
    hide UnitRun, UnitBucket;
    var b, all := UnitBucket(capacity, None, times[..i]), UnitRun(capacity, None, times);
    UnitRunSplit(capacity, None, times, i);
    UnitRunPrefix(capacity, b, times[i..], j - i);
    assert times[i..][..j - i] == times[i..j];
    assert all[i..][..j - i] == all[i..j];
  }

  lemma UnitRateBound(capacity: real, times: seq<real>, i: nat, j: nat)
    requires capacity >= 1.0 && NonDecreasing(times) && i < j <= |times|
    ensures Admitted(UnitRun(capacity, None, times)[i..j]) as real <= capacity + (times[j - 1] - times[i])
  {
    hide UnitRun, Admitted;
    UnitRunWindow(capacity, times, i, j);
    UnitLegal(capacity, None, times[..i]);
    WindowBound(capacity, UnitBucket(capacity, None, times[..i]), times[i..j]);
  }

  /** The same bound for the limiter as it runs: sharded, swept, and shared by all clients. */
  lemma ShardedRateBound(
    cfg: Settings, fhash: string -> nat, events: seq<Event>, clock: real, ip: string, i: nat, j: nat)
    requires Positive(cfg) && cfg.rate * cfg.idleTTL >= cfg.capacity && Timely(events, clock)
    requires i < j <= |TimesOf(events, ip)|
    ensures var answers := AnswersTo(events, ShardedRun(cfg, fhash, NoShards(), events), ip);
            var times := TimesOf(events, ip);
            |answers| == |times| &&
            Admitted(answers[i..j]) as real <= Budget(cfg, times[i], times[j - 1])
  {
    SweepingInvisible(cfg, fhash, events, clock);
    ClientsIndependent(cfg, map[], events, ip);
    TimelyTimes(events, clock, ip);
    RateBound(cfg, TimesOf(events, ip), i, j);
  }

  lemma {:induction false} TimelyTimes(events: seq<Event>, clock: real, ip: string)
    requires Timely(events, clock)
    ensures NonDecreasing(TimesOf(events, ip))
    ensures forall k :: 0 <= k < |TimesOf(events, ip)| ==> TimesOf(events, ip)[k] >= clock
    decreases |events|
  {
    if events != [] {
      TimelyTimes(events[1..], Max(clock, events[0].at), ip);
    }
  }

  // ---------------------------------------------------------------- exactly which requests are admitted

  /** What is left for request k of a budget that began at request i. */
  function Leftover(capacity: real, times: seq<real>, answers: seq<bool>, i: nat, k: nat): real
    requires i <= k < |times| && k <= |answers|
  {
    capacity + (times[k] - times[i]) - Admitted(answers[i..k]) as real
  }

  /** The tokens request k finds, refilled and capped. */
  function UnitFound(capacity: real, times: seq<real>, k: nat): real
    requires k < |times|
  {
    if k == 0 then capacity
    else
      var b := UnitBucket(capacity, None, times[..k]);
      var refilled := (if b.Some? then b.value.tokens else capacity) + (times[k] - times[k - 1]);
      if refilled > capacity then capacity else refilled
  }

  lemma {:induction false} UnitBucketNext(capacity: real, b: Option<Bucket>, times: seq<real>)
    requires times != []
    ensures var n := |times| - 1;
            && UnitBucket(capacity, b, times)
            == Some(UnitServe(capacity, UnitBucket(capacity, b, times[..n]), times[n]).0)
            && UnitRun(capacity, b, times)[n] == UnitServe(capacity, UnitBucket(capacity, b, times[..n]), times[n]).1
    decreases |times|
  {
    hide UnitServe;
    if |times| == 1 {
      assert times[..0] == [] && times[1..] == [];
    } else {
      var b' := UnitServe(capacity, b, times[0]).0;
      UnitBucketNext(capacity, Some(b'), times[1..]);
      assert times[1..][..|times| - 2] == times[..|times| - 1][1..];
    }
  }

  /** Request k is admitted if it finds a token, which it then takes. */
  lemma UnitFoundAt(capacity: real, times: seq<real>, k: nat)
    requires capacity >= 1.0 && NonDecreasing(times) && k < |times|
    ensures var found := UnitFound(capacity, times, k);
            && (UnitRun(capacity, None, times)[k] <==> found >= 1.0)
            && UnitBucket(capacity, None, times[..k + 1])
            == Some(Bucket(if found >= 1.0 then found - 1.0 else found, times[k]))
  {
    hide UnitRun;
    var run := times[..k + 1];
    assert run[..k] == times[..k] && run[k] == times[k];
    UnitBucketNext(capacity, None, run);
    UnitRunPrefix(capacity, None, times, k + 1);
    assert UnitRun(capacity, None, times)[k] == UnitRun(capacity, None, run)[k];
    if k > 0 {
      UnitLegal(capacity, None, times[..k]);
      BeforeLast(capacity, times, k);
    } else {
      assert times[..0] == [];
    }
  }

  lemma BeforeLast(capacity: real, times: seq<real>, k: nat)
    requires 0 < k < |times|
    ensures var b := UnitBucket(capacity, None, times[..k]); b.Some? && b.value.lastTime == times[k - 1]
  {
    hide UnitBucket;
    UnitBucketNext(capacity, None, times[..k]);
    assert times[..k][k - 1] == times[k - 1];
  }

  lemma UnitFoundNext(capacity: real, times: seq<real>, k: nat)
    requires capacity >= 1.0 && NonDecreasing(times) && k + 1 < |times|
    ensures var refilled := UnitFound(capacity, times, k) - (if UnitRun(capacity, None, times)[k] then 1.0 else 0.0)
                            + (times[k + 1] - times[k]);
            UnitFound(capacity, times, k + 1) == if refilled > capacity then capacity else refilled
  {
    UnitFoundAt(capacity, times, k);
  }

  lemma {:induction false} AdmittedLast(answers: seq<bool>)
    requires answers != []
    ensures Admitted(answers) == Admitted(answers[..|answers| - 1]) + if answers[|answers| - 1] then 1 else 0
  {
    if |answers| > 1 {
      AdmittedLast(answers[1..]);
      assert answers[1..][..|answers| - 2] == answers[..|answers| - 1][1..];
    }
  }

  lemma LeftoverNext(capacity: real, times: seq<real>, answers: seq<bool>, i: nat, k: nat)
    requires i <= k && k + 1 < |times| && |answers| == |times|
    ensures Leftover(capacity, times, answers, i, k + 1) == Leftover(capacity, times, answers, i, k)
            - (if answers[k] then 1.0 else 0.0) + (times[k + 1] - times[k])
  {
    var window := answers[i..k + 1];
    AdmittedLast(window);
    assert window[..k - i] == answers[i..k] && window[k - i] == answers[k];
  }

  /** The tokens a request finds are the least that is left of any budget begun before it. */
  lemma {:induction false} FoundIsLeast(capacity: real, times: seq<real>, answers: seq<bool>, k: nat)
    requires capacity >= 1.0 && NonDecreasing(times) && k < |times| && answers == UnitRun(capacity, None, times)
    ensures forall i: nat :: i <= k ==> UnitFound(capacity, times, k) <= Leftover(capacity, times, answers, i, k)
    ensures exists i: nat :: i <= k && UnitFound(capacity, times, k) == Leftover(capacity, times, answers, i, k)
    decreases k
  {
    assert answers[k..k] == [];
    assert Leftover(capacity, times, answers, k, k) == capacity;
    if k > 0 {
      hide UnitFound, UnitRun;
      FoundIsLeast(capacity, times, answers, k - 1);
      UnitFoundNext(capacity, times, k - 1);
      var j: nat :| j <= k - 1 && UnitFound(capacity, times, k - 1) == Leftover(capacity, times, answers, j, k - 1);
      LeftoverNext(capacity, times, answers, j, k - 1);
      hide Leftover;
      forall i: nat | i <= k
        ensures UnitFound(capacity, times, k) <= Leftover(capacity, times, answers, i, k)
      {
        if i < k {
          LeftoverNext(capacity, times, answers, i, k - 1);
        }
      }
      assert UnitFound(capacity, times, k) == Leftover(capacity, times, answers, k, k) ||
             UnitFound(capacity, times, k) == Leftover(capacity, times, answers, j, k);
    }
  }

  lemma UnitAdmittedIff(capacity: real, times: seq<real>, answers: seq<bool>, k: nat)
    requires capacity >= 1.0 && NonDecreasing(times) && k < |times| && answers == UnitRun(capacity, None, times)
    ensures answers[k] <==> forall i: nat :: i <= k ==> Leftover(capacity, times, answers, i, k) >= 1.0
  {
    hide UnitFound, UnitRun, Leftover;
    UnitFoundAt(capacity, times, k);
    FoundIsLeast(capacity, times, answers, k);
  }

  /** Request k could be granted without exceeding the budget since request i. */
  predicate WithinBudget(cfg: Settings, times: seq<real>, answers: seq<bool>, i: nat, k: nat)
    requires i <= k < |times| && k <= |answers|
  {
    Admitted(answers[i..k]) as real + 1.0 <= Budget(cfg, times[i], times[k])
  }

  /**
    The exact rule: a request is admitted if and only if, counted from any earlier request of the
    client, granting it keeps within burst + rate * (t - s).
   */
  lemma AdmittedIff(cfg: Settings, times: seq<real>, k: nat)
    requires Positive(cfg) && NonDecreasing(times) && k < |times|
    ensures var answers := ClientRun(cfg, None, times);
            answers[k] <==> forall i: nat :: i <= k ==> WithinBudget(cfg, times, answers, i, k)
  {
    hide ClientRun, UnitRun;
    var us := ScaledTimes(cfg, times);
    var answers := ClientRun(cfg, None, times);
    UnitAdmittedIff(cfg.capacity, us, answers, k);
    forall i: nat | i <= k
      ensures WithinBudget(cfg, times, answers, i, k) <==> Leftover(cfg.capacity, us, answers, i, k) >= 1.0
    {
      hide Admitted;
      ScaledBudget(cfg, times[i], times[k]);
    }
  }

  /** The same rule for the limiter as it runs: sharded, swept, and shared by all clients. */
  lemma ShardedAdmittedIff(cfg: Settings, fhash: string -> nat, events: seq<Event>, clock: real, ip: string, k: nat)
    requires Positive(cfg) && cfg.rate * cfg.idleTTL >= cfg.capacity && Timely(events, clock)
    requires k < |TimesOf(events, ip)|
    ensures var answers := AnswersTo(events, ShardedRun(cfg, fhash, NoShards(), events), ip);
            var times := TimesOf(events, ip);
            && |answers| == |times|
            && (answers[k] <==> forall i: nat :: i <= k ==> WithinBudget(cfg, times, answers, i, k))
  {
    hide ClientRun, ShardedRun, PlainRun, AnswersTo, TimesOf, WithinBudget;
    SweepingInvisible(cfg, fhash, events, clock);
    ClientsIndependent(cfg, map[], events, ip);
    TimelyTimes(events, clock, ip);
    AdmittedIff(cfg, TimesOf(events, ip), k);
  }

  /** A client that leaves at least 1/rate between its requests is never refused. */
  lemma SpacedNeverRefused(cfg: Settings, times: seq<real>, i: nat)
    requires Positive(cfg) && i < |times|
    requires forall k :: 0 < k < |times| ==> Spaced(cfg.rate, times[k - 1], times[k])
    ensures ClientRun(cfg, None, times)[i]
  {
    forall k | 0 < k < |times| ensures times[k - 1] <= times[k] {
      ScaledGap(cfg.rate, times[k - 1], times[k]);
    }
    var us := ScaledTimes(cfg, times);
    forall k | 0 < k < |us| ensures us[k] - us[k - 1] >= 1.0 {
      ScaledGap(cfg.rate, times[k - 1], times[k]);
    }
    UnitSpaced(cfg.capacity, None, us);
  }

  lemma ScaledGap(rate: real, x: real, y: real)
    requires rate > 0.0 && Spaced(rate, x, y)
    ensures Scale(rate, y) - Scale(rate, x) >= 1.0 && x < y
  {
    assert Scale(rate, y - x) >= 1.0;
    ScaledDifference(rate, x, y);
  }

  /** y is at least 1/rate after x. */
  predicate Spaced(rate: real, x: real, y: real) {
    rate * (y - x) >= 1.0
  }

  lemma {:induction false} UnitSpaced(capacity: real, b: Option<Bucket>, times: seq<real>)
    requires capacity >= 1.0 && (times != [] ==> Legal(capacity, b, times[0]))
    requires forall k :: 0 < k < |times| ==> times[k] - times[k - 1] >= 1.0
    requires b.Some? && times != [] ==> times[0] - b.value.lastTime >= 1.0
    ensures forall k :: 0 <= k < |times| ==> UnitRun(capacity, b, times)[k]
    decreases |times|
  {
    if times != [] {
      UnitSpaced(capacity, Some(UnitServe(capacity, b, times[0]).0), times[1..]);
    }
  }

  // ---------------------------------------------------------------- the condition is exact

  /** n requests of one client at the same moment. */
  function Volley(ip: string, at: real, n: nat): (v: seq<Event>)
    ensures |v| == n
    decreases n
  {
    if n == 0 then [] else [Request(ip, at)] + Volley(ip, at, n - 1)
  }

  function Repeat(at: real, n: nat): (times: seq<real>)
    ensures |times| == n
  {
    seq(n, _ => at)
  }

  lemma VolleyFirst(ip: string, at: real, n: nat, rest: seq<Event>)
    requires n > 0
    ensures Volley(ip, at, n) + rest == [Request(ip, at)] + (Volley(ip, at, n - 1) + rest)
    ensures Volley(ip, at, 0) + rest == rest
  {
  }

  /** The first of n requests at one moment, and the others. */
  lemma RepeatFirst(cfg: Settings, b: Option<Bucket>, at: real, n: nat)
    requires n > 0
    ensures var (b', ok) := Serve(cfg, b, at);
            && ClientRun(cfg, b, Repeat(at, n)) == [ok] + ClientRun(cfg, Some(b'), Repeat(at, n - 1))
            && ClientBucket(cfg, b, Repeat(at, n)) == ClientBucket(cfg, Some(b'), Repeat(at, n - 1))
  {
    hide Serve, Spend;
    assert Repeat(at, n)[0] == at && Repeat(at, n)[1..] == Repeat(at, n - 1);
  }

  lemma RepeatNone(cfg: Settings, b: Option<Bucket>, at: real)
    ensures ClientRun(cfg, b, Repeat(at, 0)) == [] && ClientBucket(cfg, b, Repeat(at, 0)) == b
  {
  }

  lemma ShardedRequest(cfg: Settings, fhash: string -> nat, s: Shards, ip: string, at: real, rest: seq<Event>)
    ensures var i := fhash(ip) % NUM_SHARDS;
            var (b, ok) := Serve(cfg, Lookup(s[i], ip), at);
            ShardedRun(cfg, fhash, s, [Request(ip, at)] + rest) ==
            [ok] + ShardedRun(cfg, fhash, Put(s, i, ip, b), rest)
  {
    hide Serve, Spend;
    assert ([Request(ip, at)] + rest)[1..] == rest;
  }

  lemma ShardedSweep(cfg: Settings, fhash: string -> nat, s: Shards, i: nat, at: real, rest: seq<Event>)
    requires i < NUM_SHARDS
    ensures ShardedRun(cfg, fhash, s, [Sweep(i, at)] + rest)
         == ShardedRun(cfg, fhash, s[i := Swept(cfg, s[i], at)], rest)
  {
    assert ([Sweep(i, at)] + rest)[1..] == rest;
  }

  lemma PlainRequest(cfg: Settings, m: map<string, Bucket>, ip: string, at: real, rest: seq<Event>)
    ensures var (b, ok) := Serve(cfg, Lookup(m, ip), at);
            PlainRun(cfg, m, [Request(ip, at)] + rest) == [ok] + PlainRun(cfg, m[ip := b], rest)
  {
    hide Serve, Spend;
    assert ([Request(ip, at)] + rest)[1..] == rest;
  }

  /** A client's bucket put into its shard, and put there again. */
  function Put(s: Shards, i: nat, ip: string, b: Bucket): Shards
    requires i < NUM_SHARDS
  {
    s[i := s[i][ip := b]]
  }

  lemma PutAgain(s: Shards, i: nat, ip: string, b: Bucket, last: Bucket)
    requires i < NUM_SHARDS
    ensures Lookup(Put(s, i, ip, b)[i], ip) == Some(b)
    ensures Put(Put(s, i, ip, b), i, ip, last) == Put(s, i, ip, last)
  {
    assert s[i][ip := b][ip := last] == s[i][ip := last];
  }

  lemma {:induction false} VolleySharded(
    cfg: Settings, fhash: string -> nat, s: Shards, ip: string, at: real, n: nat, rest: seq<Event>)
    requires n > 0
    ensures var i, times := fhash(ip) % NUM_SHARDS, Repeat(at, n);
            var b := ClientBucket(cfg, Lookup(s[i], ip), times);
            && b.Some?
            && ShardedRun(cfg, fhash, s, Volley(ip, at, n) + rest)
            == ClientRun(cfg, Lookup(s[i], ip), times) + ShardedRun(cfg, fhash, Put(s, i, ip, b.value), rest)
    decreases n
  {
    hide Serve, Spend, ShardedRun, ClientRun, ClientBucket, Repeat, Volley;
    var i := fhash(ip) % NUM_SHARDS;
    var (b, ok) := Serve(cfg, Lookup(s[i], ip), at);
    VolleyFirst(ip, at, n, rest);
    ShardedRequest(cfg, fhash, s, ip, at, Volley(ip, at, n - 1) + rest);
    RepeatFirst(cfg, Lookup(s[i], ip), at, n);
    PutAgain(s, i, ip, b, b);
    if n == 1 {
      RepeatNone(cfg, Some(b), at);
    } else {
      VolleySharded(cfg, fhash, Put(s, i, ip, b), ip, at, n - 1, rest);
      PutAgain(s, i, ip, b, ClientBucket(cfg, Some(b), Repeat(at, n - 1)).value);
    }
  }

  lemma {:induction false} VolleyPlain(
    cfg: Settings, m: map<string, Bucket>, ip: string, at: real, n: nat, rest: seq<Event>)
    requires n > 0
    ensures var times := Repeat(at, n);
            var b := ClientBucket(cfg, Lookup(m, ip), times);
            && b.Some?
            && PlainRun(cfg, m, Volley(ip, at, n) + rest)
            == ClientRun(cfg, Lookup(m, ip), times) + PlainRun(cfg, m[ip := b.value], rest)
    decreases n
  {
    hide Serve, Spend, PlainRun, ClientRun, ClientBucket, Repeat, Volley;
    var (b, ok) := Serve(cfg, Lookup(m, ip), at);
    VolleyFirst(ip, at, n, rest);
    PlainRequest(cfg, m, ip, at, Volley(ip, at, n - 1) + rest);
    RepeatFirst(cfg, Lookup(m, ip), at, n);
    if n == 1 {
      RepeatNone(cfg, Some(b), at);
    } else {
      VolleyPlain(cfg, m[ip := b], ip, at, n - 1, rest);
      var last := ClientBucket(cfg, Some(b), Repeat(at, n - 1)).value;
      assert m[ip := b][ip := last] == m[ip := last];
    }
  }

  lemma SpendsAtOnce(cfg: Settings, b: Bucket)
    ensures Serve(cfg, Some(b), b.lastTime) ==
            if b.tokens >= 1.0 then (b.(tokens := b.tokens - 1.0), true) else (b, false)
  {
  }

  /** At one moment a bucket admits as many requests as it holds tokens, and then no more. */
  lemma {:induction false} SameMoment(cfg: Settings, b: Bucket, n: nat)
    ensures n as real <= b.tokens ==>
              && (forall k :: 0 <= k < n ==> ClientRun(cfg, Some(b), Repeat(b.lastTime, n))[k])
              && ClientBucket(cfg, Some(b), Repeat(b.lastTime, n)) == Some(b.(tokens := b.tokens - n as real))
    ensures n > 0 && b.tokens < n as real ==> !ClientRun(cfg, Some(b), Repeat(b.lastTime, n))[n - 1]
    decreases n
  {
    hide Serve, Spend, ClientRun, ClientBucket, Repeat;
    if n == 0 {
      RepeatNone(cfg, Some(b), b.lastTime);
    } else {
      RepeatFirst(cfg, Some(b), b.lastTime, n);
      SpendsAtOnce(cfg, b);
      SameMoment(cfg, Serve(cfg, Some(b), b.lastTime).0, n - 1);
    }
  }

  /** Buckets that serve the first request alike are alike from then on. */
  lemma SameFromThere(cfg: Settings, a: Option<Bucket>, b: Option<Bucket>, at: real, n: nat)
    requires n > 0 && Serve(cfg, a, at) == Serve(cfg, b, at)
    ensures ClientRun(cfg, a, Repeat(at, n)) == ClientRun(cfg, b, Repeat(at, n))
    ensures ClientBucket(cfg, a, Repeat(at, n)) == ClientBucket(cfg, b, Repeat(at, n))
  {
    hide Serve, Spend, ClientRun, ClientBucket, Repeat;
    RepeatFirst(cfg, a, at, n);
    RepeatFirst(cfg, b, at, n);
  }

  /** A new bucket answers a whole burst. */
  lemma FullBurst(cfg: Settings, at: real, n: nat)
    requires n > 0 && cfg.capacity == n as real
    ensures forall k :: 0 <= k < n ==> ClientRun(cfg, None, Repeat(at, n))[k]
    ensures ClientBucket(cfg, None, Repeat(at, n)) == Some(Bucket(0.0, at))
  {
    hide Spend, ClientRun, ClientBucket, Repeat;
    var full := Bucket(cfg.capacity, at);
    SameMoment(cfg, full, n);
    SameFromThere(cfg, None, Some(full), at, n);
  }

  lemma DrainedRefills(cfg: Settings, last: real, at: real, refill: real)
    requires at > last && refill == Scale(cfg.rate, at - last) && refill <= cfg.capacity
    ensures Serve(cfg, Some(Bucket(0.0, last)), at) == Serve(cfg, Some(Bucket(refill, at)), at)
  {
    hide Scale;
    assert 0.0 + refill == refill;
  }

  /** A drained bucket that has not had time to refill completely refuses the last request of a burst. */
  lemma ShortOfBurst(cfg: Settings, last: real, at: real, n: nat, refill: real)
    requires n > 0 && cfg.capacity == n as real
    requires at > last && refill == Scale(cfg.rate, at - last) && refill < cfg.capacity
    ensures !ClientRun(cfg, Some(Bucket(0.0, last)), Repeat(at, n))[n - 1]
  {
    hide Scale, Serve, Spend, ClientRun, Repeat;
    DrainedRefills(cfg, last, at, refill);
    SameMoment(cfg, Bucket(refill, at), n);
    SameFromThere(cfg, Some(Bucket(0.0, last)), Some(Bucket(refill, at)), at, n);
  }

  /** A moment after which an idle bucket is swept although it is not full yet. */
  lemma EarlySweep(cfg: Settings) returns (at: real, refill: real)
    requires Positive(cfg) && cfg.rate * cfg.idleTTL < cfg.capacity
    ensures at > cfg.idleTTL && refill == Scale(cfg.rate, at - 0.0) && refill < cfg.capacity
  {
    var full := cfg.capacity / cfg.rate;
    assert cfg.rate * full == cfg.capacity;
    if full <= cfg.idleTTL {
      ScaleUp(cfg.rate, full, cfg.idleTTL);
    }
    at := (cfg.idleTTL + full) / 2.0;
    assert cfg.rate * at == (cfg.rate * cfg.idleTTL + cfg.rate * full) / 2.0;
    refill := Scale(cfg.rate, at - 0.0);
  }

  lemma {:induction false} VolleyTimely(ip: string, at: real, n: nat, rest: seq<Event>, clock: real)
    requires at >= clock && Timely(rest, at)
    ensures n > 0 ==> Timely(Volley(ip, at, n) + rest, clock)
    decreases n
  {
    if n > 1 {
      VolleyTimely(ip, at, n - 1, rest, at);
      assert (Volley(ip, at, n) + rest)[1..] == Volley(ip, at, n - 1) + rest;
    } else if n == 1 {
      assert (Volley(ip, at, n) + rest)[1..] == rest;
    }
  }

  /** A burst at time zero, a sweep of the client's shard, and another burst at the time of the sweep. */
  function BurstSweepBurst(ip: string, burst: nat, i: nat, at: real): seq<Event> {
    Volley(ip, 0.0, burst) + ([Sweep(i, at)] + (Volley(ip, at, burst) + []))
  }

  lemma BurstsTimely(ip: string, burst: nat, i: nat, at: real)
    requires at >= 0.0 && burst > 0
    ensures Timely(BurstSweepBurst(ip, burst, i, at), 0.0)
  {
    var again := Volley(ip, at, burst) + [];
    VolleyTimely(ip, at, burst, [], at);
    assert ([Sweep(i, at)] + again)[1..] == again;
    VolleyTimely(ip, 0.0, burst, [Sweep(i, at)] + again, 0.0);
  }

  /** The drained bucket is swept, and the second burst is served as from a new one. */
  lemma BurstsSharded(cfg: Settings, fhash: string -> nat, ip: string, burst: nat, at: real)
    requires burst > 0 && cfg.capacity == burst as real && at > cfg.idleTTL
    ensures ShardedRun(cfg, fhash, NoShards(), BurstSweepBurst(ip, burst, fhash(ip) % NUM_SHARDS, at))
         == ClientRun(cfg, None, Repeat(0.0, burst)) + ClientRun(cfg, None, Repeat(at, burst))
  {
    hide Serve, Spend, ShardedRun, ClientRun, ClientBucket, Repeat, Volley;
    var i, again := fhash(ip) % NUM_SHARDS, Volley(ip, at, burst) + [];
    FullBurst(cfg, 0.0, burst);
    VolleySharded(cfg, fhash, NoShards(), ip, 0.0, burst, [Sweep(i, at)] + again);
    var s := Put(NoShards(), i, ip, Bucket(0.0, 0.0));
    var swept := s[i := Swept(cfg, s[i], at)];
    ShardedSweep(cfg, fhash, s, i, at, again);
    assert Lookup(swept[i], ip) == None;
    VolleySharded(cfg, fhash, swept, ip, at, burst, []);
    RunOfNone(cfg, fhash, Put(swept, i, ip, ClientBucket(cfg, None, Repeat(at, burst)).value));
  }

  lemma RunOfNone(cfg: Settings, fhash: string -> nat, s: Shards)
    ensures ShardedRun(cfg, fhash, s, []) == []
  {
  }

  /** Without sweeping, the second burst finds the drained bucket. */
  lemma BurstsPlain(cfg: Settings, i: nat, ip: string, burst: nat, at: real)
    requires burst > 0 && cfg.capacity == burst as real
    ensures PlainRun(cfg, map[], BurstSweepBurst(ip, burst, i, at))
         == ClientRun(cfg, None, Repeat(0.0, burst)) + ClientRun(cfg, Some(Bucket(0.0, 0.0)), Repeat(at, burst))
  {
    hide Serve, Spend, PlainRun, ClientRun, ClientBucket, Repeat, Volley;
    var again, drained := Volley(ip, at, burst) + [], Bucket(0.0, 0.0);
    FullBurst(cfg, 0.0, burst);
    VolleyPlain(cfg, map[], ip, 0.0, burst, [Sweep(i, at)] + again);
    var m := map[][ip := drained];
    PlainSweep(cfg, m, i, at, again);
    VolleyPlain(cfg, m, ip, at, burst, []);
    PlainRunOfNone(cfg, m[ip := ClientBucket(cfg, Some(drained), Repeat(at, burst)).value]);
  }

  lemma PlainSweep(cfg: Settings, m: map<string, Bucket>, i: nat, at: real, rest: seq<Event>)
    ensures PlainRun(cfg, m, [Sweep(i, at)] + rest) == PlainRun(cfg, m, rest)
  {
    assert ([Sweep(i, at)] + rest)[1..] == rest;
  }

  lemma PlainRunOfNone(cfg: Settings, m: map<string, Bucket>)
    ensures PlainRun(cfg, m, []) == []
  {
  }

  /** If a bucket does not refill within the idle TTL, some run tells a client more than it is entitled to. */
  lemma SweepingVisible(cfg: Settings, fhash: string -> nat, burst: nat, ip: string) returns (events: seq<Event>)
    requires Positive(cfg) && cfg.capacity == burst as real && cfg.rate * cfg.idleTTL < cfg.capacity
    ensures Timely(events, 0.0)
    ensures ShardedRun(cfg, fhash, NoShards(), events) != PlainRun(cfg, map[], events)
  {
    hide Scale, Serve, Spend, ShardedRun, PlainRun, ClientRun, ClientBucket, Repeat, BurstSweepBurst, Timely;
    var at, refill := EarlySweep(cfg);
    var i := fhash(ip) % NUM_SHARDS;
    events := BurstSweepBurst(ip, burst, i, at);
    BurstsTimely(ip, burst, i, at);
    BurstsSharded(cfg, fhash, ip, burst, at);
    BurstsPlain(cfg, i, ip, burst, at);
    FullBurst(cfg, at, burst);
    ShortOfBurst(cfg, 0.0, at, burst, refill);
    var first, good := ClientRun(cfg, None, Repeat(0.0, burst)), ClientRun(cfg, None, Repeat(at, burst));
    var bad := ClientRun(cfg, Some(Bucket(0.0, 0.0)), Repeat(at, burst));
    assert (first + good)[2 * burst - 1] && !(first + bad)[2 * burst - 1];
  }

  /** Sweeping idle clients is invisible in every run exactly when rate * idleTTL >= burst. */
  lemma SweepingInvisibleIff(cfg: Settings, fhash: string -> nat, burst: nat)
    requires Positive(cfg) && cfg.capacity == burst as real
    ensures (forall events | Timely(events, 0.0) ::
               ShardedRun(cfg, fhash, NoShards(), events) == PlainRun(cfg, map[], events))
       <==> cfg.rate * cfg.idleTTL >= cfg.capacity
  {
    if cfg.rate * cfg.idleTTL >= cfg.capacity {
      forall events | Timely(events, 0.0)
        ensures ShardedRun(cfg, fhash, NoShards(), events) == PlainRun(cfg, map[], events)
      {
        SweepingInvisible(cfg, fhash, events, 0.0);
      }
    } else {
      var events := SweepingVisible(cfg, fhash, burst, "");
    }
  }
}
