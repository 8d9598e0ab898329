/**
  The circuit breaker of one backend (internal/circuitbreaker/breaker.go), and what it guarantees
  over every run.
 */
module Breaker {
  import opened Backend

  datatype Phase = Closed | Open | HalfOpen

  datatype Config = Config(threshold: int, openDuration: int, maxProbes: int)

  /** The settings configuration validation lets through. */
  predicate Positive(c: Config) {
    c.threshold > 0 && c.openDuration > 0 && c.maxProbes > 0
  }

  /** The fields of a breaker and the flag the balancers look at. */
  datatype State = State(phase: Phase, fails: int, probes: int, openedAt: int, flag: bool)

  const INITIAL := State(Closed, 0, 0, 0, false)

  /** A call, with the clock reading it takes. */
  datatype Event = Success | Failure(now: int) | Allow(now: int) | Query(now: int)

  function Opened(now: int): State {
    State(Open, 0, 0, now, true)
  }

  function Entered(s: State, probes: int): State {
    s.(phase := HalfOpen, probes := probes, flag := false)
  }

  function Step(c: Config, s: State, e: Event): State {
    match e
    case Success =>
      if s.phase == HalfOpen then s.(phase := Closed, fails := 0, probes := 0, flag := false)
      else if s.phase == Closed then s.(fails := 0) else s
    case Failure(now) =>
      if s.phase == HalfOpen || (s.phase == Closed && s.fails + 1 >= c.threshold) then Opened(now)
      else if s.phase == Closed then s.(fails := s.fails + 1) else s
    case Allow(now) =>
      if s.phase == Open && now - s.openedAt >= c.openDuration then Entered(s, 1)
      else if s.phase == HalfOpen && s.probes < c.maxProbes then s.(probes := s.probes + 1) else s
    case Query(now) =>
      if s.phase == Open && now - s.openedAt >= c.openDuration then Entered(s, 0) else s
  }

  /** Whether an Allow in this state lets the request through. */
  predicate Lets(c: Config, s: State, e: Event) {
    && e.Allow?
    && match s.phase
       case Closed => true
       case Open => e.now - s.openedAt >= c.openDuration
       case HalfOpen => s.probes < c.maxProbes
  }

  class CircuitBreaker {
    const config: Config
    const server: Server
    var phase: Phase
    var fails: int
    var probes: int
    var openedAt: int

    constructor (config: Config, server: Server)
      ensures this.config == config && this.server == server
      ensures Value() == INITIAL.(flag := server.circuitOpen)
    {
      this.config, this.server := config, server;
      phase, fails, probes, openedAt := Closed, 0, 0, 0;
    }

    function Value(): State
      reads this, server
    {
      State(phase, fails, probes, openedAt, server.circuitOpen)
    }

    method RecordSuccess()
      modifies this, server`circuitOpen
      ensures Value() == Step(config, old(Value()), Success)
    {
      match phase
      case HalfOpen =>
        phase, fails, probes := Closed, 0, 0;
        server.circuitOpen := false;
      case Closed =>
        fails := 0;
      case Open =>
    }

    method RecordFailure(now: int)
      modifies this, server`circuitOpen
      ensures Value() == Step(config, old(Value()), Failure(now))
    {
      match phase
      case Closed =>
        fails := fails + 1;
        if fails >= config.threshold {
          OpenCircuit(now);
        }
      case HalfOpen =>
        OpenCircuit(now);
      case Open =>
    }

    method OpenCircuit(now: int)
      modifies this, server`circuitOpen
      ensures Value() == Opened(now)
    {
      phase, fails, probes, openedAt := Open, 0, 0, now;
      server.circuitOpen := true;
    }

    method Allow(now: int) returns (ok: bool)
      modifies this, server`circuitOpen
      ensures Value() == Step(config, old(Value()), Event.Allow(now))
      ensures ok == Lets(config, old(Value()), Event.Allow(now))
    {
      match phase
      case Closed =>
        return true;
      case Open =>
        if now - openedAt >= config.openDuration {
          phase, probes := HalfOpen, 1;
          server.circuitOpen := false;
          return true;
        }
        return false;
      case HalfOpen =>
        if probes < config.maxProbes {
          probes := probes + 1;
          return true;
        }
        return false;
    }

    method GetState(now: int) returns (p: Phase)
      modifies this, server`circuitOpen
      ensures Value() == Step(config, old(Value()), Query(now)) && p == phase
    {
      if phase == Open && now - openedAt >= config.openDuration {
        phase, probes := HalfOpen, 0;
        server.circuitOpen := false;
      }
      return phase;
    }
  }

  // ---------------------------------------------------------------- runs

  /** The state after the first k events. */
  function At(c: Config, t: seq<Event>, k: nat): State
    requires k <= |t|
  {
    if k == 0 then INITIAL else Step(c, At(c, t, k - 1), t[k - 1])
  }

  /** A clock never goes back. */
  ghost predicate Ordered(t: seq<Event>) {
    forall i, j :: 0 <= i < j < |t| && !t[i].Success? && !t[j].Success? ==> t[i].now <= t[j].now
  }

  /** Every state of a run; the flag is up exactly while the circuit is open. */
  ghost predicate Sound(c: Config, s: State) {
    && s.flag == (s.phase == Open)
    && 0 <= s.fails && (s.phase == Closed ==> s.fails < c.threshold)
    && 0 <= s.probes <= c.maxProbes
  }

  lemma {:induction false} FlagExact(c: Config, t: seq<Event>, k: nat)
    requires Positive(c) && k <= |t|
    ensures Sound(c, At(c, t, k))
  {
    if k > 0 {
      FlagExact(c, t, k - 1);
    }
  }

  // ---------------------------------------------------------------- when the circuit opens

  /** Closed all the way from event j up to k, and nothing succeeded. */
  ghost predicate Row(c: Config, t: seq<Event>, j: nat, k: nat)
    requires j <= k <= |t|
  {
    && (forall m :: j <= m <= k ==> At(c, t, m).phase == Closed)
    && (forall m :: j <= m < k ==> !t[m].Success?)
  }

  function Failures(t: seq<Event>, j: nat, k: nat): nat
    requires j <= k <= |t|
    decreases k
  {
    if j == k then 0 else Failures(t, j, k - 1) + if t[k - 1].Failure? then 1 else 0
  }

  lemma {:induction false} RowCounted(c: Config, t: seq<Event>, k: nat) returns (j: nat)
    requires Positive(c) && k <= |t| && At(c, t, k).phase == Closed
    ensures j <= k && Row(c, t, j, k) && Failures(t, j, k) == At(c, t, k).fails
  {
    if k == 0 || t[k - 1].Success? || At(c, t, k - 1).phase != Closed {
      j := k;
    } else {
      j := RowCounted(c, t, k - 1);
    }
  }

  lemma {:induction false} RowAtMost(c: Config, t: seq<Event>, j: nat, k: nat)
    requires Positive(c) && j <= k <= |t| && Row(c, t, j, k)
    ensures Failures(t, j, k) <= At(c, t, k).fails
    decreases k
  {
    FlagExact(c, t, k);
    if j < k {
      RowAtMost(c, t, j, k - 1);
    }
  }

  /**
    A closed circuit opens exactly at the failure that completes `threshold` failures in a row
    since the last success or the last time it closed.
   */
  lemma OpensExactly(c: Config, t: seq<Event>, k: nat)
    requires Positive(c) && k < |t|
    ensures At(c, t, k).phase == Closed && At(c, t, k + 1).phase == Open
       <==> t[k].Failure? && exists j: nat :: j <= k && Row(c, t, j, k) && Failures(t, j, k) + 1 == c.threshold
  {
    FlagExact(c, t, k);
    if At(c, t, k).phase == Closed {
      var j := RowCounted(c, t, k);
    }
    forall j: nat | j <= k && Row(c, t, j, k)
      ensures Failures(t, j, k) <= At(c, t, k).fails
    {
      RowAtMost(c, t, j, k);
    }
  }

  // ---------------------------------------------------------------- how long it stays open

  /** Event i opened the circuit. */
  predicate OpensAt(c: Config, t: seq<Event>, i: nat)
    requires i < |t|
  {
    At(c, t, i).phase != Open && At(c, t, i + 1).phase == Open
  }

  /** Closed once, the circuit lets every request through until an event opens it. */
  lemma {:induction false} ClosedLetsAll(c: Config, t: seq<Event>, i: nat, k: nat)
    requires i <= k < |t| && At(c, t, i).phase == Closed && t[k].Allow?
    requires forall m :: i <= m < k ==> !OpensAt(c, t, m)
    ensures Lets(c, At(c, t, k), t[k])
  {
    StaysClosed(c, t, i, k);
  }

  lemma {:induction false} StaysClosed(c: Config, t: seq<Event>, i: nat, k: nat)
    requires i <= k <= |t| && At(c, t, i).phase == Closed
    requires forall m :: i <= m < k ==> !OpensAt(c, t, m)
    ensures At(c, t, k).phase == Closed
    decreases k
  {
    if i < k {
      StaysClosed(c, t, i, k - 1);
      assert !OpensAt(c, t, k - 1);
    }
  }

  /** Only a look at the breaker lets it leave Open, and only once the time is up. */
  predicate Ends(c: Config, since: int, e: Event) {
    (e.Allow? || e.Query?) && e.now - since >= c.openDuration
  }

  ghost predicate StaysOpen(c: Config, t: seq<Event>, i: nat, k: nat)
    requires i < k <= |t|
  {
    forall m :: i < m <= k ==> At(c, t, m).phase == Open
  }

  ghost predicate NoneEnds(c: Config, t: seq<Event>, i: nat, k: nat)
    requires i < k <= |t| && t[i].Failure?
  {
    forall m :: i < m < k ==> !Ends(c, t[i].now, t[m])
  }

  /** The circuit stays open up to k exactly if no look since came late enough. */
  lemma {:induction false} OpenUntil(c: Config, t: seq<Event>, i: nat, k: nat)
    requires i < k <= |t| && OpensAt(c, t, i)
    ensures t[i].Failure? && (StaysOpen(c, t, i, k) <==> NoneEnds(c, t, i, k))
    ensures StaysOpen(c, t, i, k) ==> At(c, t, k).openedAt == t[i].now
    decreases k
  {
    if k > i + 1 {
      OpenUntil(c, t, i, k - 1);
      assert At(c, t, k) == Step(c, At(c, t, k - 1), t[k - 1]);
      if StaysOpen(c, t, i, k) {
        assert StaysOpen(c, t, i, k - 1);
        assert !Ends(c, t[i].now, t[k - 1]);
      }
      if NoneEnds(c, t, i, k) {
        assert NoneEnds(c, t, i, k - 1);
      }
    }
  }

  /** No Allow succeeds within the open duration. */
  lemma NoneWhileOpen(c: Config, t: seq<Event>, i: nat, k: nat)
    requires i < k < |t| && Ordered(t) && OpensAt(c, t, i) && t[k].Allow? && t[i].Failure?
    requires t[k].now - t[i].now < c.openDuration
    ensures !Lets(c, At(c, t, k), t[k])
  {
    OpenUntil(c, t, i, k);
    assert NoneEnds(c, t, i, k);
  }

  // ---------------------------------------------------------------- how many probes there are

  /** Event i took the circuit from open to half-open. */
  predicate EntersAt(c: Config, t: seq<Event>, i: nat)
    requires i < |t|
  {
    At(c, t, i).phase == Open && At(c, t, i + 1).phase == HalfOpen
  }

  /** How many of the events from i up to k were let through. */
  function Passed(c: Config, t: seq<Event>, i: nat, k: nat): nat
    requires i <= k <= |t|
    decreases k
  {
    if i == k then 0 else Passed(c, t, i, k - 1) + if Lets(c, At(c, t, k - 1), t[k - 1]) then 1 else 0
  }

  /**
    Until an outcome is recorded, a half-open circuit lets through its first maxProbes requests
    (the one that found the time up included) and refuses the others. The first outcome ends this:
    a success closes the circuit, a failure opens it.
   */
  lemma {:induction false} ProbesExact(c: Config, t: seq<Event>, i: nat, k: nat)
    requires Positive(c) && i < k <= |t| && EntersAt(c, t, i)
    requires forall m :: i < m < k ==> t[m].Allow? || t[m].Query?
    ensures At(c, t, k).phase == HalfOpen
    ensures At(c, t, k).probes == Passed(c, t, i, k) <= c.maxProbes
    ensures forall now: int :: Lets(c, At(c, t, k), Allow(now)) <==> Passed(c, t, i, k) < c.maxProbes
    ensures k < |t| ==>
              At(c, t, k + 1).phase == if t[k].Success? then Closed else if t[k].Failure? then Open else HalfOpen
    decreases k
  {
    if k == i + 1 {
      assert Passed(c, t, i, i) == 0;
    } else {
      ProbesExact(c, t, i, k - 1);
    }
  }
}
