/**
  The restart protocol (internal/restart/restart.go, cmd/lb/main.go): triggers in the parent, the
  child each of them may start, and the readiness pipe between the two, as steps that interleave.
  A trigger and its child share a number.
 */
module Restart {
  import opened Backend

  /** What the goroutine that reads the pipe has delivered. */
  datatype Got = Nothing | Byte(b: char) | Failure

  datatype Trigger =
    | Rejected          // the lock was taken
    | Locked            // before the child is started
    | Waiting(got: Got) // for readiness, or for the timeout
    | Killing           // the child is being killed and waited for
    | Failed            // returned an error
    | Succeeded         // returned nil
    | Signalled         // and has asked the parent to drain

  datatype Child = Starting | Ready | Dead

  /** A child, what it has written and the parent has not read, and whether it ever wrote the ready byte. */
  datatype Process = Process(child: Child, pipe: string, saidReady: bool)

  datatype State = State(lock: Option<nat>, triggers: map<nat, Trigger>, processes: map<nat, Process>,
                         asked: bool, draining: bool)

  const INITIAL := State(None, map[], map[], false, false)

  const READY := 'R'

  datatype Event =
    | TryLock(t: nat) | StartChild(t: nat) | StartFails(t: nat)
    | ReadByte(t: nat) | ReadFails(t: nat) | Decide(t: nat) | Timeout(t: nat) | Reap(t: nat) | Signal(t: nat)
    | SignalReady(t: nat) | WriteOther(t: nat, b: char) | Crash(t: nat)
    | Drain

  predicate At(s: State, t: nat, p: Trigger) {
    t in s.triggers && s.triggers[t] == p
  }

  predicate IsWaiting(s: State, t: nat) {
    t in s.triggers && s.triggers[t].Waiting? && t in s.processes
  }

  predicate Enabled(s: State, e: Event) {
    match e
    case TryLock(t) => t !in s.triggers
    case StartChild(t) => At(s, t, Locked) && t !in s.processes
    case StartFails(t) => At(s, t, Locked)
    case ReadByte(t) => IsWaiting(s, t) && s.triggers[t].got == Nothing && s.processes[t].pipe != ""
    case ReadFails(t) => IsWaiting(s, t) && s.triggers[t].got == Nothing
    case Decide(t) => IsWaiting(s, t) && s.triggers[t].got != Nothing
    case Timeout(t) => IsWaiting(s, t)
    case Reap(t) => At(s, t, Killing) && t in s.processes
    case Signal(t) => At(s, t, Succeeded)
    case SignalReady(t) => t in s.processes && s.processes[t].child == Starting
    case WriteOther(t, b) => t in s.processes && s.processes[t].child == Starting && b != READY
    case Crash(t) => t in s.processes
    case Drain => s.asked
  }

  function Returns(s: State, t: nat, p: Trigger): State {
    s.(triggers := s.triggers[t := p], lock := None)
  }

  function Moves(s: State, t: nat, p: Trigger): State {
    s.(triggers := s.triggers[t := p])
  }

  function Becomes(s: State, t: nat, p: Process): State {
    s.(processes := s.processes[t := p])
  }

  function Step(s: State, e: Event): State
    requires Enabled(s, e)
  {
    match e
    case TryLock(t) => if s.lock.None? then Moves(s, t, Locked).(lock := Some(t)) else Moves(s, t, Rejected)
    case StartChild(t) => Becomes(Moves(s, t, Waiting(Nothing)), t, Process(Starting, "", false))
    case StartFails(t) => Returns(s, t, Failed)
    case ReadByte(t) =>
      var p := s.processes[t];
      Becomes(Moves(s, t, Waiting(Byte(p.pipe[0]))), t, p.(pipe := p.pipe[1..]))
    case ReadFails(t) => Moves(s, t, Waiting(Failure))
    case Decide(t) => if s.triggers[t].got == Byte(READY) then Returns(s, t, Succeeded) else Moves(s, t, Killing)
    case Timeout(t) => Moves(s, t, Killing)
    case Reap(t) => Becomes(Returns(s, t, Failed), t, s.processes[t].(child := Dead))
    case Signal(t) => Moves(s, t, Signalled).(asked := true)
    case SignalReady(t) =>
      Becomes(s, t, Process(Ready, s.processes[t].pipe + [READY], true))
    case WriteOther(t, b) => Becomes(s, t, s.processes[t].(pipe := s.processes[t].pipe + [b]))
    case Crash(t) => Becomes(s, t, s.processes[t].(child := Dead))
    case Drain => s.(draining := true)
  }

  ghost predicate IsRun(s: State, es: seq<Event>)
    decreases |es|
  {
    es == [] || (Enabled(s, es[0]) && IsRun(Step(s, es[0]), es[1..]))
  }

  function After(s: State, es: seq<Event>): State
    requires IsRun(s, es)
    decreases |es|
  {
    if es == [] then s else After(Step(s, es[0]), es[1..])
  }

  // ---------------------------------------------------------------- what every step keeps

  predicate Active(p: Trigger) {
    p.Locked? || p.Waiting? || p.Killing?
  }

  /** The ready byte is in the pipe or was read only if the child wrote it. */
  ghost predicate Honest(s: State, t: nat)
    requires t in s.processes
  {
    var p := s.processes[t];
    && (READY in p.pipe ==> p.saidReady)
    && (p.child == Ready ==> p.saidReady) && (p.saidReady ==> p.child != Starting)
    && (t in s.triggers && s.triggers[t] == Waiting(Byte(READY)) ==> p.saidReady)
  }

  /** One trigger: it is active exactly while it holds the lock, and its child is ready or gone once it is done. */
  ghost predicate Consistent(s: State, t: nat) {
    && (t in s.triggers && Active(s.triggers[t]) <==> s.lock == Some(t))
    && (t in s.processes ==> t in s.triggers && Honest(s, t))
    && (t in s.triggers ==>
          && (s.triggers[t].Rejected? || s.triggers[t].Locked? ==> t !in s.processes)
          && (s.triggers[t].Waiting? || s.triggers[t].Killing? ==> t in s.processes)
          && (s.triggers[t].Failed? ==> t in s.processes ==> s.processes[t].child == Dead)
          && (s.triggers[t].Succeeded? || s.triggers[t].Signalled? ==>
                t in s.processes && s.processes[t].saidReady && s.processes[t].child != Starting))
  }

  ghost predicate Inv(s: State) {
    && (forall t: nat :: Consistent(s, t))
    && (s.draining ==> s.asked)
    && (s.asked ==> exists t: nat :: At(s, t, Signalled))
  }

  /** A step leaves other triggers alone, except that it may take or free the lock. */
  lemma StepKeepsOthers(s: State, e: Event, t: nat)
    requires Enabled(s, e) && Consistent(s, t) && (!e.Drain? ==> Consistent(s, e.t) && e.t != t)
    ensures Consistent(Step(s, e), t)
  {
    var r := Step(s, e);
    assert t in r.triggers <==> t in s.triggers;
    assert t in r.processes <==> t in s.processes;
    assert t in r.triggers ==> r.triggers[t] == s.triggers[t];
    assert t in r.processes ==> r.processes[t] == s.processes[t];
    assert r.lock == Some(t) <==> s.lock == Some(t);
  }

  lemma StepKeepsOwn(s: State, e: Event)
    requires Enabled(s, e) && !e.Drain? && Consistent(s, e.t)
    ensures Consistent(Step(s, e), e.t)
  {
  }

  lemma StepKeeps(s: State, e: Event)
    requires Inv(s) && Enabled(s, e)
    ensures Inv(Step(s, e))
  {
    var r := Step(s, e);
    forall t: nat
      ensures Consistent(r, t)
    {
      assert Consistent(s, t) && (!e.Drain? ==> Consistent(s, e.t));
      if !e.Drain? && e.t == t {
        StepKeepsOwn(s, e);
      } else {
        StepKeepsOthers(s, e, t);
      }
    }
    if s.asked {
      var t: nat :| At(s, t, Signalled);
      assert At(r, t, Signalled);
    } else if e.Signal? {
      assert At(r, e.t, Signalled);
    }
  }

  lemma {:induction false} RunKeeps(s: State, es: seq<Event>)
    requires Inv(s) && IsRun(s, es)
    ensures Inv(After(s, es))
    decreases |es|
  {
    if es != [] {
      StepKeeps(s, es[0]);
      RunKeeps(Step(s, es[0]), es[1..]);
    }
  }

  lemma EveryRun(es: seq<Event>)
    requires IsRun(INITIAL, es)
    ensures Inv(After(INITIAL, es))
  {
    RunKeeps(INITIAL, es);
  }

  /** Whatever crashes, times out or is triggered again, at most one child is not yet ready. */
  lemma OneUnreadyChild(es: seq<Event>, t: nat, u: nat)
    requires IsRun(INITIAL, es)
    requires var s := After(INITIAL, es);
             && t in s.processes && u in s.processes
             && s.processes[t].child == Starting && s.processes[u].child == Starting
    ensures t == u && After(INITIAL, es).lock == Some(t)
  {
    EveryRun(es);
    var s := After(INITIAL, es);
    assert Consistent(s, t) && Consistent(s, u);
  }

  /** Somewhere in the run the parent read the ready byte off trigger t's pipe. */
  ghost predicate ReadReady(s: State, es: seq<Event>, t: nat)
    requires IsRun(s, es)
    decreases |es|
  {
    es != [] &&
    (|| (es[0] == ReadByte(t) && s.processes[t].pipe[0] == READY)
     || ReadReady(Step(s, es[0]), es[1..], t))
  }

  /** Beyond the read, so the byte was delivered. */
  predicate PastReady(s: State, t: nat) {
    t in s.triggers && (s.triggers[t] == Waiting(Byte(READY)) || s.triggers[t].Succeeded? || s.triggers[t].Signalled?)
  }

  lemma {:induction false} PastReadyRead(s: State, es: seq<Event>, t: nat)
    requires IsRun(s, es) && PastReady(After(s, es), t) && !PastReady(s, t)
    ensures ReadReady(s, es, t)
    decreases |es|
  {
    var r := Step(s, es[0]);
    if PastReady(r, t) {
      assert es[0] == ReadByte(t);
    } else {
      PastReadyRead(r, es[1..], t);
    }
  }

  /** The parent drains for a restart only after a child wrote the ready byte and the parent read it from its pipe. */
  lemma DrainsOnlyForReadyChild(es: seq<Event>)
    requires IsRun(INITIAL, es) && After(INITIAL, es).draining
    ensures var s := After(INITIAL, es);
            exists t: nat ::
              At(s, t, Signalled) && t in s.processes && s.processes[t].saidReady && ReadReady(INITIAL, es, t)
  {
    EveryRun(es);
    var s := After(INITIAL, es);
    var t: nat :| At(s, t, Signalled);
    assert Consistent(s, t);
    PastReadyRead(INITIAL, es, t);
  }

  /** A trigger that finds another one at work is rejected and never has a child. */
  lemma {:induction false} RejectedHasNoChild(s: State, es: seq<Event>, t: nat)
    requires Inv(s) && IsRun(s, es) && At(s, t, Rejected)
    ensures At(After(s, es), t, Rejected) && t !in After(s, es).processes
    decreases |es|
  {
    assert Consistent(s, t);
    if es != [] {
      StepKeeps(s, es[0]);
      RejectedHasNoChild(Step(s, es[0]), es[1..], t);
    }
  }

  ghost predicate NoneActive(s: State) {
    forall t :: t in s.triggers ==> !Active(s.triggers[t])
  }

  /** Between triggers the lock is free and no child is left half-started, so the next trigger goes ahead. */
  lemma NothingLeftBehind(es: seq<Event>)
    requires IsRun(INITIAL, es)
    requires NoneActive(After(INITIAL, es))
    ensures var s := After(INITIAL, es);
            && s.lock.None?
            && (forall t :: t in s.processes ==> s.processes[t].child != Starting)
            && (forall t: nat :: Enabled(s, TryLock(t)) ==> At(Step(s, TryLock(t)), t, Locked))
  {
    EveryRun(es);
    var s := After(INITIAL, es);
    assert s.lock.Some? ==> Consistent(s, s.lock.value);
    forall t | t in s.processes
      ensures s.processes[t].child != Starting
    {
      assert Consistent(s, t);
      assert t in s.triggers && !Active(s.triggers[t]);
    }
  }

  /** A failed trigger leaves no live child; whatever happens next it stays failed, and never makes the parent drain. */
  lemma {:induction false} FailureIsHarmless(s: State, es: seq<Event>, t: nat)
    requires Inv(s) && At(s, t, Failed) && IsRun(s, es)
    ensures At(After(s, es), t, Failed)
    ensures t in After(s, es).processes ==> After(s, es).processes[t].child == Dead
    ensures Signal(t) !in es
    decreases |es|
  {
    assert Consistent(s, t);
    if es != [] {
      StepKeeps(s, es[0]);
      FailureIsHarmless(Step(s, es[0]), es[1..], t);
      assert es[0] != Signal(t) && es == [es[0]] + es[1..];
    }
  }

  // ---------------------------------------------------------------- exactly which triggers succeed

  /** Returned nil. */
  predicate Done(s: State, t: nat) {
    At(s, t, Succeeded) || At(s, t, Signalled)
  }

  /** Not yet read anything. */
  predicate Early(s: State, t: nat) {
    t in s.triggers ==> s.triggers[t] == Locked || s.triggers[t] == Waiting(Nothing)
  }

  /** Past its read, a trigger reads nothing more; and once it no longer waits, it decides nothing. */
  lemma {:induction false} NothingMore(s: State, es: seq<Event>, t: nat)
    requires IsRun(s, es) && !Early(s, t)
    ensures !ReadReady(s, es, t)
    ensures !s.triggers[t].Waiting? ==> Decide(t) !in es
    decreases |es|
  {
    if es != [] {
      assert !Early(Step(s, es[0]), t);
      NothingMore(Step(s, es[0]), es[1..], t);
      assert es == [es[0]] + es[1..];
    }
  }

  /** Has read the ready byte. */
  predicate HasByte(s: State, t: nat) {
    At(s, t, Waiting(Byte(READY)))
  }

  lemma OutcomeStep(s: State, e: Event, t: nat)
    requires Enabled(s, e)
    ensures var r := Step(s, e);
            && (Done(r, t) <==> Done(s, t) || (HasByte(s, t) && e == Decide(t)))
            && (HasByte(r, t) <==>
                || (HasByte(s, t) && e != Decide(t) && e != Timeout(t))
                || (Early(s, t) && e == ReadByte(t) && s.processes[t].pipe[0] == READY))
            && (Early(r, t) ==> Early(s, t) && e != ReadByte(t) && e != Decide(t))
            && (HasByte(s, t) && e == Timeout(t) ==> At(r, t, Killing))
  {
  }

  lemma {:induction false} SucceedsFrom(s: State, es: seq<Event>, t: nat)
    requires IsRun(s, es)
    ensures Done(After(s, es), t)
       <==> Done(s, t) || (Decide(t) in es && (HasByte(s, t) || (Early(s, t) && ReadReady(s, es, t))))
    decreases |es|
  {
    if es != [] {
      hide Done, HasByte, Early, Step, Enabled;
      var r, rest := Step(s, es[0]), es[1..];
      OutcomeStep(s, es[0], t);
      SucceedsFrom(r, rest, t);
      if !Early(r, t) {
        NothingMore(r, rest, t);
      }
      assert Decide(t) in es <==> es[0] == Decide(t) || Decide(t) in rest;
    }
  }

  /**
    In any run a trigger succeeds if and only if the parent reads the ready byte off its child's pipe and
    gets to decide on it, before the timeout does.
   */
  lemma SucceedsIff(es: seq<Event>, t: nat)
    requires IsRun(INITIAL, es)
    ensures Done(After(INITIAL, es), t) <==> ReadReady(INITIAL, es, t) && Decide(t) in es
  {
    SucceedsFrom(INITIAL, es, t);
  }

  lemma Then(s: State, e: Event, es: seq<Event>)
    requires Enabled(s, e) && IsRun(Step(s, e), es)
    ensures IsRun(s, [e] + es) && After(s, [e] + es) == After(Step(s, e), es)
  {
    assert ([e] + es)[1..] == es;
  }

  /** A trigger at work can always be brought to its end, without a word from its child. */
  lemma CanEnd(s: State, t: nat) returns (es: seq<Event>)
    requires Inv(s) && t in s.triggers && Active(s.triggers[t])
    ensures IsRun(s, es) && At(After(s, es), t, Failed) && After(s, es).lock.None?
  {
    assert Consistent(s, t);
    if s.triggers[t].Locked? {
      Then(s, StartFails(t), []);
      es := [StartFails(t)] + [];
    } else if s.triggers[t].Killing? {
      Then(s, Reap(t), []);
      es := [Reap(t)] + [];
    } else {
      Then(Step(s, Timeout(t)), Reap(t), []);
      Then(s, Timeout(t), [Reap(t)] + []);
      es := [Timeout(t)] + ([Reap(t)] + []);
    }
  }

  /** And one that has read the ready byte can go on until the parent drains. */
  lemma CanDrain(s: State, t: nat) returns (es: seq<Event>)
    requires HasByte(s, t) && t in s.processes
    ensures IsRun(s, es) && After(s, es).draining && At(After(s, es), t, Signalled)
  {
    var r1 := Step(s, Decide(t));
    var r2 := Step(r1, Signal(t));
    Then(r2, Drain, []);
    Then(r1, Signal(t), [Drain] + []);
    Then(s, Decide(t), [Signal(t)] + ([Drain] + []));
    es := [Decide(t)] + ([Signal(t)] + ([Drain] + []));
  }
}
