/**
  The accept loop of the stream proxies, its handlers and Close, as the steps they take between
  synchronisation points (internal/proxy/l4/tcp.go, internal/proxy/l4/tls_passthrough.go).

  One acceptor, any number of handlers and one closer interleave freely. Connections are numbered
  in the order they are accepted.
 */
module AcceptLoop {
  import opened Backend
  import opened Counting

  /** Where the acceptor is, with the connection in its hands. */
  datatype Acceptor =
    | Waiting
    | Accepted(conn: nat)   // before the semaphore
    | Admitted(conn: nat)   // has its slot, before looking at closing
    | Counted(conn: nat)    // added to the WaitGroup, before the handler starts
    | Leaving(conn: nat)    // saw closing, closed the connection, before giving the slot back
    | Returned

  datatype Closer = NotCalled | Draining | Drained

  datatype State = State(
    sem: nat, wg: nat, closing: bool, acceptor: Acceptor, closer: Closer,
    next: nat,                // number of the next connection
    dropped: set<nat>,        // closed at once by the acceptor
    running: set<nat>,        // handlers still at work
    released: set<nat>,       // handlers that have given their slot back
    finished: set<nat>)       // handlers that have left the WaitGroup

  const INITIAL := State(0, 0, false, Waiting, NotCalled, 0, {}, {}, {}, {})

  datatype Event =
    | Accept | AcceptFails(giveUp: bool) | TakeSlot | LookAtClosing | StartHandler | GiveSlotBack
    | ReleaseSlot(conn: nat) | LeaveWaitGroup(conn: nat)
    | Close | WaitReturns

  /** The semaphore channel; without a limit there is none. */
  type Limit = Option<nat>

  function Taken(limit: Limit, sem: nat): nat {
    if limit.Some? then sem + 1 else sem
  }

  /** A receive from the semaphore goes ahead only if the channel holds something. */
  predicate CanReceive(limit: Limit, sem: nat) {
    limit.Some? ==> sem > 0
  }

  function Received(limit: Limit, sem: nat): nat
    requires CanReceive(limit, sem)
  {
    if limit.Some? then sem - 1 else sem
  }

  /** Whether an event is the next step of its goroutine and is not blocked. */
  predicate Enabled(limit: Limit, s: State, e: Event) {
    match e
    case Accept => s.acceptor.Waiting?
    case AcceptFails(_) => s.acceptor.Waiting?
    case TakeSlot => s.acceptor.Accepted?
    case LookAtClosing => s.acceptor.Admitted?
    case StartHandler => s.acceptor.Counted?
    case GiveSlotBack => s.acceptor.Leaving? && CanReceive(limit, s.sem)
    case ReleaseSlot(c) => c in s.running && CanReceive(limit, s.sem)
    case LeaveWaitGroup(c) => c in s.released && s.wg > 0
    case Close => s.closer.NotCalled?
    case WaitReturns => s.closer.Draining? && s.wg == 0
  }

  function Step(limit: Limit, s: State, e: Event): State
    requires Enabled(limit, s, e)
  {
    match e
    case Accept => s.(acceptor := Accepted(s.next), next := s.next + 1)
    case AcceptFails(giveUp) => s.(acceptor := if giveUp then Returned else Waiting)
    case TakeSlot =>
      var c := s.acceptor.conn;
      if limit.Some? && s.sem >= limit.value then s.(acceptor := Waiting, dropped := s.dropped + {c})
      else s.(acceptor := Admitted(c), sem := Taken(limit, s.sem))
    case LookAtClosing =>
      var c := s.acceptor.conn;
      if s.closing then s.(acceptor := Leaving(c)) else s.(acceptor := Counted(c), wg := s.wg + 1)
    case StartHandler => s.(acceptor := Waiting, running := s.running + {s.acceptor.conn})
    case GiveSlotBack =>
      s.(acceptor := Returned, sem := Received(limit, s.sem), dropped := s.dropped + {s.acceptor.conn})
    case ReleaseSlot(c) => s.(sem := Received(limit, s.sem), running := s.running - {c}, released := s.released + {c})
    case LeaveWaitGroup(c) => s.(wg := s.wg - 1, released := s.released - {c}, finished := s.finished + {c})
    case Close => s.(closing := true, closer := Draining)
    case WaitReturns => s.(closer := Drained)
  }

  /** A run: events that are each the next step of some goroutine. */
  ghost predicate IsRun(limit: Limit, s: State, t: seq<Event>)
    decreases |t|
  {
    t == [] || (Enabled(limit, s, t[0]) && IsRun(limit, Step(limit, s, t[0]), t[1..]))
  }

  function After(limit: Limit, s: State, t: seq<Event>): State
    requires IsRun(limit, s, t)
    decreases |t|
  {
    if t == [] then s else After(limit, Step(limit, s, t[0]), t[1..])
  }

  // ---------------------------------------------------------------- what every step keeps

  function Holds(a: Acceptor): nat {
    if a.Admitted? || a.Counted? || a.Leaving? then 1 else 0
  }

  function InHand(a: Acceptor): set<nat> {
    if a.Accepted? || a.Admitted? || a.Counted? || a.Leaving? then {a.conn} else {}
  }

  /** The slots in use are those of the handlers at work and the one in the acceptor's hand. */
  ghost predicate SlotsExact(limit: Limit, s: State) {
    match limit
    case None => s.sem == 0
    case Some(n) => s.sem == |s.running| + Holds(s.acceptor) <= n
  }

  /** The WaitGroup counts the handlers that have not left it, and the one about to start. */
  ghost predicate WaitGroupExact(s: State) {
    s.wg == |s.running| + |s.released| + if s.acceptor.Counted? then 1 else 0
  }

  /** In how many places a connection is. */
  function Places(s: State, c: nat): nat {
    One(c in s.dropped) + One(c in s.running) + One(c in s.released) + One(c in s.finished) +
    One(c in InHand(s.acceptor))
  }

  /**
    Each accepted connection was dropped, or has one handler (at work, released or finished), or is
    in the acceptor's hand; and is only one of these.
   */
  ghost predicate Accounted(s: State) {
    forall c: nat :: Places(s, c) == One(c < s.next)
  }

  ghost predicate Closing(s: State) {
    && s.closing == !s.closer.NotCalled? && (s.acceptor.Leaving? ==> s.closing)
    && (s.closer.Drained? ==> s.wg == 0)
  }

  ghost predicate Inv(limit: Limit, s: State) {
    SlotsExact(limit, s) && WaitGroupExact(s) && Accounted(s) && Closing(s)
  }

  /** The connection an event moves. */
  function Moved(s: State, e: Event): nat {
    if e.ReleaseSlot? || e.LeaveWaitGroup? then e.conn
    else if InHand(s.acceptor) != {} then s.acceptor.conn else s.next
  }

  lemma StepKeepsSlots(limit: Limit, s: State, e: Event)
    requires SlotsExact(limit, s) && Enabled(limit, s, e) && Places(s, Moved(s, e)) <= 1
    ensures SlotsExact(limit, Step(limit, s, e))
  {
    var r := Step(limit, s, e);
    match e
    case StartHandler =>
      assert s.acceptor.conn !in s.running;
    case ReleaseSlot(c) =>
      assert |r.running| == |s.running| - 1;
    case _ =>
      assert r.running == s.running;
  }

  lemma StepKeepsWaitGroup(limit: Limit, s: State, e: Event)
    requires WaitGroupExact(s) && Enabled(limit, s, e) && Places(s, Moved(s, e)) <= 1
    ensures WaitGroupExact(Step(limit, s, e))
  {
    var r := Step(limit, s, e);
    match e
    case StartHandler =>
      assert s.acceptor.conn !in s.running;
    case ReleaseSlot(c) =>
      assert |r.running| == |s.running| - 1 && |r.released| == |s.released| + 1;
    case LeaveWaitGroup(c) =>
      assert |r.released| == |s.released| - 1;
    case _ =>
      assert r.running == s.running && r.released == s.released;
  }

  lemma StepKeepsPlaces(limit: Limit, s: State, e: Event, c: nat)
    requires Enabled(limit, s, e)
    requires Places(s, c) == One(c < s.next) && Places(s, Moved(s, e)) == One(Moved(s, e) < s.next)
    ensures Places(Step(limit, s, e), c) == One(c < Step(limit, s, e).next)
  {
  }

  lemma StepKeepsAccounted(limit: Limit, s: State, e: Event)
    requires Accounted(s) && Enabled(limit, s, e)
    ensures Accounted(Step(limit, s, e)) && Places(s, Moved(s, e)) <= 1
  {
    forall c: nat
      ensures Places(Step(limit, s, e), c) == One(c < Step(limit, s, e).next)
    {
      assert Places(s, Moved(s, e)) == One(Moved(s, e) < s.next);
      StepKeepsPlaces(limit, s, e, c);
    }
  }

  lemma StepKeepsClosing(limit: Limit, s: State, e: Event)
    requires Closing(s) && WaitGroupExact(s) && Enabled(limit, s, e)
    ensures Closing(Step(limit, s, e))
  {
  }

  lemma StepKeeps(limit: Limit, s: State, e: Event)
    requires Inv(limit, s) && Enabled(limit, s, e)
    ensures Inv(limit, Step(limit, s, e))
  {
    StepKeepsAccounted(limit, s, e);
    StepKeepsSlots(limit, s, e);
    StepKeepsWaitGroup(limit, s, e);
    StepKeepsClosing(limit, s, e);
  }

  /** Slots, WaitGroup and connections are accounted for exactly in every interleaving. */
  lemma {:induction false} RunKeeps(limit: Limit, s: State, t: seq<Event>)
    requires Inv(limit, s) && IsRun(limit, s, t)
    ensures Inv(limit, After(limit, s, t))
    decreases |t|
  {
    if t != [] {
      StepKeeps(limit, s, t[0]);
      RunKeeps(limit, Step(limit, s, t[0]), t[1..]);
    }
  }

  lemma EveryRun(limit: Limit, t: seq<Event>)
    requires IsRun(limit, INITIAL, t)
    ensures Inv(limit, After(limit, INITIAL, t))
  {
    RunKeeps(limit, INITIAL, t);
  }

  /**
    No receive from the semaphore ever blocks and the WaitGroup never goes below zero; and the acceptor
    has a next step wherever it is, until it has returned.
   */
  lemma NothingBlocks(limit: Limit, t: seq<Event>)
    requires IsRun(limit, INITIAL, t)
    ensures var s := After(limit, INITIAL, t);
            && (s.acceptor.Leaving? ==> Enabled(limit, s, GiveSlotBack))
            && (forall c :: c in s.running ==> Enabled(limit, s, ReleaseSlot(c)))
            && (forall c :: c in s.released ==> Enabled(limit, s, LeaveWaitGroup(c)))
            && (s.acceptor.Waiting? ==> Enabled(limit, s, Accept))
            && (s.acceptor.Accepted? ==> Enabled(limit, s, TakeSlot))
            && (s.acceptor.Admitted? ==> Enabled(limit, s, LookAtClosing))
            && (s.acceptor.Counted? ==> Enabled(limit, s, StartHandler))
            && (s.closer.NotCalled? ==> Enabled(limit, s, Close))
  {
    EveryRun(limit, t);
    var s := After(limit, INITIAL, t);
    assert s.running != {} ==> |s.running| > 0;
    assert s.released != {} ==> |s.released| > 0;
  }

  // ---------------------------------------------------------------- who is turned away

  /** The connection is in the acceptor's hand, and all slots are taken by handlers or Close was called. */
  ghost predicate NoPlace(limit: Limit, s: State, c: nat) {
    c in InHand(s.acceptor) && (!s.closer.NotCalled? || (limit.Some? && |s.running| == limit.value))
  }

  lemma {:induction false} DroppedForAReason(limit: Limit, s: State, t: seq<Event>, c: nat) returns (k: nat)
    requires Inv(limit, s) && IsRun(limit, s, t) && c !in s.dropped && c in After(limit, s, t).dropped
    ensures k <= |t| && IsRun(limit, s, t[..k]) && NoPlace(limit, After(limit, s, t[..k]), c)
    decreases |t|
  {
    var r := Step(limit, s, t[0]);
    StepKeeps(limit, s, t[0]);
    if c in r.dropped {
      k := 0;
      assert t[..0] == [];
    } else {
      var j := DroppedForAReason(limit, r, t[1..], c);
      k := j + 1;
      assert t[..k][1..] == t[1..][..j] && t[..k][0] == t[0];
    }
  }

  /**
    A connection is turned away only if, at some moment while the acceptor had it, as many handlers were
    at work as there are slots, or Close had been called.
   */
  lemma TurnedAwayOnlyIfFull(limit: Limit, t: seq<Event>, c: nat) returns (k: nat)
    requires IsRun(limit, INITIAL, t) && c in After(limit, INITIAL, t).dropped
    ensures k <= |t| && IsRun(limit, INITIAL, t[..k]) && NoPlace(limit, After(limit, INITIAL, t[..k]), c)
  {
    k := DroppedForAReason(limit, INITIAL, t, c);
  }

  // ---------------------------------------------------------------- after Close

  /** Once the wait has returned, no handler is alive, and whatever happens next none ever starts. */
  lemma {:induction false} DrainedForGood(limit: Limit, s: State, t: seq<Event>)
    requires Inv(limit, s) && s.closer.Drained? && IsRun(limit, s, t)
    ensures var r := After(limit, s, t);
            r.closer.Drained? && r.running == {} && r.released == {} && r.finished == s.finished
    decreases |t|
  {
    if t != [] {
      StepKeeps(limit, s, t[0]);
      DrainedForGood(limit, Step(limit, s, t[0]), t[1..]);
    }
  }

  lemma {:induction false} ReturnsFor(limit: Limit, s: State, t: seq<Event>)
    requires Inv(limit, s) && IsRun(limit, s, t) && !s.acceptor.Returned? && After(limit, s, t).acceptor.Returned?
    ensures AcceptFails(true) in t || !After(limit, s, t).closer.NotCalled?
    decreases |t|
  {
    var r := Step(limit, s, t[0]);
    StepKeeps(limit, s, t[0]);
    if r.acceptor.Returned? {
      CalledForGood(limit, r, t[1..]);
    } else {
      ReturnsFor(limit, r, t[1..]);
    }
  }

  lemma {:induction false} CalledForGood(limit: Limit, s: State, t: seq<Event>)
    requires IsRun(limit, s, t)
    ensures !s.closer.NotCalled? ==> !After(limit, s, t).closer.NotCalled?
    decreases |t|
  {
    if t != [] {
      CalledForGood(limit, Step(limit, s, t[0]), t[1..]);
    }
  }

  /** The accept loop ends only if accepting failed for good, or after Close. */
  lemma ReturnsOnlyWhenDone(limit: Limit, t: seq<Event>)
    requires IsRun(limit, INITIAL, t) && After(limit, INITIAL, t).acceptor.Returned?
    ensures AcceptFails(true) in t || !After(limit, INITIAL, t).closer.NotCalled?
  {
    ReturnsFor(limit, INITIAL, t);
  }

  /** An acceptor that has seen Close takes no further connection. */
  lemma {:induction false} AcceptsNoMore(limit: Limit, s: State, t: seq<Event>)
    requires IsRun(limit, s, t) && (s.acceptor.Leaving? || s.acceptor.Returned?)
    ensures After(limit, s, t).next == s.next
    decreases |t|
  {
    if t != [] {
      AcceptsNoMore(limit, Step(limit, s, t[0]), t[1..]);
    }
  }

  /** Before that, while Close waits, some handler can always make a step towards it. */
  lemma DrainProgresses(limit: Limit, s: State)
    requires Inv(limit, s) && s.closer.Draining?
    ensures s.wg == 0 ==> Enabled(limit, s, WaitReturns)
    ensures s.wg > 0 ==> Enabled(limit, s, StartHandler)
                         || (exists c :: Enabled(limit, s, ReleaseSlot(c)))
                         || (exists c :: Enabled(limit, s, LeaveWaitGroup(c)))
  {
    if s.wg > 0 && !s.acceptor.Counted? {
      if s.running != {} {
        var c :| c in s.running;
        assert Enabled(limit, s, ReleaseSlot(c));
      } else {
        var c :| c in s.released;
        assert Enabled(limit, s, LeaveWaitGroup(c));
      }
    }
  }

  /** What the WaitGroup is still waiting for: two steps per handler at work, one per released one. */
  function Left(s: State): nat {
    2 * |s.running| + |s.released| + if s.acceptor.Counted? then 3 else 0
  }

  predicate Drains(e: Event) {
    e.StartHandler? || e.ReleaseSlot? || e.LeaveWaitGroup?
  }

  /** While Close waits, every such step brings the end nearer and no other step pushes it away. */
  lemma DrainShrinks(limit: Limit, s: State, e: Event)
    requires Inv(limit, s) && s.closing && Enabled(limit, s, e)
    ensures Drains(e) ==> Left(Step(limit, s, e)) < Left(s)
    ensures !Drains(e) ==> Left(Step(limit, s, e)) == Left(s)
  {
    ApartNext(limit, s);
    ShrinksFrom(limit, s, e);
  }

  lemma ShrinksFrom(limit: Limit, s: State, e: Event)
    requires s.closing && Enabled(limit, s, e) && s.running !! s.released
    requires s.acceptor.Counted? ==> s.acceptor.conn !in s.running
    ensures Drains(e) ==> Left(Step(limit, s, e)) < Left(s)
    ensures !Drains(e) ==> Left(Step(limit, s, e)) == Left(s)
  {
    hide Step, Left;
    match e
    case StartHandler => StartShrinks(limit, s);
    case ReleaseSlot(c) => ReleaseShrinks(limit, s, c);
    case LeaveWaitGroup(c) => LeaveShrinks(limit, s, c);
    case _ => OthersStay(limit, s, e);
  }

  lemma StartShrinks(limit: Limit, s: State)
    requires Enabled(limit, s, StartHandler) && s.acceptor.conn !in s.running
    ensures Left(Step(limit, s, StartHandler)) < Left(s)
  {
    OneMore(s.running, s.acceptor.conn);
  }

  lemma ReleaseShrinks(limit: Limit, s: State, c: nat)
    requires Enabled(limit, s, ReleaseSlot(c)) && s.running !! s.released
    ensures Left(Step(limit, s, ReleaseSlot(c))) < Left(s)
  {
    OneLess(s.running, c);
    OneMore(s.released, c);
  }

  lemma LeaveShrinks(limit: Limit, s: State, c: nat)
    requires Enabled(limit, s, LeaveWaitGroup(c))
    ensures Left(Step(limit, s, LeaveWaitGroup(c))) < Left(s)
  {
    OneLess(s.released, c);
  }

  lemma OthersStay(limit: Limit, s: State, e: Event)
    requires s.closing && Enabled(limit, s, e) && !Drains(e)
    ensures Left(Step(limit, s, e)) == Left(s)
  {
  }

  lemma OneMore(a: set<nat>, x: nat)
    requires x !in a
    ensures |a + {x}| == |a| + 1
  {
  }

  lemma OneLess(a: set<nat>, x: nat)
    requires x in a
    ensures |a - {x}| == |a| - 1
  {
  }

  lemma ApartNext(limit: Limit, s: State)
    requires Inv(limit, s)
    ensures s.running !! s.released
    ensures s.acceptor.Counted? ==> s.acceptor.conn !in s.running
  {
    forall c | c in s.running
      ensures c !in s.released
    {
      assert Places(s, c) == One(c < s.next);
    }
    if s.acceptor.Counted? {
      assert Places(s, s.acceptor.conn) == One(s.acceptor.conn < s.next);
    }
  }

  function Steps(t: seq<Event>): nat {
    if t == [] then 0 else (if Drains(t[0]) then 1 else 0) + Steps(t[1..])
  }

  /** So from Close on, the handlers make at most Left(s) steps in any run, and then the wait is over. */
  lemma {:induction false} DrainBounded(limit: Limit, s: State, t: seq<Event>)
    requires Inv(limit, s) && s.closing && IsRun(limit, s, t)
    ensures Steps(t) + Left(After(limit, s, t)) <= Left(s)
    ensures Left(After(limit, s, t)) == 0 <==> After(limit, s, t).wg == 0
    decreases |t|
  {
    if t == [] {
    } else {
      StepKeeps(limit, s, t[0]);
      DrainShrinks(limit, s, t[0]);
      DrainBounded(limit, Step(limit, s, t[0]), t[1..]);
    }
  }
}
