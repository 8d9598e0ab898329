/**
  The connection limit of an HTTP listener (internal/proxy/l7/server_conn_limit.go): a slot is taken
  in Accept and given back by the first Close of the connection. Any number of goroutines may close
  the same connection at the same time; each such call takes the steps below.
 */
module ConnLimit {
  import opened Counting

  /**
    A connection that was let in is live until a Close wins the compare-and-swap on its released
    flag, then owes its slot until that call has received from the channel, then is paid.
   */
  datatype State = State(sem: nat, next: nat, refused: set<nat>, live: set<nat>, owing: set<nat>, paid: set<nat>)

  const INITIAL := State(0, 0, {}, {}, {}, {})

  datatype Event =
    | Accept              // the listener hands over a connection, and the select decides on it
    | Swap(conn: nat)     // some call of Close does the compare-and-swap
    | Receive(conn: nat)  // the call that won it receives from the channel

  predicate Enabled(s: State, e: Event) {
    match e
    case Accept => true
    case Swap(c) => c in s.live + s.owing + s.paid
    case Receive(c) => c in s.owing && s.sem > 0
  }

  function Step(limit: nat, s: State, e: Event): State
    requires Enabled(s, e)
  {
    match e
    case Accept =>
      if s.sem < limit then s.(sem := s.sem + 1, next := s.next + 1, live := s.live + {s.next})
      else s.(next := s.next + 1, refused := s.refused + {s.next})
    case Swap(c) => if c in s.live then s.(live := s.live - {c}, owing := s.owing + {c}) else s
    case Receive(c) => s.(sem := s.sem - 1, owing := s.owing - {c}, paid := s.paid + {c})
  }

  ghost predicate IsRun(limit: nat, s: State, t: seq<Event>)
    decreases |t|
  {
    t == [] || (Enabled(s, t[0]) && IsRun(limit, Step(limit, s, t[0]), t[1..]))
  }

  function After(limit: nat, s: State, t: seq<Event>): State
    requires IsRun(limit, s, t)
    decreases |t|
  {
    if t == [] then s else After(limit, Step(limit, s, t[0]), t[1..])
  }

  function Places(s: State, c: nat): nat {
    One(c in s.refused) + One(c in s.live) + One(c in s.owing) + One(c in s.paid)
  }

  ghost predicate Accounted(s: State) {
    forall c: nat :: Places(s, c) == One(c < s.next)
  }

  /** Every slot in use belongs to one connection that has not given its slot back. */
  ghost predicate SlotsExact(limit: nat, s: State) {
    s.sem == |s.live| + |s.owing| <= limit
  }

  ghost predicate Inv(limit: nat, s: State) {
    Accounted(s) && SlotsExact(limit, s)
  }

  lemma StepKeepsAccounted(limit: nat, s: State, e: Event)
    requires Accounted(s) && Enabled(s, e)
    ensures Accounted(Step(limit, s, e))
  {
    var r := Step(limit, s, e);
    forall c: nat
      ensures Places(r, c) == One(c < r.next)
    {
      assert Places(s, c) == One(c < s.next) && Places(s, s.next) == 0;
    }
  }

  lemma StepKeepsSlots(limit: nat, s: State, e: Event)
    requires SlotsExact(limit, s) && Enabled(s, e)
    requires Places(s, s.next) == 0 && (e.Swap? ==> Places(s, e.conn) <= 1)
    ensures SlotsExact(limit, Step(limit, s, e))
  {
    var r := Step(limit, s, e);
    match e
    case Accept =>
      assert s.sem < limit ==> |r.live| == |s.live| + 1;
    case Swap(c) =>
      assert c in s.live ==> |r.live| == |s.live| - 1 && |r.owing| == |s.owing| + 1;
    case Receive(c) =>
      assert |r.owing| == |s.owing| - 1;
  }

  lemma StepKeeps(limit: nat, s: State, e: Event)
    requires Inv(limit, s) && Enabled(s, e)
    ensures Inv(limit, Step(limit, s, e))
  {
    StepKeepsAccounted(limit, s, e);
    assert Places(s, s.next) == 0 && (e.Swap? ==> Places(s, e.conn) <= 1);
    StepKeepsSlots(limit, s, e);
  }

  /** In every run, the slots in use are exactly those not yet given back, and within the limit. */
  lemma {:induction false} RunKeeps(limit: nat, s: State, t: seq<Event>)
    requires Inv(limit, s) && IsRun(limit, s, t)
    ensures Inv(limit, After(limit, s, t))
    decreases |t|
  {
    if t != [] {
      StepKeeps(limit, s, t[0]);
      RunKeeps(limit, Step(limit, s, t[0]), t[1..]);
    }
  }

  /** A Close never blocks on the channel. */
  lemma CloseNeverBlocks(limit: nat, t: seq<Event>, c: nat)
    requires IsRun(limit, INITIAL, t) && c in After(limit, INITIAL, t).owing
    ensures Enabled(After(limit, INITIAL, t), Receive(c))
  {
    RunKeeps(limit, INITIAL, t);
  }

  function Receives(t: seq<Event>, c: nat): nat {
    if t == [] then 0 else One(t[0] == Receive(c)) + Receives(t[1..], c)
  }

  /** However often and by however many goroutines a connection is closed, its slot is given back at most once. */
  lemma {:induction false} GivenBackOnce(limit: nat, s: State, t: seq<Event>, c: nat)
    requires Inv(limit, s) && IsRun(limit, s, t)
    ensures One(c in s.paid) + Receives(t, c) == One(c in After(limit, s, t).paid)
    decreases |t|
  {
    if t != [] {
      var r := Step(limit, s, t[0]);
      StepKeeps(limit, s, t[0]);
      GivenBackOnce(limit, r, t[1..], c);
      assert Places(s, c) == One(c < s.next);
    }
  }

  lemma {:induction false} RefusedFrom(limit: nat, s: State, t: seq<Event>, c: nat) returns (k: nat)
    requires Inv(limit, s) && IsRun(limit, s, t) && c !in s.refused && c in After(limit, s, t).refused
    ensures k < |t| && t[k] == Accept && IsRun(limit, s, t[..k])
    ensures var r := After(limit, s, t[..k]); r.next == c && |r.live| + |r.owing| == limit
    decreases |t|
  {
    var r := Step(limit, s, t[0]);
    StepKeeps(limit, s, t[0]);
    if c in r.refused {
      k := 0;
      assert t[..0] == [];
    } else {
      var j := RefusedFrom(limit, r, t[1..], c);
      k := j + 1;
      assert t[..k][1..] == t[1..][..j] && t[..k][0] == t[0];
    }
  }

  /** A connection is refused only if, when it is accepted, as many others hold a slot as the limit allows. */
  lemma RefusedOnlyIfFull(limit: nat, t: seq<Event>, c: nat) returns (k: nat)
    requires IsRun(limit, INITIAL, t) && c in After(limit, INITIAL, t).refused
    ensures k < |t| && t[k] == Accept && IsRun(limit, INITIAL, t[..k])
    ensures var r := After(limit, INITIAL, t[..k]); r.next == c && |r.live| + |r.owing| == limit
  {
    k := RefusedFrom(limit, INITIAL, t, c);
  }
}
