/**
  Who holds a connection count: the stream handlers and the UDP session tables that share one
  least-connections pool (internal/proxy/l4/tcp.go, internal/proxy/l4/udp.go), as steps that
  interleave freely except where a UDP server holds its mutex.
 */
module Sessions {
  import opened LeastConn

  /** A stream handler between its Pick and its deferred Release. */
  datatype Handler = Picked(address: string) | Holding(address: string)

  /** Where a UDP server is while it holds its mutex; Free when nobody does. */
  datatype Lock =
    | Free
    | Inserted(key: string)    // new session in the table, not yet acquired
    | Removed(address: string) // idle session out of the table, not yet released
    | Sweeping                 // in the loop of Close
    | Returned(key: string)    // in that loop: released, still in the table

  datatype Udp = Udp(sessions: map<string, string>, lock: Lock, closing: bool, closed: bool)

  datatype State = State(counts: Counts, handlers: map<nat, Handler>, udps: seq<Udp>)

  datatype Event =
    | TcpPick(id: nat, address: string) | TcpAcquire(id: nat) | TcpRelease(id: nat)
    | UdpInsert(u: nat, key: string, address: string) | UdpAcquire(u: nat)
    | Evict(u: nat, key: string) | EvictRelease(u: nat)
    | CloseMark(u: nat) | CloseStart(u: nat) | CloseRelease(u: nat, key: string)
    | CloseDelete(u: nat) | CloseEnd(u: nat)

  const IDLE := Udp(map[], Free, false, false)

  ghost predicate Initial(s: State) {
    s.counts == map[] && s.handlers == map[] && forall u: nat :: u < |s.udps| ==> s.udps[u] == IDLE
  }

  predicate UdpEnabled(d: Udp, e: Event) {
    match e
    case UdpInsert(_, key, _) => d.lock.Free? && !d.closing && key !in d.sessions
    case UdpAcquire(_) => d.lock.Inserted? && d.lock.key in d.sessions
    case Evict(_, key) => d.lock.Free? && key in d.sessions
    case EvictRelease(_) => d.lock.Removed?
    case CloseMark(_) => d.lock.Free?
    case CloseStart(_) => d.lock.Free? && d.closing
    case CloseRelease(_, key) => d.lock.Sweeping? && key in d.sessions
    case CloseDelete(_) => d.lock.Returned?
    case CloseEnd(_) => d.lock.Sweeping? && d.sessions == map[]
    case _ => false
  }

  predicate Enabled(s: State, e: Event) {
    match e
    case TcpPick(id, _) => id !in s.handlers
    case TcpAcquire(id) => id in s.handlers && s.handlers[id].Picked?
    case TcpRelease(id) => id in s.handlers && s.handlers[id].Holding?
    case _ => e.u < |s.udps| && UdpEnabled(s.udps[e.u], e)
  }

  function UdpStep(d: Udp, e: Event): Udp
    requires UdpEnabled(d, e)
  {
    match e
    case UdpInsert(_, key, a) => d.(sessions := d.sessions[key := a], lock := Inserted(key))
    case UdpAcquire(_) => d.(lock := Free)
    case Evict(_, key) => d.(sessions := d.sessions - {key}, lock := Removed(d.sessions[key]))
    case EvictRelease(_) => d.(lock := Free)
    case CloseMark(_) => d.(closing := true)
    case CloseStart(_) => d.(lock := Sweeping)
    case CloseRelease(_, key) => d.(lock := Returned(key))
    case CloseDelete(_) => d.(sessions := d.sessions - {d.lock.key}, lock := Sweeping)
    case CloseEnd(_) => d.(lock := Free, closed := true)
  }

  /** The address an event acquires or releases. */
  function Touched(s: State, e: Event): string
    requires Enabled(s, e)
  {
    match e
    case TcpAcquire(id) => s.handlers[id].address
    case TcpRelease(id) => s.handlers[id].address
    case UdpAcquire(u) => s.udps[u].sessions[s.udps[u].lock.key]
    case EvictRelease(u) => s.udps[u].lock.address
    case CloseRelease(u, key) => s.udps[u].sessions[key]
    case _ => ""
  }

  predicate Acquires(e: Event) {
    e.TcpAcquire? || e.UdpAcquire?
  }

  predicate Releases(e: Event) {
    e.TcpRelease? || e.EvictRelease? || e.CloseRelease?
  }

  function NextCounts(s: State, e: Event): Counts
    requires Enabled(s, e)
  {
    if Acquires(e) then Acquired(s.counts, Touched(s, e))
    else if Releases(e) then Released(s.counts, Touched(s, e))
    else s.counts
  }

  function NextHandlers(s: State, e: Event): map<nat, Handler>
    requires Enabled(s, e)
  {
    match e
    case TcpPick(id, a) => s.handlers[id := Picked(a)]
    case TcpAcquire(id) => s.handlers[id := Holding(s.handlers[id].address)]
    case TcpRelease(id) => s.handlers - {id}
    case _ => s.handlers
  }

  function NextUdps(s: State, e: Event): seq<Udp>
    requires Enabled(s, e)
  {
    match e
    case TcpPick(_, _) => s.udps
    case TcpAcquire(_) => s.udps
    case TcpRelease(_) => s.udps
    case _ => s.udps[e.u := UdpStep(s.udps[e.u], e)]
  }

  function Step(s: State, e: Event): State
    requires Enabled(s, e)
  {
    State(NextCounts(s, e), NextHandlers(s, e), NextUdps(s, e))
  }

  ghost predicate IsRun(s: State, t: seq<Event>)
    decreases |t|
  {
    t == [] || (Enabled(s, t[0]) && IsRun(Step(s, t[0]), t[1..]))
  }

  function After(s: State, t: seq<Event>): State
    requires IsRun(s, t)
    decreases |t|
  {
    if t == [] then s else After(Step(s, t[0]), t[1..])
  }

  // ---------------------------------------------------------------- the real holders

  /** The handlers that hold an address. */
  ghost function HandlersOn(hs: map<nat, Handler>, a: string): set<nat> {
    set id | id in hs && hs[id] == Holding(a)
  }

  /** The sessions mapped to an address. */
  ghost function SessionsOn(m: map<string, string>, a: string): set<string> {
    set k | k in m && m[k] == a
  }

  /** The sessions of a server that hold a count on the address at this very moment. */
  ghost function Share(d: Udp, a: string): int {
    |SessionsOn(d.sessions, a)| +
    match d.lock
    case Inserted(key) => if key in SessionsOn(d.sessions, a) then -1 else 0
    case Returned(key) => if key in SessionsOn(d.sessions, a) then -1 else 0
    case Removed(x) => if x == a then 1 else 0
    case _ => 0
  }

  ghost function Shares(ds: seq<Udp>, a: string): int {
    if ds == [] then 0 else Share(ds[0], a) + Shares(ds[1..], a)
  }

  ghost function Holders(s: State, a: string): int {
    |HandlersOn(s.handlers, a)| + Shares(s.udps, a)
  }

  /** A new session is in the table while it is being acquired, a returned one while it is being deleted. */
  ghost predicate UdpValid(d: Udp) {
    && (d.lock.Inserted? || d.lock.Returned? ==> d.lock.key in d.sessions)
    && (d.lock.Sweeping? || d.lock.Returned? || d.closed ==> d.closing)
    && (d.closed ==> d.sessions == map[] && (d.lock.Free? || d.lock.Sweeping?))
  }

  ghost predicate AllValid(s: State) {
    forall u: nat :: u < |s.udps| ==> UdpValid(s.udps[u])
  }

  ghost predicate Exact(s: State, a: string) {
    Count(s.counts, a) == Holders(s, a)
  }

  ghost predicate Inv(s: State) {
    AllValid(s) && forall a :: Exact(s, a)
  }

  // How one event changes one server's share of one address.

  function Gain(b: bool): int {
    if b then 1 else 0
  }

  lemma SessionsAdded(m: map<string, string>, key: string, x: string, a: string)
    requires key !in m
    ensures SessionsOn(m[key := x], a) == if x == a then SessionsOn(m, a) + {key} else SessionsOn(m, a)
  {
  }

  lemma SessionsRemoved(m: map<string, string>, key: string, a: string)
    requires key in m
    ensures SessionsOn(m - {key}, a) == SessionsOn(m, a) - {key}
  {
  }

  lemma ShareStep(d: Udp, e: Event, a: string)
    requires UdpValid(d) && UdpEnabled(d, e)
    ensures UdpValid(UdpStep(d, e))
    ensures Share(UdpStep(d, e), a) == Share(d, a)
            + Gain(e.UdpAcquire? && d.sessions[d.lock.key] == a)
            - Gain(e.EvictRelease? && d.lock.address == a)
            - Gain(e.CloseRelease? && d.sessions[e.key] == a)
  {
    match e
    case UdpInsert(_, key, x) => SessionsAdded(d.sessions, key, x, a);
    case Evict(_, key) => SessionsRemoved(d.sessions, key, a);
    case CloseDelete(_) => SessionsRemoved(d.sessions, d.lock.key, a);
    case _ =>
  }

  lemma {:induction false} SharesUpdate(ds: seq<Udp>, u: nat, d: Udp, a: string)
    requires u < |ds|
    ensures Shares(ds[u := d], a) == Shares(ds, a) - Share(ds[u], a) + Share(d, a)
  {
    if u == 0 {
      assert ds[u := d][1..] == ds[1..];
    } else {
      SharesUpdate(ds[1..], u - 1, d, a);
      assert ds[u := d][1..] == ds[1..][u - 1 := d];
    }
  }

  lemma HandlersPut(hs: map<nat, Handler>, id: nat, h: Handler, a: string)
    requires id !in HandlersOn(hs, a)
    ensures HandlersOn(hs[id := h], a) == if h == Holding(a) then HandlersOn(hs, a) + {id} else HandlersOn(hs, a)
  {
  }

  lemma HandlersDropped(hs: map<nat, Handler>, id: nat, a: string)
    ensures HandlersOn(hs - {id}, a) == HandlersOn(hs, a) - {id}
  {
  }

  lemma HandlersStep(s: State, e: Event, a: string)
    requires Enabled(s, e)
    ensures |HandlersOn(NextHandlers(s, e), a)| == |HandlersOn(s.handlers, a)|
            + Gain(e.TcpAcquire? && s.handlers[e.id].address == a)
            - Gain(e.TcpRelease? && s.handlers[e.id].address == a)
  {
    match e
    case TcpPick(id, x) =>
      HandlersPut(s.handlers, id, Picked(x), a);
    case TcpAcquire(id) =>
      HandlersPut(s.handlers, id, Holding(s.handlers[id].address), a);
    case TcpRelease(id) =>
      HandlersDropped(s.handlers, id, a);
    case _ =>
  }

  lemma HoldersStep(s: State, e: Event, a: string)
    requires AllValid(s) && Enabled(s, e)
    ensures Holders(Step(s, e), a) == Holders(s, a)
            + Gain(Acquires(e) && Touched(s, e) == a) - Gain(Releases(e) && Touched(s, e) == a)
  {
    HandlersStep(s, e, a);
    if !e.TcpPick? && !e.TcpAcquire? && !e.TcpRelease? {
      ShareStep(s.udps[e.u], e, a);
      SharesUpdate(s.udps, e.u, UdpStep(s.udps[e.u], e), a);
    }
  }

  // ---------------------------------------------------------------- the clamp

  lemma ShareNonNegative(d: Udp, a: string)
    requires UdpValid(d)
    ensures Share(d, a) >= 0
  {
    if d.lock.Inserted? || d.lock.Returned? {
      assert d.lock.key in SessionsOn(d.sessions, a) ==> |SessionsOn(d.sessions, a)| > 0;
    }
  }

  lemma {:induction false} SharesAtLeast(ds: seq<Udp>, u: nat, a: string)
    requires u < |ds| && forall v: nat :: v < |ds| ==> UdpValid(ds[v])
    ensures Shares(ds, a) >= Share(ds[u], a) >= 0
    decreases |ds|
  {
    ShareNonNegative(ds[u], a);
    if u == 0 {
      SharesNonNegative(ds[1..], a);
    } else {
      ShareNonNegative(ds[0], a);
      SharesAtLeast(ds[1..], u - 1, a);
    }
  }

  lemma {:induction false} SharesNonNegative(ds: seq<Udp>, a: string)
    requires forall v: nat :: v < |ds| ==> UdpValid(ds[v])
    ensures Shares(ds, a) >= 0
  {
    if ds != [] {
      ShareNonNegative(ds[0], a);
      SharesNonNegative(ds[1..], a);
    }
  }

  lemma ReleaserHolds(s: State, e: Event)
    requires AllValid(s) && Enabled(s, e) && Releases(e)
    ensures Holders(s, Touched(s, e)) > 0
  {
    var a := Touched(s, e);
    match e
    case TcpRelease(id) =>
      assert id in HandlersOn(s.handlers, a);
      SharesNonNegative(s.udps, a);
    case EvictRelease(u) =>
      SharesAtLeast(s.udps, u, a);
    case CloseRelease(u, key) =>
      assert key in SessionsOn(s.udps[u].sessions, a);
      SharesAtLeast(s.udps, u, a);
  }

  // ---------------------------------------------------------------- every run

  lemma StepKeepsValid(s: State, e: Event)
    requires AllValid(s) && Enabled(s, e)
    ensures AllValid(Step(s, e))
  {
    if !e.TcpPick? && !e.TcpAcquire? && !e.TcpRelease? {
      ShareStep(s.udps[e.u], e, "");
    }
  }

  lemma StepKeeps(s: State, e: Event)
    requires Inv(s) && Enabled(s, e)
    ensures Inv(Step(s, e))
  {
    StepKeepsValid(s, e);
    if Releases(e) {
      ReleaserHolds(s, e);
    }
    forall a
      ensures Exact(Step(s, e), a)
    {
      assert Exact(s, a) && (Releases(e) ==> Exact(s, Touched(s, e)));
      HoldersStep(s, e, a);
    }
  }

  lemma {:induction false} SharesInitial(ds: seq<Udp>, a: string)
    requires forall u: nat :: u < |ds| ==> ds[u] == IDLE
    ensures Shares(ds, a) == 0
  {
    if ds != [] {
      assert SessionsOn(map[], a) == {};
      SharesInitial(ds[1..], a);
    }
  }

  lemma InitialInv(s: State)
    requires Initial(s)
    ensures Inv(s)
  {
    forall a
      ensures Exact(s, a)
    {
      SharesInitial(s.udps, a);
      assert HandlersOn(s.handlers, a) == {};
    }
  }

  lemma {:induction false} RunKeeps(s: State, t: seq<Event>)
    requires Inv(s) && IsRun(s, t)
    ensures Inv(After(s, t))
    decreases |t|
  {
    if t != [] {
      StepKeeps(s, t[0]);
      RunKeeps(Step(s, t[0]), t[1..]);
    }
  }

  /** In every run the count of every address is the number of its real holders, exactly. */
  lemma CountsExact(s: State, t: seq<Event>, a: string)
    requires Initial(s) && IsRun(s, t)
    ensures Count(After(s, t).counts, a) == Holders(After(s, t), a)
  {
    InitialInv(s);
    RunKeeps(s, t);
    assert Exact(After(s, t), a);
  }

  /** So a Release never meets a count of zero. */
  lemma ClampNeverFires(s: State, t: seq<Event>, e: Event)
    requires Initial(s) && IsRun(s, t) && Enabled(After(s, t), e) && Releases(e)
    ensures Count(After(s, t).counts, Touched(After(s, t), e)) > 0
  {
    var r := After(s, t);
    InitialInv(s);
    RunKeeps(s, t);
    ReleaserHolds(r, e);
    CountsExact(s, t, Touched(r, e));
  }

  ghost function SessionTotal(ds: seq<Udp>, a: string): nat {
    if ds == [] then 0 else |SessionsOn(ds[0].sessions, a)| + SessionTotal(ds[1..], a)
  }

  lemma {:induction false} SharesAtRest(ds: seq<Udp>, a: string)
    requires forall u: nat :: u < |ds| ==> ds[u].lock.Free?
    ensures Shares(ds, a) == SessionTotal(ds, a)
  {
    if ds != [] {
      SharesAtRest(ds[1..], a);
    }
  }

  /** When no UDP server is inside its mutex: handlers that hold it, plus sessions mapped to it. */
  lemma CountsAtRest(s: State, t: seq<Event>, a: string)
    requires Initial(s) && IsRun(s, t) && forall u: nat :: u < |After(s, t).udps| ==> After(s, t).udps[u].lock.Free?
    ensures var r := After(s, t);
            Count(r.counts, a) == |HandlersOn(r.handlers, a)| + SessionTotal(r.udps, a)
  {
    CountsExact(s, t, a);
    SharesAtRest(After(s, t).udps, a);
  }

  /** A Pick on these counts chooses a backend with the fewest real holders. */
  lemma PickFewestHolders(s: State, t: seq<Event>, cs: seq<Candidate>, i: nat)
    requires Initial(s) && IsRun(s, t)
    ensures var r := After(s, t);
            IsBest(cs, a => Count(r.counts, a), i) <==> IsBest(cs, (a: string) => Holders(r, a), i)
  {
    var r := After(s, t);
    forall a: string
      ensures Count(r.counts, a) == Holders(r, a)
    {
      CountsExact(s, t, a);
    }
    var f, g := (a: string) => Count(r.counts, a), (a: string) => Holders(r, a);
    assert forall x: nat, y: nat :: x < |cs| && y < |cs| ==> Before(cs, f, x, y) == Before(cs, g, x, y);
  }

  // ---------------------------------------------------------------- Close

  /** Close has returned its server's whole share, and nothing is ever held by it again. */
  lemma {:induction false} ClosedForGood(s: State, t: seq<Event>, u: nat, a: string)
    requires Inv(s) && IsRun(s, t) && u < |s.udps| && s.udps[u].closed
    ensures var r := After(s, t);
            u < |r.udps| && r.udps[u].closed && r.udps[u].sessions == map[] && Share(r.udps[u], a) == 0
    decreases |t|
  {
    if t == [] {
      assert UdpValid(s.udps[u]);
      assert SessionsOn(map[], a) == {};
    } else {
      StepKeeps(s, t[0]);
      assert UdpValid(s.udps[u]);
      ClosedForGood(Step(s, t[0]), t[1..], u, a);
    }
  }

  lemma Then(s: State, e: Event, t: seq<Event>)
    requires Enabled(s, e) && IsRun(Step(s, e), t)
    ensures IsRun(s, [e] + t) && After(s, [e] + t) == After(Step(s, e), t)
  {
    assert ([e] + t)[1..] == t;
  }

  /** One step of a UDP server changes that server as it should, and no other. */
  lemma Moves(s: State, e: Event)
    requires Inv(s) && Enabled(s, e) && !e.TcpPick? && !e.TcpAcquire? && !e.TcpRelease?
    ensures Inv(Step(s, e)) && Step(s, e).udps == s.udps[e.u := UdpStep(s.udps[e.u], e)]
  {
    StepKeeps(s, e);
  }

  ghost predicate ClosedAfter(s: State, t: seq<Event>, u: nat) {
    IsRun(s, t) && u < |After(s, t).udps| && After(s, t).udps[u].closed
  }

  /** The loop of Close comes to its end. */
  lemma {:induction false} SweepEnds(s: State, u: nat) returns (t: seq<Event>)
    requires Inv(s) && u < |s.udps| && s.udps[u].lock.Sweeping?
    ensures ClosedAfter(s, t, u)
    decreases |s.udps[u].sessions|
  {
    hide Inv;
    var d := s.udps[u];
    if key :| key in d.sessions {
      var e, f := CloseRelease(u, key), CloseDelete(u);
      Moves(s, e);
      var r := Step(s, e);
      Moves(r, f);
      var q := Step(r, f);
      Fewer(d.sessions, key);
      var rest := SweepEnds(q, u);
      Then(r, f, rest);
      Then(s, e, [f] + rest);
      t := [e] + ([f] + rest);
    } else {
      Moves(s, CloseEnd(u));
      Then(s, CloseEnd(u), []);
      t := [CloseEnd(u)] + [];
    }
  }

  lemma Fewer(m: map<string, string>, key: string)
    requires key in m
    ensures |m - {key}| < |m|
  {
    assert (m - {key}).Keys == m.Keys - {key};
    assert |(m - {key}).Keys| == |m - {key}| && |m.Keys| == |m|;
  }

  lemma ClosesFromFree(s: State, u: nat) returns (t: seq<Event>)
    requires Inv(s) && u < |s.udps| && s.udps[u].lock.Free?
    ensures ClosedAfter(s, t, u)
  {
    hide Inv;
    var e, f := CloseMark(u), CloseStart(u);
    Moves(s, e);
    var r := Step(s, e);
    Moves(r, f);
    var rest := SweepEnds(Step(r, f), u);
    Then(r, f, rest);
    Then(s, e, [f] + rest);
    t := [e] + ([f] + rest);
  }

  /** Whatever a UDP server is doing, it can get out of its mutex and be closed. */
  lemma CanClose(s: State, u: nat) returns (t: seq<Event>)
    requires Inv(s) && u < |s.udps|
    ensures ClosedAfter(s, t, u)
  {
    assert UdpValid(s.udps[u]);
    hide Inv;
    match s.udps[u].lock
    case Free => t := ClosesFromFree(s, u);
    case Sweeping => t := SweepEnds(s, u);
    case Returned(_) =>
      Moves(s, CloseDelete(u));
      var rest := SweepEnds(Step(s, CloseDelete(u)), u);
      Then(s, CloseDelete(u), rest);
      t := [CloseDelete(u)] + rest;
    case Inserted(_) =>
      Moves(s, UdpAcquire(u));
      var rest := ClosesFromFree(Step(s, UdpAcquire(u)), u);
      Then(s, UdpAcquire(u), rest);
      t := [UdpAcquire(u)] + rest;
    case Removed(_) =>
      Moves(s, EvictRelease(u));
      var rest := ClosesFromFree(Step(s, EvictRelease(u)), u);
      Then(s, EvictRelease(u), rest);
      t := [EvictRelease(u)] + rest;
  }
}
