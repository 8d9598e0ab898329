/**
  Reading a ClientHello off a connection and replaying it to the backend
  (internal/proxy/l4/clienthello.go, internal/proxy/l4/tls_passthrough.go).

  A connection delivers a fixed stream of bytes, cut into reads as its script says.
 */
module Replay {
  import opened Bytes
  import opened ClientHello

  /** How one read goes: at most `limit` bytes (possibly none), perhaps together with an error. */
  datatype Outcome = Outcome(limit: nat, err: bool)

  function Min(a: nat, b: nat): nat {
    if a < b then a else b
  }

  class Conn {
    const stream: Data
    var pos: nat
    var script: seq<Outcome>
    /** Some read has reported an error. */
    ghost var broken: bool

    ghost predicate Valid()
      reads this
    {
      pos <= |stream|
    }

    constructor (stream: Data, script: seq<Outcome>)
      ensures Valid() && !broken && pos == 0 && this.stream == stream && this.script == script
    {
      this.stream, this.script, pos, broken := stream, script, 0, false;
    }

    /** What is still to come. */
    ghost function Rest(): Data
      requires Valid()
      reads this
    {
      stream[pos..]
    }

    /** Once the script is over, every read fails. */
    method Read(max: nat) returns (data: Data, err: bool)
      requires Valid()
      modifies this
      ensures Valid() && |data| <= max && data + Rest() == old(Rest())
      ensures broken == (old(broken) || err)
      ensures pos == old(pos) + |data|
      ensures !err ==> |script| < |old(script)|
    {
      if script == [] {
        broken := true;
        return [], true;
      }
      var n := Min(Min(script[0].limit, max), |stream| - pos);
      data, err := stream[pos..pos + n], script[0].err;
      pos, script := pos + n, script[1..];
      broken := broken || err;
    }
  }

  datatype HelloRead =
    | Complete(raw: Data)
    | HeaderFailed(raw: Data)
    | TooLarge(raw: Data)
    | PayloadFailed(raw: Data)

  /** The length field of a record header. */
  function RecordLength(raw: Data): nat
    requires |raw| >= RECORD_HEADER_SIZE
  {
    U16(raw[3], raw[4])
  }

  /**
    One byte at a time up to the length, then in chunks. Success depends on the stream alone, not
    on how it was cut into reads, and takes exactly one record off it: the failures are those the
    connection reported and an oversized record.
   */
  method ReadClientHello(conn: Conn) returns (r: HelloRead)
    requires conn.Valid() && !conn.broken
    modifies conn
    ensures conn.Valid() && r.raw <= old(conn.Rest())
    ensures conn.broken == (r.HeaderFailed? || r.PayloadFailed?)
    ensures !r.HeaderFailed? ==> r.raw + conn.Rest() == old(conn.Rest())
    ensures r.HeaderFailed? <==> |r.raw| < RECORD_HEADER_SIZE
    ensures r.TooLarge? <==> |r.raw| == RECORD_HEADER_SIZE && RecordLength(r.raw) > MAX_CLIENT_HELLO_SIZE
    ensures r.PayloadFailed? ==> |r.raw| <= RECORD_HEADER_SIZE + RecordLength(r.raw)
    ensures r.Complete? ==> |r.raw| == RECORD_HEADER_SIZE + RecordLength(r.raw)
  {
    ghost var all := conn.Rest();
    var buf: Data, ok := ReadHeader(conn);
    if !ok {
      return HeaderFailed(buf);
    }
    var recordLen := RecordLength(buf);
    if recordLen > MAX_CLIENT_HELLO_SIZE {
      return TooLarge(buf);
    }
    var needed := RECORD_HEADER_SIZE + recordLen;
    while |buf| < needed
      invariant conn.Valid() && !conn.broken
      invariant RECORD_HEADER_SIZE <= |buf| <= needed && RecordLength(buf) == recordLen
      invariant buf + conn.Rest() == all
      decreases |conn.script|
    {
      ghost var was := buf;
      var chunk, err := conn.Read(Min(needed - |buf|, 4096));
      buf := buf + chunk;
      Assoc(was, chunk, conn.Rest());
      if err {
        return PayloadFailed(buf);
      }
    }
    return Complete(buf);
  }

  /** A byte that arrives together with an error is dropped. */
  method ReadHeader(conn: Conn) returns (buf: Data, ok: bool)
    requires conn.Valid() && !conn.broken
    modifies conn
    ensures conn.Valid() && conn.broken == !ok && buf <= old(conn.Rest())
    ensures ok ==> |buf| == RECORD_HEADER_SIZE && buf + conn.Rest() == old(conn.Rest())
    ensures !ok ==> |buf| < RECORD_HEADER_SIZE
  {
    buf := [];
    while |buf| < RECORD_HEADER_SIZE
      invariant conn.Valid() && !conn.broken && |buf| <= RECORD_HEADER_SIZE
      invariant buf + conn.Rest() == old(conn.Rest())
      decreases |conn.script|
    {
      var tmp, err := conn.Read(1);
      if err {
        return buf, false;
      }
      Assoc(buf, tmp, conn.Rest());
      if |tmp| > 0 {
        assert tmp == [tmp[0]];
        buf := buf + [tmp[0]];
      } else {
        assert buf + tmp == buf;
      }
    }
    ok := true;
  }

  /** A connection whose first bytes have been read already and are given back. */
  class BufferedConn {
    const conn: Conn
    var remaining: Data

    ghost predicate Valid()
      reads this, conn
    {
      conn.Valid()
    }

    constructor (conn: Conn, remaining: Data)
      requires conn.Valid()
      ensures Valid() && this.conn == conn && this.remaining == remaining
    {
      this.conn, this.remaining := conn, remaining;
    }

    ghost function Rest(): Data
      requires Valid()
      reads this, conn
    {
      remaining + conn.Rest()
    }

    /** Nothing is lost, repeated or reordered, and one read never mixes old bytes with new. */
    method Read(max: nat) returns (data: Data, err: bool)
      requires Valid()
      modifies this, conn
      ensures Valid() && |data| <= max && data + Rest() == old(Rest())
      ensures old(remaining) != [] ==> conn.pos == old(conn.pos) && conn.script == old(conn.script) && !err
      ensures old(remaining) != [] ==> data + remaining == old(remaining)
      ensures old(remaining) == [] ==> remaining == [] && (!err ==> |conn.script| < |old(conn.script)|)
      ensures max > 0 && old(remaining) != [] ==> |remaining| < |old(remaining)|
      ensures conn.broken == (old(conn.broken) || err)
    {
      if |remaining| > 0 {
        var n := Min(max, |remaining|);
        data := remaining[..n];
        remaining := remaining[n..];
        assert data + remaining == old(remaining);
        Assoc(data, remaining, conn.Rest());
        return data, false;
      }
      data, err := conn.Read(max);
      assert remaining + conn.Rest() == conn.Rest();
      assert old(remaining + conn.Rest()) == old(conn.Rest());
    }
  }

  /** Of what was read, the first n bytes are sent and the others lost. */
  lemma Passed(sent: Data, data: Data, rest: Data, all: Data, n: nat)
    requires n <= |data| && (sent + []) + (data + rest) == all
    ensures ((sent + data[..n]) + data[n..]) + rest == all
  {
    assert data == data[..n] + data[n..];
  }

  /**
    The client's half of the relay, until a read or a write fails. The k-th read asks for at most
    size(k) bytes, and of these the backend takes at most accepts(k): a write that takes fewer than
    it was given is the last, and the rest of its bytes are lost.
   */
  method Forward(client: BufferedConn, size: nat -> nat, accepts: nat -> nat) returns (sent: Data, lost: Data)
    requires client.Valid() && !client.conn.broken && forall k :: size(k) > 0
    modifies client, client.conn
    ensures client.Valid() && (sent + lost) + client.Rest() == old(client.Rest())
    ensures lost == [] ==> client.remaining == [] && client.conn.broken
    ensures lost != [] ==> exists k :: |lost| + accepts(k) <= size(k) && accepts(k) <= |sent|
  {
    sent, lost := [], [];
    assert (sent + lost) + client.Rest() == client.Rest();
    var err, k := false, 0;
    while !err && lost == []
      invariant client.Valid() && (sent + lost) + client.Rest() == old(client.Rest())
      invariant client.conn.broken == err
      invariant err && lost == [] ==> client.remaining == []
      invariant lost != [] ==> exists j :: |lost| + accepts(j) <= size(j) && accepts(j) <= |sent|
      decreases lost == [], !err, |client.remaining|, |client.conn.script|
    {
      var data;
      data, err := client.Read(size(k));
      var n := Min(accepts(k), |data|);
      Passed(sent, data, client.Rest(), old(client.Rest()), n);
      sent, lost := sent + data[..n], data[n..];
      k := k + 1;
    }
  }

  // ---------------------------------------------------------------- the whole connection

  /** Only the first record of a stream decides where it goes. */
  lemma FirstRecordDecides(data: Data)
    requires |data| >= RECORD_HEADER_SIZE && |data| >= RECORD_HEADER_SIZE + RecordLength(data)
    ensures ParseRecord(data) == ParseRecord(data[..RECORD_HEADER_SIZE + RecordLength(data)])
  {
    var n := RECORD_HEADER_SIZE + RecordLength(data);
    assert data[..n][RECORD_HEADER_SIZE..n] == data[RECORD_HEADER_SIZE..n];
  }

  /** Routed by a name, with a backend that was reached or not; or dropped before that. */
  datatype Route = Routed(name: Data) | Unreachable(name: Data) | Dropped

  /**
    A passthrough connection: read the hello, route by its name, dial, and relay; `dialed` tells
    whether a backend was picked and reached. The name is the one
    the stream's first record carries, however the stream is cut into reads; and the backend receives
    the client's stream from its first byte, as far as it takes it. A client is dropped only
    if its connection failed or its first record is not one the parser accepts.
   */
  method HandleConn(conn: Conn, dialed: bool, size: nat -> nat, accepts: nat -> nat)
    returns (route: Route, sent: Data, lost: Data)
    requires conn.Valid() && !conn.broken && forall k :: size(k) > 0
    modifies conn
    ensures conn.Valid()
    ensures !route.Dropped? ==> ParseRecord(old(conn.Rest())) == Ok(route.name)
    ensures !route.Dropped? ==> route.Routed? == dialed
    ensures route.Routed? ==> (sent + lost) <= old(conn.Rest())
    ensures route.Routed? && lost == [] ==> conn.broken && sent + conn.Rest() == old(conn.Rest())
    ensures route.Routed? && lost != [] ==> exists k :: |lost| + accepts(k) <= size(k) && accepts(k) <= |sent|
    ensures !route.Routed? ==> sent == lost == []
    ensures route.Dropped? ==> conn.broken || ParseRecord(old(conn.Rest())).Err?
  {
    ghost var all := conn.Rest();
    var hello := ReadClientHello(conn);
    if !hello.Complete? {
      return Dropped, [], [];
    }
    var raw := hello.raw;
    assert all[..|raw|] == raw;
    FirstRecordDecides(all);
    var parsed := ParseSNI(raw);
    if parsed.Err? {
      return Dropped, [], [];
    }
    if !dialed {
      return Unreachable(parsed.name), [], [];
    }
    var wrapped := new BufferedConn(conn, raw);
    route := Routed(parsed.name);
    sent, lost := Forward(wrapped, size, accepts);
    if lost == [] {
      assert sent + lost == sent && wrapped.Rest() == conn.Rest();
    }
  }
}
