/**
  WebSocket framing (internal/admin/dashboard/websocket.go; sections 5.2 and 5.3 of RFC 6455).
 */
module WebSocket {
  import opened Bytes

  const MAX_CLIENT_FRAME_LENGTH := 65536

  /** Lengths are non-negative 64-bit signed integers. */
  const LENGTH_LIMIT := 0x8000_0000_0000_0000

  // ---------------------------------------------------------------- reading, on what remains

  datatype Read = Frame(opcode: Byte, payload: Data, rest: Data) | Short | TooLarge(length: nat)

  function Masked(key: Data, payload: Data): (r: Data)
    requires |key| == 4
    ensures |r| == |payload|
  {
    seq(|payload|, i requires 0 <= i < |payload| => Xor(payload[i], key[i % 4]))
  }

  function DecodePayload(opcode: Byte, key: Data, length: nat, s: Data): Read
    requires |key| == 0 || |key| == 4
  {
    if |s| < length then Short
    else Frame(opcode, if key == [] then s[..length] else Masked(key, s[..length]), s[length..])
  }

  function DecodeBody(opcode: Byte, masked: bool, length: nat, s: Data): Read {
    if length > MAX_CLIENT_FRAME_LENGTH then TooLarge(length)
    else if !masked then DecodePayload(opcode, [], length, s)
    else if |s| < 4 then Short
    else DecodePayload(opcode, s[..4], length, s[4..])
  }

  datatype Length = Length(value: nat, rest: Data) | Cut

  /** The length: seven bits of the second byte, or the two or eight bytes that follow it. */
  function DecodeLength(short: nat, s: Data): Length {
    if short == 126 then (if |s| < 2 then Cut else Length(U16(s[0], s[1]), s[2..]))
    else if short == 127 then (if |s| < 8 then Cut else Length(U64(s[..8]), s[8..]))
    else Length(short, s)
  }

  /** The opcode is the low half of the first byte, the masked flag the high bit of the second. */
  function Decode(s: Data): Read {
    if |s| < 2 then Short
    else
      var length := DecodeLength(s[1] % 128, s[2..]);
      if length.Cut? then Short else DecodeBody(s[0] % 16, s[1] >= 128, length.value, length.rest)
  }

  // ---------------------------------------------------------------- the reader as it runs

  /** A buffered reader over the bytes that arrive. */
  class Reader {
    var rest: Data

    constructor (rest: Data)
      ensures this.rest == rest
    {
      this.rest := rest;
    }

    /** Fills the buffer, or fails having used up everything. */
    method ReadFull(n: nat) returns (ok: bool, buf: array<Byte>)
      modifies this
      ensures fresh(buf) && buf.Length == n
      ensures ok == (|old(rest)| >= n)
      ensures ok ==> buf[..] == old(rest)[..n] && rest == old(rest)[n..]
    {
      buf := new Byte[n](i => 0);
      if |rest| < n {
        rest := [];
        return false, buf;
      }
      for i := 0 to n
        invariant rest == old(rest) && buf[..i] == rest[..i]
      {
        buf[i] := rest[i];
      }
      rest := rest[n..];
      ok := true;
    }
  }

  /** Unmasks in place. */
  method Unmask(payload: array<Byte>, key: Data)
    requires |key| == 4
    modifies payload
    ensures payload[..] == Masked(key, old(payload[..]))
  {
    for i := 0 to payload.Length
      invariant forall j :: 0 <= j < i ==> payload[j] == Xor(old(payload[j]), key[j % 4])
      invariant forall j :: i <= j < payload.Length ==> payload[j] == old(payload[j])
    {
      payload[i] := Xor(payload[i], key[i % 4]);
    }
  }

  /** What the caller of a read sees: the frame, or an error. */
  function Seen(r: Read): Read {
    if r.Frame? then Frame(r.opcode, r.payload, []) else r
  }

  method ReadFrame(br: Reader) returns (r: Read)
    modifies br
    ensures r == Seen(Decode(old(br.rest)))
    ensures r.Frame? ==> br.rest == Decode(old(br.rest)).rest
  {
    var ok, head := br.ReadFull(2);
    if !ok {
      return Short;
    }
    var opcode: Byte, masked := head[0] % 16, head[1] >= 128;
    var length;
    ok, length := ReadLength(br, head[1] % 128);
    if !ok {
      return Short;
    }
    r := ReadBody(br, opcode, masked, length);
  }

  method ReadLength(br: Reader, short: nat) returns (ok: bool, length: nat)
    modifies br
    ensures ok == DecodeLength(short, old(br.rest)).Length?
    ensures ok ==> DecodeLength(short, old(br.rest)) == Length(length, br.rest)
  {
    if short == 126 {
      var full, ext := br.ReadFull(2);
      if !full {
        return false, 0;
      }
      assert ext[..] == [ext[0], ext[1]];
      return true, U16(ext[0], ext[1]);
    }
    if short == 127 {
      var full, ext := br.ReadFull(8);
      if !full {
        return false, 0;
      }
      return true, U64(ext[..]);
    }
    return true, short;
  }

  method ReadBody(br: Reader, opcode: Byte, masked: bool, length: nat) returns (r: Read)
    modifies br
    ensures r == Seen(DecodeBody(opcode, masked, length, old(br.rest)))
    ensures r.Frame? ==> br.rest == DecodeBody(opcode, masked, length, old(br.rest)).rest
  {
    if length > MAX_CLIENT_FRAME_LENGTH {
      return TooLarge(length);
    }
    var ok;
    var maskKey: Data := [];
    if masked {
      var key;
      ok, key := br.ReadFull(4);
      if !ok {
        return Short;
      }
      maskKey := key[..];
    }
    var payload := new Byte[0];
    if length > 0 {
      ok, payload := br.ReadFull(length);
      if !ok {
        return Short;
      }
    }
    if masked {
      Unmask(payload, maskKey);
    }
    return Frame(opcode, payload[..], []);
  }

  // ---------------------------------------------------------------- writing

  /** The byte with its high bit set. */
  function HighBit(b: Byte): Byte {
    if b < 128 then b + 128 else b
  }

  /** The frame header with its length in the shortest form. */
  function Header(opcode: Byte, length: nat, masked: bool): (h: Data)
    requires length < LENGTH_LIMIT
  {
    var bit := if masked then 128 else 0;
    if length <= 125 then [HighBit(opcode), length + bit]
    else if length <= 0xFFFF then [HighBit(opcode), 126 + bit] + Put16(length)
    else [HighBit(opcode), 127 + bit] + Put64(length)
  }

  method PutUint64(b: array<Byte>, n: nat)
    requires b.Length == 10 && n < LENGTH_LIMIT
    modifies b
    ensures b[..] == old(b[..2]) + Put64(n)
  {
    var bytes := Put64(n);
    for i := 0 to 8
      invariant b[..2 + i] == old(b[..2]) + bytes[..i]
    {
      b[2 + i] := bytes[i];
    }
  }

  method FrameHeader(opcode: Byte, length: nat, masked: bool) returns (b: array<Byte>)
    requires length < LENGTH_LIMIT
    ensures fresh(b) && b[..] == Header(opcode, length, masked)
  {
    var first: Byte := HighBit(opcode);
    if length <= 125 {
      b := new Byte[2](i => 0);
      b[0], b[1] := first, length;
    } else if length <= 0xFFFF {
      b := new Byte[4](i => 0);
      b[0], b[1] := first, 126;
      var n := Put16(length);
      b[2], b[3] := n[0], n[1];
    } else {
      b := new Byte[10](i => 0);
      b[0], b[1] := first, 127;
      PutUint64(b, length);
    }
    if masked {
      b[1] := HighBit(b[1]);
    }
  }
}
