/**
  The frames a WebSocket peer may send, and the theorems that exactly these are read: with any
  flags, masked or not, and with the length in any form that can hold it. The format is written
  without the reader's constants, number readers and mask.
 */
module WebSocketWire {
  import opened Bytes
  import opened WebSocket

  datatype Form = Seven | Sixteen | SixtyFour

  /** An empty key is no mask. */
  datatype Sent = Sent(flags: nat, opcode: Byte, form: Form, key: Data, payload: Data)

  predicate FormHolds(form: Form, length: nat) {
    match form
    case Seven => length <= 125
    case Sixteen => length < 0x1_0000
    case SixtyFour => length < 0x8000_0000_0000_0000
  }

  ghost predicate Wellformed(f: Sent) {
    f.flags < 16 && f.opcode < 16 && (|f.key| == 0 || |f.key| == 4) && FormHolds(f.form, |f.payload|)
  }

  function ShortOf(form: Form, length: nat): (n: nat)
    requires FormHolds(form, length)
    ensures n < 128
  {
    match form
    case Seven => length
    case Sixteen => 126
    case SixtyFour => 127
  }

  /** A number of eight bytes, the highest first. */
  function Eight(n: nat): (b: Data)
    requires n < 0x8000_0000_0000_0000
    ensures |b| == 8
  {
    [n / 0x100_0000_0000_0000, n / 0x1_0000_0000_0000 % 256, n / 0x100_0000_0000 % 256, n / 0x1_0000_0000 % 256,
     n / 0x100_0000 % 256, n / 0x1_0000 % 256, n / 256 % 256, n % 256]
  }

  function LengthBytes(form: Form, length: nat): Data
    requires FormHolds(form, length)
  {
    match form
    case Seven => []
    case Sixteen => [length / 256, length % 256]
    case SixtyFour => Eight(length)
  }

  /** The bit of value k: set where it is set in exactly one of the two. */
  function Differ(a: nat, b: nat, k: nat): nat
    requires k > 0
  {
    if a / k % 2 == b / k % 2 then 0 else k
  }

  function ExclusiveOr(a: Byte, b: Byte): (x: nat)
    ensures x < 256
  {
    Differ(a, b, 1) + Differ(a, b, 2) + Differ(a, b, 4) + Differ(a, b, 8) +
    Differ(a, b, 16) + Differ(a, b, 32) + Differ(a, b, 64) + Differ(a, b, 128)
  }

  function Shown(key: Data, payload: Data): (r: Data)
    requires |key| == 4
    ensures |r| == |payload|
  {
    seq(|payload|, i requires 0 <= i < |payload| => ExclusiveOr(payload[i], key[i % 4]) as Byte)
  }

  /** A masked payload is preceded by its key, and byte i is masked with byte i mod 4 of it. */
  function Body(key: Data, payload: Data): Data
    requires |key| == 0 || |key| == 4
  {
    if key == [] then payload
    else key + Shown(key, payload)
  }

  function Encode(f: Sent): Data
    requires Wellformed(f)
  {
    Framed(First(f.flags, f.opcode), f.form, |f.payload|, Body(f.key, f.payload), f.key != [])
  }

  /** Four flags and the opcode. */
  function First(flags: nat, opcode: Byte): (b: Byte)
    requires flags < 16 && opcode < 16
    ensures b % 16 == opcode
  {
    16 * flags + opcode
  }

  lemma FirstOf(b: Byte)
    ensures First(b / 16, b % 16) == b
  {
  }

  /** Seven bits and the masked flag. */
  function Second(short: nat, masked: bool): (b: Byte)
    requires short < 128
    ensures b % 128 == short && (b >= 128 <==> masked)
  {
    if masked then short + 128 else short
  }

  lemma SecondOf(b: Byte)
    ensures Second(b % 128, b >= 128) == b
  {
  }

  function Framed(first: Byte, form: Form, length: nat, body: Data, masked: bool): Data
    requires FormHolds(form, length)
  {
    [first, Second(ShortOf(form, length), masked)] + (LengthBytes(form, length) + body)
  }

  // ---------------------------------------------------------------- the reader's numbers and mask

  lemma Four(n: nat)
    requires n < 0x1_0000_0000
    ensures Put32(n) == [n / 0x100_0000, n / 0x1_0000 % 256, n / 256 % 256, n % 256]
  {
    var hi, lo := n / 0x1_0000, n % 0x1_0000;
    Twice(n, 0x1_0000, 256);
    LowByte(n, hi, 1, lo, 256);
    LowByte(n, hi, 256, lo, 1);
  }

  lemma EightIs(n: nat)
    requires n < 0x8000_0000_0000_0000
    ensures Eight(n) == Put64(n)
  {
    var hi, lo := n / 0x1_0000_0000, n % 0x1_0000_0000;
    Four(hi);
    Four(lo);
    hide Put32;
    HighBytes(n, hi);
    LowBytes(n, lo);
  }

  lemma HighBytes(n: nat, hi: nat)
    requires hi == n / 0x1_0000_0000
    ensures hi / 0x100_0000 == n / 0x100_0000_0000_0000
    ensures hi / 0x1_0000 == n / 0x1_0000_0000_0000
    ensures hi / 256 == n / 0x100_0000_0000
  {
    Twice(n, 0x1_0000_0000, 0x100_0000);
    Twice(n, 0x1_0000_0000, 0x1_0000);
    Twice(n, 0x1_0000_0000, 256);
  }

  lemma LowBytes(n: nat, lo: nat)
    requires lo == n % 0x1_0000_0000
    ensures lo / 0x100_0000 == n / 0x100_0000 % 256
    ensures lo / 0x1_0000 % 256 == n / 0x1_0000 % 256
    ensures lo / 256 % 256 == n / 256 % 256
    ensures lo % 256 == n % 256
  {
    var h := n / 0x1_0000_0000;
    LowByte(n, h, 1, lo, 0x100_0000);
    LowByte(n, h, 256, lo, 0x1_0000);
    LowByte(n, h, 0x1_0000, lo, 256);
    LowByte(n, h, 0x100_0000, lo, 1);
  }

  lemma LowByte(n: nat, h: nat, c: nat, lo: nat, k: nat)
    requires k > 0 && n == 256 * c * k * h + lo
    ensures n / k % 256 == lo / k % 256
  {
    Beyond(n, h, 256 * c, lo, k);
    var x, y := lo / k, c * h;
    assert 256 * c * h == 256 * y;
    assert (256 * y + x) % 256 == x % 256;
  }

  lemma Beyond(n: nat, h: nat, c: nat, lo: nat, k: nat)
    requires k > 0 && n == c * k * h + lo
    ensures n / k == c * h + lo / k
  {
    var q, r := lo / k, lo % k;
    assert n == k * (c * h + q) + r;
    Quotient(n, k, c * h + q, r);
  }

  /** The bits from the k-th on, k a power of two. */
  lemma XorFrom(n: nat, a: nat, b: nat, k: nat, x: nat, y: nat)
    requires n > 0 && k > 0 && x == a / k && y == b / k
    ensures k * XorBits(n, x, y) == Differ(a, b, k) + (2 * k) * XorBits(n - 1, x / 2, y / 2)
    ensures x / 2 == a / (2 * k) && y / 2 == b / (2 * k)
  {
    Twice(a, k, 2);
    Twice(b, k, 2);
    var bit := XorBit(x, y);
    assert k * bit == Differ(a, b, k) by {
      assert bit == 0 || bit == 1;
    }
    Distribute(k, bit, XorBits(n - 1, x / 2, y / 2));
  }

  lemma Distribute(k: nat, bit: nat, rest: nat)
    ensures k * (bit + 2 * rest) == k * bit + (2 * k) * rest
  {
  }

  lemma Twice(a: nat, k: nat, m: nat)
    requires k > 0 && m > 0
    ensures k * m > 0 && a / k / m == a / (k * m)
  {
    var q, r := Divided(a, k);
    var h, o := Divided(q, m);
    var p, rest := Regrouped(a, k, m, q, r, h, o);
    Quotient(a, p, h, rest);
  }

  lemma Divided(a: nat, k: nat) returns (q: nat, r: nat)
    requires k > 0
    ensures q == a / k && a == k * q + r && r < k
  {
    q, r := a / k, a % k;
  }

  lemma Regrouped(a: nat, k: nat, m: nat, q: nat, r: nat, h: nat, o: nat) returns (p: nat, rest: nat)
    requires a == k * q + r && r < k && q == m * h + o && o < m
    ensures p == k * m && p > 0 && a == p * h + rest && rest < p
  {
    p, rest := k * m, k * o + r;
    Remainder(k, m, o, r);
    Regroup(k, m, h, o);
  }

  lemma Remainder(k: nat, m: nat, o: nat, r: nat)
    requires o < m && r < k
    ensures k * o + r < k * m
  {
    var d := m - 1 - o;
    assert k * m == k * o + k * d + k;
  }

  lemma Regroup(k: nat, m: nat, h: nat, o: nat)
    ensures k * (m * h + o) == (k * m) * h + k * o
  {
    assert k * (m * h) == (k * m) * h;
  }

  lemma Quotient(a: nat, m: nat, q: nat, r: nat)
    requires m > 0 && a == m * q + r && r < m
    ensures a / m == q
  {
    var d, e := a / m, a % m;
    assert m * (q - d) == e - r by {
      assert m * q - m * d == m * (q - d);
    }
    NoMultiple(m, q - d);
  }

  lemma NoMultiple(m: int, x: int)
    requires m > 0 && -m < m * x < m
    ensures x == 0
  {
    assert x >= 1 ==> m * x >= m;
    assert x <= -1 ==> m * x <= -m;
  }

  lemma XorIs(a: Byte, b: Byte)
    ensures ExclusiveOr(a, b) == Xor(a, b)
  {
    hide XorBits, Differ;
    XorFrom(8, a, b, 1, a, b);
    XorFrom(7, a, b, 2, a / 2, b / 2);
    XorFrom(6, a, b, 4, a / 4, b / 4);
    XorFrom(5, a, b, 8, a / 8, b / 8);
    XorFrom(4, a, b, 16, a / 16, b / 16);
    XorFrom(3, a, b, 32, a / 32, b / 32);
    XorFrom(2, a, b, 64, a / 64, b / 64);
    XorFrom(1, a, b, 128, a / 128, b / 128);
    NoBits(a / 128 / 2, b / 128 / 2);
  }

  lemma NoBits(a: nat, b: nat)
    ensures XorBits(0, a, b) == 0
  {
  }

  /** The reader's mask is the format's. */
  lemma MaskIs(key: Data, payload: Data)
    requires |key| == 4
    ensures Shown(key, payload) == Masked(key, payload)
  {
    hide ExclusiveOr, Xor;
    forall i | 0 <= i < |payload|
      ensures Shown(key, payload)[i] == Masked(key, payload)[i]
    {
      XorIs(payload[i], key[i % 4]);
    }
  }

  // ---------------------------------------------------------------- reading back

  lemma LengthRead(form: Form, length: nat, s: Data)
    requires FormHolds(form, length)
    ensures DecodeLength(ShortOf(form, length), LengthBytes(form, length) + s) == Length(length, s)
  {
    var b := LengthBytes(form, length);
    assert (b + s)[..|b|] == b && (b + s)[|b|..] == s;
    if form == Sixteen {
      assert (b + s)[0] == b[0] && (b + s)[1] == b[1];
    } else if form == SixtyFour {
      EightIs(length);
      hide Eight, Put64, U64;
    }
  }

  lemma FramedRead(first: Byte, form: Form, length: nat, body: Data, masked: bool)
    requires FormHolds(form, length)
    ensures Decode(Framed(first, form, length, body, masked)) == DecodeBody(first % 16, masked, length, body)
  {
    LengthRead(form, length, body);
    var second, t := Second(ShortOf(form, length), masked), LengthBytes(form, length) + body;
    DecodeHead(first, second, t);
  }

  lemma DecodeHead(first: Byte, second: Byte, t: Data)
    ensures Decode([first, second] + t) ==
            var length := DecodeLength(second % 128, t);
            if length.Cut? then Short else DecodeBody(first % 16, second >= 128, length.value, length.rest)
  {
    var s := [first, second] + t;
    assert s[2..] == t && s[0] == first && s[1] == second;
  }

  lemma MaskedTwice(key: Data, payload: Data)
    requires |key| == 4
    ensures Masked(key, Masked(key, payload)) == payload
  {
    forall i | 0 <= i < |payload|
      ensures Masked(key, Masked(key, payload))[i] == payload[i]
    {
      XorTwice(payload[i], key[i % 4]);
    }
  }

  lemma PayloadRead(opcode: Byte, key: Data, shown: Data, rest: Data)
    requires |key| == 0 || |key| == 4
    ensures DecodePayload(opcode, key, |shown|, shown + rest) ==
            Frame(opcode, if key == [] then shown else Masked(key, shown), rest)
  {
    var s := shown + rest;
    assert s[..|shown|] == shown && s[|shown|..] == rest;
  }

  lemma KeyRead(opcode: Byte, key: Data, length: nat, t: Data)
    requires |key| == 4 && length <= 65536
    ensures DecodeBody(opcode, true, length, key + t) == DecodePayload(opcode, key, length, t)
  {
    var s := key + t;
    assert s[..4] == key && s[4..] == t;
  }

  lemma BodyRead(opcode: Byte, key: Data, payload: Data, rest: Data)
    requires (|key| == 0 || |key| == 4) && |payload| <= 65536
    ensures DecodeBody(opcode, key != [], |payload|, Body(key, payload) + rest) == Frame(opcode, payload, rest)
  {
    if key == [] {
      PayloadRead(opcode, key, payload, rest);
    } else {
      var shown := Shown(key, payload);
      MaskIs(key, payload);
      hide Shown, Masked;
      MaskedTwice(key, payload);
      PayloadRead(opcode, key, shown, rest);
      KeyRead(opcode, key, |payload|, shown + rest);
      assert Body(key, payload) + rest == key + (shown + rest);
    }
  }

  lemma FramedAppend(first: Byte, form: Form, length: nat, body: Data, masked: bool, rest: Data)
    requires FormHolds(form, length)
    ensures Framed(first, form, length, body, masked) + rest == Framed(first, form, length, body + rest, masked)
  {
  }

  /**
    A frame is read back with its opcode and its payload, and what follows it is left to be read;
    a payload above the limit is refused.
   */
  lemma FrameRead(f: Sent, rest: Data)
    requires Wellformed(f)
    ensures Decode(Encode(f) + rest) ==
            if |f.payload| > 65536 then TooLarge(|f.payload|) else Frame(f.opcode, f.payload, rest)
  {
    SentRead(First(f.flags, f.opcode), f.form, f.key, f.payload, rest);
  }

  lemma SentRead(first: Byte, form: Form, key: Data, payload: Data, rest: Data)
    requires (|key| == 0 || |key| == 4) && FormHolds(form, |payload|)
    ensures Decode(Framed(first, form, |payload|, Body(key, payload), key != []) + rest) ==
            if |payload| > 65536 then TooLarge(|payload|) else Frame(first % 16, payload, rest)
  {
    var body, n, opcode := Body(key, payload), |payload|, first % 16;
    FramedAppend(first, form, n, body, key != [], rest);
    FramedRead(first, form, n, body + rest, key != []);
    assert n > 65536 ==> DecodeBody(opcode, key != [], n, body + rest) == TooLarge(n);
    if n <= 65536 {
      BodyRead(opcode, key, payload, rest);
    }
  }

  // ---------------------------------------------------------------- nothing else is read

  lemma LengthSound(short: nat, s: Data) returns (form: Form)
    requires short < 128 && DecodeLength(short, s).Length?
    ensures var r := DecodeLength(short, s);
            r.value < 0x8000_0000_0000_0000 ==>
              FormHolds(form, r.value) && ShortOf(form, r.value) == short && s == LengthBytes(form, r.value) + r.rest
  {
    if short == 126 {
      Put16Of(s[0], s[1]);
      form := Sixteen;
    } else if short == 127 {
      Put64Of(s[..8]);
      if U64(s[..8]) < 0x8000_0000_0000_0000 {
        EightIs(U64(s[..8]));
      }
      hide Eight, Put64, U64;
      form := SixtyFour;
    } else {
      form := Seven;
    }
  }

  lemma BodySound(opcode: Byte, masked: bool, length: nat, s: Data) returns (key: Data)
    requires DecodeBody(opcode, masked, length, s).Frame?
    ensures (|key| == 0 || |key| == 4) && masked == (key != [])
    ensures var r := DecodeBody(opcode, masked, length, s);
            |r.payload| == length <= 65536 && s == Body(key, r.payload) + r.rest
  {
    hide Shown, Masked;
    key := if masked then s[..4] else [];
    var t := s[|key|..];
    assert s == key + t && t == t[..length] + t[length..];
    if masked {
      MaskedTwice(key, t[..length]);
      MaskIs(key, Masked(key, t[..length]));
    }
  }

  lemma FrameSound(s: Data) returns (f: Sent)
    requires Decode(s).Frame?
    ensures Wellformed(f) && |f.payload| <= 65536
    ensures Decode(s) == Frame(f.opcode, f.payload, Decode(s).rest) && s == Encode(f) + Decode(s).rest
  {
    var length := DecodeLength(s[1] % 128, s[2..]);
    var form := LengthSound(s[1] % 128, s[2..]);
    var key := BodySound(s[0] % 16, s[1] >= 128, length.value, length.rest);
    var r := Decode(s);
    f := Sent(s[0] / 16, s[0] % 16, form, key, r.payload);
    FirstOf(s[0]);
    FramedSound(s, form, length.value, Body(key, r.payload), r.rest);
  }

  lemma FramedSound(s: Data, form: Form, length: nat, body: Data, rest: Data)
    requires |s| >= 2 && FormHolds(form, length) && ShortOf(form, length) == s[1] % 128
    requires s[2..] == LengthBytes(form, length) + (body + rest)
    ensures s == Framed(s[0], form, length, body, s[1] >= 128) + rest
  {
    FramedAppend(s[0], form, length, body, s[1] >= 128, rest);
    SecondOf(s[1]);
    assert s == [s[0], s[1]] + s[2..];
  }

  /** A read succeeds exactly on a frame within the limit, and consumes exactly that frame. */
  lemma ReadsExactly(s: Data, opcode: Byte, payload: Data, rest: Data)
    ensures Decode(s) == Frame(opcode, payload, rest)
       <==> exists f: Sent :: Wellformed(f) && f.opcode == opcode && f.payload == payload
                           && |payload| <= 65536 && Encode(f) + rest == s
  {
    if Decode(s) == Frame(opcode, payload, rest) {
      var f := FrameSound(s);
    }
    forall f: Sent | Wellformed(f) && f.opcode == opcode && f.payload == payload
                     && |payload| <= 65536 && Encode(f) + rest == s
      ensures Decode(s) == Frame(opcode, payload, rest)
    {
      FrameRead(f, rest);
    }
  }

  // ---------------------------------------------------------------- the header this program writes

  function Shortest(length: nat): (form: Form)
    requires length < 0x8000_0000_0000_0000
    ensures FormHolds(form, length)
  {
    if length <= 125 then Seven else if length <= 0xFFFF then Sixteen else SixtyFour
  }

  /** A written header, key and payload make one such frame, final and in the shortest form. */
  lemma HeaderEncodes(opcode: Byte, key: Data, payload: Data)
    requires opcode < 16 && (|key| == 0 || |key| == 4) && |payload| < 0x8000_0000_0000_0000
    ensures Header(opcode, |payload|, key != []) + Body(key, payload) ==
            Encode(Sent(8, opcode, Shortest(|payload|), key, payload))
  {
    HeaderIs(opcode, |payload|, key != []);
    hide Header, Body, LengthBytes, Second, ShortOf;
  }

  lemma HeaderIs(opcode: Byte, length: nat, masked: bool)
    requires opcode < 16 && length < 0x8000_0000_0000_0000
    ensures var form := Shortest(length);
            Header(opcode, length, masked) ==
            [First(8, opcode), Second(ShortOf(form, length), masked)] + LengthBytes(form, length)
  {
    EightIs(length);
    hide Eight, Put64;
  }

  /** No form that holds a length is shorter than the one written. */
  lemma HeaderShortest(opcode: Byte, length: nat, masked: bool, form: Form)
    requires length < 0x8000_0000_0000_0000 && FormHolds(form, length)
    ensures |Header(opcode, length, masked)| <= 2 + |LengthBytes(form, length)|
  {
  }

  // ---------------------------------------------------------------- a whole conversation

  datatype Message = Message(opcode: Byte, payload: Data)

  /** The bytes of frames, one after the other. */
  function Stream(fs: seq<Sent>): Data
    requires forall f :: f in fs ==> Wellformed(f)
  {
    if fs == [] then [] else Encode(fs[0]) + Stream(fs[1..])
  }

  function Messages(fs: seq<Sent>): (ms: seq<Message>)
    ensures |ms| == |fs|
  {
    seq(|fs|, i requires 0 <= i < |fs| => Message(fs[i].opcode, fs[i].payload))
  }

  /** Reads one frame after the other, until one cannot be read. */
  function ReadAll(n: nat, s: Data): (seq<Message>, Data)
    decreases n
  {
    if n == 0 || !Decode(s).Frame? then ([], s)
    else
      var r := Decode(s);
      var (ms, rest) := ReadAll(n - 1, r.rest);
      ([Message(r.opcode, r.payload)] + ms, rest)
  }

  lemma ReadOne(f: Sent, n: nat, tail: Data)
    requires Wellformed(f) && |f.payload| <= 65536
    ensures ReadAll(n + 1, Encode(f) + tail) ==
            ([Message(f.opcode, f.payload)] + ReadAll(n, tail).0, ReadAll(n, tail).1)
  {
    FrameRead(f, tail);
  }

  lemma StreamSplit(fs: seq<Sent>, rest: Data)
    requires fs != [] && forall f :: f in fs ==> Wellformed(f)
    ensures Stream(fs) + rest == Encode(fs[0]) + (Stream(fs[1..]) + rest)
  {
    Assoc(Encode(fs[0]), Stream(fs[1..]), rest);
  }

  lemma MessagesSplit(fs: seq<Sent>)
    requires fs != []
    ensures Messages(fs) == [Message(fs[0].opcode, fs[0].payload)] + Messages(fs[1..])
  {
  }

  /** Reading as many frames as were sent gives what was sent, and stops at the next boundary. */
  lemma {:induction false} ConversationRead(fs: seq<Sent>, rest: Data)
    requires forall f :: f in fs ==> Wellformed(f) && |f.payload| <= 65536
    ensures ReadAll(|fs|, Stream(fs) + rest) == (Messages(fs), rest)
  {
    if fs == [] {
      assert Stream(fs) + rest == rest;
    } else {
      var f, more := fs[0], fs[1..];
      var tail := Stream(more) + rest;
      ConversationRead(more, rest);
      ReadOne(f, |more|, tail);
      StreamSplit(fs, rest);
      MessagesSplit(fs);
    }
  }
}
