/**
  The wire format of a ClientHello record, and the theorem that the parser accepts exactly
  these records and finds exactly the name they carry.

  Wherever the parser stops looking, the format below allows arbitrary bytes. It is written without
  the parser's constants and number readers: a record begins with byte 22, a ClientHello with byte 1,
  server_name is extension 0, and a number of two or three bytes has its highest byte first.
 */
module ClientHelloWire {
  import opened Bytes
  import opened ClientHello

  /** A server name list up to its first host_name (type 0), and whatever follows that. */
  datatype Names =
    | Host(name: Data, tail: Data)
    | Other(kind: Byte, name: Data, more: Names)

  /** Extensions up to the first server_name, or to the end (where fewer than four bytes may be left). */
  datatype Exts =
    | Last(rest: Data)
    | ServerName(names: Names, afterList: Data, tail: Data)
    | Ext(kind: nat, data: Data, more: Exts)

  datatype ExtBlock = Absent(rest: Data) | Present(exts: Exts, after: Data)

  datatype Hello = Hello(versionAndRandom: Data, sessionId: Data, ciphers: Data, compression: Data, block: ExtBlock)

  datatype Record = Record(version: Data, hello: Hello, afterHello: Data, after: Data)

  // ---------------------------------------------------------------- the framing of each part

  predicate Fits8(d: Data) {
    |d| < 0x100
  }

  predicate Fits16(d: Data) {
    |d| < 0x1_0000
  }

  /** A number of two bytes, and of three. */
  function Of2(hi: Byte, lo: Byte): (n: nat)
    ensures n < 0x1_0000
  {
    256 * hi + lo
  }

  function Of3(a: Byte, b: Byte, c: Byte): (n: nat)
    ensures n < 0x100_0000
  {
    0x1_0000 * a + 256 * b + c
  }

  function Two(n: nat): (b: Data)
    requires n < 0x1_0000
    ensures |b| == 2 && Of2(b[0], b[1]) == n
  {
    [n / 256, n % 256]
  }

  function Three(n: nat): (b: Data)
    requires n < 0x100_0000
    ensures |b| == 3 && Of3(b[0], b[1], b[2]) == n
  {
    [n / 0x1_0000, n / 256 % 256, n % 256]
  }

  function Vec8(d: Data, rest: Data): (e: Data)
    requires Fits8(d)
    ensures |e| == 1 + |d| + |rest| && e[0] == |d| && e[1..1 + |d|] == d && e[1 + |d|..] == rest
  {
    var n: Byte := |d|;
    [n] + d + rest
  }

  function Vec16(d: Data, rest: Data): (e: Data)
    requires Fits16(d)
    ensures |e| == 2 + |d| + |rest| && Of2(e[0], e[1]) == |d| && e[2..2 + |d|] == d && e[2 + |d|..] == rest
  {
    Two(|d|) + d + rest
  }

  function NameEntry(kind: Byte, name: Data, rest: Data): Data
    requires Fits16(name)
  {
    [kind] + Vec16(name, rest)
  }

  function Extension(kind: nat, data: Data, rest: Data): Data
    requires kind < 0x1_0000 && Fits16(data)
  {
    Two(kind) + Vec16(data, rest)
  }

  function Handshake(hs: Data, rest: Data): Data
    requires |hs| < 0x100_0000
  {
    [1] + Three(|hs|) + hs + rest
  }

  function Framed(version: Data, payload: Data, rest: Data): Data
    requires |version| == 2 && Fits16(payload)
  {
    [22] + version + Vec16(payload, rest)
  }

  // Each part is read back as it was framed.

  lemma NameEntryRead(kind: Byte, name: Data, rest: Data)
    requires Fits16(name)
    ensures ParseNames(NameEntry(kind, name, rest)) ==
            if kind != 0 then ParseNames(rest) else if name == [] then Err(EmptyName) else Ok(name)
  {
    var list, v := NameEntry(kind, name, rest), Vec16(name, rest);
    assert list[1] == v[0] && list[2] == v[1];
    assert list[3..3 + |name|] == v[2..2 + |name|];
    assert list[3 + |name|..] == v[2 + |name|..];
  }

  lemma ExtensionRead(kind: nat, data: Data, rest: Data)
    requires kind < 0x1_0000 && Fits16(data)
    ensures ParseExtensions(Extension(kind, data, rest)) ==
            if kind == 0 then ParseServerName(data) else ParseExtensions(rest)
  {
    var e, v, k := Extension(kind, data, rest), Vec16(data, rest), Two(kind);
    assert e[0] == k[0] && e[1] == k[1] && e[2] == v[0] && e[3] == v[1];
    assert e[4..4 + |data|] == v[2..2 + |data|];
    assert e[4 + |data|..] == v[2 + |data|..];
  }

  lemma HandshakeRead(hs: Data, rest: Data)
    requires 34 <= |hs| < 0x100_0000
    ensures var p := Handshake(hs, rest); |p| == 4 + |hs| + |rest| && ParseHandshake(p) == ParseFromSessionId(hs[34..])
  {
    var p, k := Handshake(hs, rest), Three(|hs|);
    assert p[1] == k[0] && p[2] == k[1] && p[3] == k[2];
    assert p[4..4 + |hs|] == hs;
  }

  lemma FramedRead(version: Data, payload: Data, rest: Data)
    requires |version| == 2 && 4 <= |payload| <= 16384
    ensures ParseRecord(Framed(version, payload, rest)) == ParseHandshake(payload)
  {
    var e, v := Framed(version, payload, rest), Vec16(payload, rest);
    assert e[3] == v[0] && e[4] == v[1];
    assert e[5..5 + |payload|] == v[2..2 + |payload|];
  }

  // Whatever is long enough is framed.

  lemma TwoOf(hi: Byte, lo: Byte)
    ensures Two(Of2(hi, lo)) == [hi, lo]
  {
  }

  lemma ThreeOf(a: Byte, b: Byte, c: Byte)
    ensures Three(Of3(a, b, c)) == [a, b, c]
  {
    var n, high := Of3(a, b, c), Of2(a, b);
    assert n == 256 * high + c;
    assert n / 256 == high && n % 256 == c;
    assert n / 0x1_0000 == a && high % 256 == b;
  }

  lemma Vec8Of(s: Data) returns (d: Data, rest: Data)
    requires |s| >= 1 && 1 + s[0] <= |s|
    ensures d == s[1..1 + s[0]] && rest == s[1 + s[0]..] && Fits8(d) && Vec8(d, rest) == s
  {
    d, rest := s[1..1 + s[0]], s[1 + s[0]..];
  }

  lemma Vec16Of(s: Data) returns (d: Data, rest: Data)
    requires |s| >= 2 && 2 + Of2(s[0], s[1]) <= |s|
    ensures d == s[2..2 + Of2(s[0], s[1])] && rest == s[2 + Of2(s[0], s[1])..] && Fits16(d) && Vec16(d, rest) == s
  {
    TwoOf(s[0], s[1]);
    d, rest := s[2..2 + Of2(s[0], s[1])], s[2 + Of2(s[0], s[1])..];
    assert s == [s[0], s[1]] + d + rest;
  }

  lemma NameEntryOf(list: Data) returns (name: Data, rest: Data)
    requires |list| >= 3 && 3 + Of2(list[1], list[2]) <= |list|
    ensures name == list[3..3 + Of2(list[1], list[2])] && rest == list[3 + Of2(list[1], list[2])..]
    ensures Fits16(name) && NameEntry(list[0], name, rest) == list
  {
    var s := list[1..];
    name, rest := Vec16Of(s);
    assert name == list[3..3 + Of2(list[1], list[2])];
    assert rest == list[3 + Of2(list[1], list[2])..];
    assert list == [list[0]] + s;
  }

  lemma ExtensionOf(exts: Data) returns (data: Data, rest: Data)
    requires |exts| >= 4 && 4 + Of2(exts[2], exts[3]) <= |exts|
    ensures data == exts[4..4 + Of2(exts[2], exts[3])] && rest == exts[4 + Of2(exts[2], exts[3])..]
    ensures Fits16(data) && Extension(Of2(exts[0], exts[1]), data, rest) == exts
  {
    var s := exts[2..];
    data, rest := Vec16Of(s);
    assert data == exts[4..4 + Of2(exts[2], exts[3])];
    assert rest == exts[4 + Of2(exts[2], exts[3])..];
    TwoOf(exts[0], exts[1]);
    assert exts == [exts[0], exts[1]] + s;
  }

  lemma HandshakeOf(p: Data) returns (hs: Data, rest: Data)
    requires |p| >= 4 && p[0] == 1 && 4 + Of3(p[1], p[2], p[3]) <= |p|
    ensures hs == p[4..4 + Of3(p[1], p[2], p[3])] && |hs| < 0x100_0000 && Handshake(hs, rest) == p
  {
    var n := Of3(p[1], p[2], p[3]);
    ThreeOf(p[1], p[2], p[3]);
    hs, rest := p[4..4 + n], p[4 + n..];
    var k := Three(n);
    assert |hs| == n;
    assert p == [p[0]] + k + hs + rest;
  }

  lemma FramedOf(data: Data) returns (version: Data, payload: Data, rest: Data)
    requires |data| >= 5 && data[0] == 22 && 5 + Of2(data[3], data[4]) <= |data|
    ensures |version| == 2 && payload == data[5..5 + Of2(data[3], data[4])] && Fits16(payload)
    ensures Framed(version, payload, rest) == data
  {
    var s := data[3..];
    payload, rest := Vec16Of(s);
    assert payload == data[5..5 + Of2(data[3], data[4])];
    version := data[1..3];
    assert data == [data[0]] + version + s;
  }

  // ---------------------------------------------------------------- encoding

  ghost predicate GoodNames(ns: Names) {
    match ns
    case Host(name, _) => name != [] && Fits16(name)
    case Other(kind, name, more) => kind != 0 && Fits16(name) && GoodNames(more)
  }

  function EncodeNames(ns: Names): Data
    requires GoodNames(ns)
  {
    match ns
    case Host(name, tail) => NameEntry(0, name, tail)
    case Other(kind, name, more) => NameEntry(kind, name, EncodeNames(more))
  }

  function HostOf(ns: Names): Data {
    match ns
    case Host(name, _) => name
    case Other(_, _, more) => HostOf(more)
  }

  ghost predicate GoodServerName(names: Names, afterList: Data) {
    GoodNames(names) && 2 + |EncodeNames(names)| + |afterList| < 0x1_0000
  }

  function EncodeServerName(names: Names, afterList: Data): (e: Data)
    requires GoodServerName(names, afterList)
    ensures Fits16(e)
  {
    Vec16(EncodeNames(names), afterList)
  }

  ghost predicate GoodExts(es: Exts) {
    match es
    case Last(rest) => |rest| < 4
    case ServerName(names, afterList, _) => GoodServerName(names, afterList)
    case Ext(kind, data, more) => 0 < kind < 0x1_0000 && Fits16(data) && GoodExts(more)
  }

  function EncodeExts(es: Exts): Data
    requires GoodExts(es)
  {
    match es
    case Last(rest) => rest
    case ServerName(names, afterList, tail) => Extension(0, EncodeServerName(names, afterList), tail)
    case Ext(kind, data, more) => Extension(kind, data, EncodeExts(more))
  }

  /** The name a routing decision is made on: the first host_name, or nothing without the extension. */
  function NameIn(es: Exts): Data {
    match es
    case Last(_) => []
    case ServerName(names, _, _) => HostOf(names)
    case Ext(_, _, more) => NameIn(more)
  }

  ghost predicate GoodBlock(b: ExtBlock) {
    match b
    case Absent(rest) => |rest| < 2
    case Present(exts, _) => GoodExts(exts) && Fits16(EncodeExts(exts))
  }

  function EncodeBlock(b: ExtBlock): Data
    requires GoodBlock(b)
  {
    match b
    case Absent(rest) => rest
    case Present(exts, after) => Vec16(EncodeExts(exts), after)
  }

  function NameOf(b: ExtBlock): Data {
    match b
    case Absent(_) => []
    case Present(exts, _) => NameIn(exts)
  }

  ghost predicate GoodHello(h: Hello) {
    && |h.versionAndRandom| == 34 && Fits8(h.sessionId) && Fits16(h.ciphers) && Fits8(h.compression)
    && GoodBlock(h.block)
  }

  function EncodeHello(h: Hello): (e: Data)
    requires GoodHello(h)
    ensures |e| >= 34
  {
    h.versionAndRandom + Vec8(h.sessionId, Vec16(h.ciphers, Vec8(h.compression, EncodeBlock(h.block))))
  }

  /** A record holds at most 16384 bytes of handshake. */
  ghost predicate GoodRecord(r: Record) {
    && |r.version| == 2 && GoodHello(r.hello)
    && 4 + |EncodeHello(r.hello)| + |r.afterHello| <= 16384
  }

  function EncodeRecord(r: Record): Data
    requires GoodRecord(r)
  {
    var p := Handshake(EncodeHello(r.hello), r.afterHello);
    Framed(r.version, p, r.after)
  }

  // ---------------------------------------------------------------- every record is read

  lemma {:induction false} NamesComplete(ns: Names)
    requires GoodNames(ns)
    ensures ParseNames(EncodeNames(ns)) == Ok(HostOf(ns))
  {
    match ns
    case Host(name, tail) =>
      NameEntryRead(0, name, tail);
    case Other(kind, name, more) =>
      NameEntryRead(kind, name, EncodeNames(more));
      NamesComplete(more);
  }

  lemma ServerNameComplete(names: Names, afterList: Data)
    requires GoodServerName(names, afterList)
    ensures ParseServerName(EncodeServerName(names, afterList)) == Ok(HostOf(names))
  {
    NamesComplete(names);
  }

  lemma {:induction false} ExtsComplete(es: Exts)
    requires GoodExts(es)
    ensures ParseExtensions(EncodeExts(es)) == Ok(NameIn(es))
  {
    match es
    case Last(_) =>
    case ServerName(names, afterList, tail) =>
      ExtensionRead(0, EncodeServerName(names, afterList), tail);
      ServerNameComplete(names, afterList);
    case Ext(kind, data, more) =>
      ExtensionRead(kind, data, EncodeExts(more));
      ExtsComplete(more);
  }

  lemma BlockComplete(b: ExtBlock)
    requires GoodBlock(b)
    ensures ParseFromExtensions(EncodeBlock(b)) == Ok(NameOf(b))
  {
    if b.Present? {
      ExtsComplete(b.exts);
    }
  }

  lemma HelloComplete(h: Hello)
    requires GoodHello(h)
    ensures ParseFromSessionId(EncodeHello(h)[34..]) == Ok(NameOf(h.block))
  {
    BlockComplete(h.block);
    var c := Vec8(h.compression, EncodeBlock(h.block));
    assert ParseFromCompression(c) == Ok(NameOf(h.block));
    var k := Vec16(h.ciphers, c);
    assert ParseFromCiphers(k) == Ok(NameOf(h.block));
    assert EncodeHello(h)[34..] == Vec8(h.sessionId, k);
  }

  /**
    Whatever its session id, ciphers, compression methods, other extensions and other name
    entries, a ClientHello record is read, and the name found is the one it carries.
   */
  lemma RecordComplete(r: Record)
    requires GoodRecord(r)
    ensures ParseRecord(EncodeRecord(r)) == Ok(NameOf(r.hello.block))
  {
    var hs := EncodeHello(r.hello);
    HelloComplete(r.hello);
    HandshakeRead(hs, r.afterHello);
    FramedRead(r.version, Handshake(hs, r.afterHello), r.after);
  }

  // ---------------------------------------------------------------- nothing else is

  lemma {:induction false} NamesSound(list: Data) returns (ns: Names)
    requires ParseNames(list).Ok?
    ensures GoodNames(ns) && EncodeNames(ns) == list && HostOf(ns) == ParseNames(list).name
    decreases |list|
  {
    var name, rest := NameEntryOf(list);
    if list[0] == 0 {
      ns := Host(name, rest);
    } else {
      var more := NamesSound(rest);
      ns := Other(list[0], name, more);
    }
  }

  lemma ServerNameSound(data: Data) returns (names: Names, afterList: Data)
    requires ParseServerName(data).Ok? && Fits16(data)
    ensures GoodServerName(names, afterList) && EncodeServerName(names, afterList) == data
    ensures HostOf(names) == ParseServerName(data).name
  {
    var list, after := Vec16Of(data);
    names := NamesSound(list);
    afterList := after;
  }

  lemma {:induction false} ExtsSound(exts: Data) returns (es: Exts)
    requires ParseExtensions(exts).Ok?
    ensures GoodExts(es) && EncodeExts(es) == exts && NameIn(es) == ParseExtensions(exts).name
    decreases |exts|
  {
    if |exts| < 4 {
      es := Last(exts);
    } else {
      var data, rest := ExtensionOf(exts);
      if exts[0] == 0 && exts[1] == 0 {
        var names, afterList := ServerNameSound(data);
        es := ServerName(names, afterList, rest);
      } else {
        var more := ExtsSound(rest);
        es := Ext(Of2(exts[0], exts[1]), data, more);
      }
    }
  }

  lemma BlockSound(s: Data) returns (b: ExtBlock)
    requires ParseFromExtensions(s).Ok?
    ensures GoodBlock(b) && EncodeBlock(b) == s && NameOf(b) == ParseFromExtensions(s).name
  {
    if |s| < 2 {
      b := Absent(s);
    } else {
      var e, after := Vec16Of(s);
      var es := ExtsSound(e);
      b := Present(es, after);
    }
  }

  lemma HelloParts(s: Data) returns (sessionId: Data, ciphers: Data, compression: Data, e: Data)
    requires ParseFromSessionId(s).Ok?
    ensures Fits8(sessionId) && Fits16(ciphers) && Fits8(compression)
    ensures s == Vec8(sessionId, Vec16(ciphers, Vec8(compression, e)))
    ensures ParseFromSessionId(s) == ParseFromExtensions(e)
  {
    var k, c;
    sessionId, k := Vec8Of(s);
    ciphers, c := Vec16Of(k);
    compression, e := Vec8Of(c);
  }

  lemma HelloSound(hs: Data) returns (h: Hello)
    requires |hs| >= 34 && ParseFromSessionId(hs[34..]).Ok?
    ensures GoodHello(h) && EncodeHello(h) == hs && NameOf(h.block) == ParseFromSessionId(hs[34..]).name
  {
    hide ParseFromSessionId, ParseFromExtensions, Vec8, Vec16, GoodBlock, EncodeBlock, NameOf;
    var sessionId, ciphers, compression, e := HelloParts(hs[34..]);
    var b := BlockSound(e);
    var front := hs[..34];
    assert hs == front + hs[34..];
    h := Hello(front, sessionId, ciphers, compression, b);
  }

  /** Whatever is accepted is such a record, and the name reported is the one it carries. */
  lemma RecordSound(data: Data) returns (r: Record)
    requires ParseRecord(data).Ok?
    ensures GoodRecord(r) && EncodeRecord(r) == data && NameOf(r.hello.block) == ParseRecord(data).name
  {
    hide ParseFromSessionId, Framed, Handshake, GoodHello, EncodeHello, NameOf;
    var version, p, rest := FramedOf(data);
    var hs, after := HandshakeOf(p);
    var h := HelloSound(hs);
    HandshakeRead(hs, after);
    r := Record(version, h, after, rest);
  }

  /** The parser accepts exactly the well-formed records. */
  lemma AcceptsExactly(data: Data, name: Data)
    ensures ParseRecord(data) == Ok(name)
       <==> exists r: Record :: GoodRecord(r) && EncodeRecord(r) == data && NameOf(r.hello.block) == name
  {
    if ParseRecord(data) == Ok(name) {
      var r := RecordSound(data);
    }
    forall r: Record | GoodRecord(r) && EncodeRecord(r) == data && NameOf(r.hello.block) == name
      ensures ParseRecord(data) == Ok(name)
    {
      RecordComplete(r);
    }
  }

  // ---------------------------------------------------------------- why a record is refused

  /** Fewer bytes than announced, by one byte or by two. */
  ghost predicate Short8(s: Data) {
    |s| < 1 || |s| - 1 < s[0]
  }

  ghost predicate Short16(s: Data) {
    |s| < 2 || |s| < 2 + Of2(s[0], s[1])
  }

  /** The headers of record and handshake. */
  lemma HeaderErrors(data: Data, p: Data)
    ensures |data| < 5 ==> ParseRecord(data) == Err(RecordHeaderShort)
    ensures |data| >= 5 && data[0] != 22 ==> ParseRecord(data) == Err(NotHandshake)
    ensures |data| >= 5 && data[0] == 22 ==>
              var n := Of2(data[3], data[4]);
              && (n < 4 ==> ParseRecord(data) == Err(RecordShort))
              && (n > 16384 ==> ParseRecord(data) == Err(RecordOversized))
              && (4 <= n <= 16384 && |data| < 5 + n ==> ParseRecord(data) == Err(RecordTruncated))
    ensures |p| >= 4 && p[0] != 1 ==> ParseHandshake(p) == Err(NotClientHello)
    ensures |p| >= 4 && p[0] == 1 ==>
              var n := Of3(p[1], p[2], p[3]);
              && (n < 34 ==> ParseHandshake(p) == Err(HandshakeShort))
              && (34 <= n && |p| < 4 + n ==> ParseHandshake(p) == Err(HandshakeOverrun))
  {
  }

  /** A hello cut off within its session id, ciphers, compression methods or extensions is refused for that part. */
  lemma CutOff(sessionId: Data, ciphers: Data, compression: Data, s: Data)
    requires Fits8(sessionId) && Fits16(ciphers) && Fits8(compression)
    ensures Short8(s) ==> ParseFromSessionId(s) == Err(SessionIdTruncated)
    ensures Short16(s) ==> ParseFromSessionId(Vec8(sessionId, s)) == Err(CiphersTruncated)
    ensures Short8(s) ==> ParseFromSessionId(Vec8(sessionId, Vec16(ciphers, s))) == Err(CompressionTruncated)
    ensures |s| >= 2 && Short16(s) ==>
              ParseFromSessionId(Vec8(sessionId, Vec16(ciphers, Vec8(compression, s)))) == Err(ExtensionsTruncated)
  {
    var c, k := Vec8(compression, s), Vec16(ciphers, Vec8(compression, s));
    assert ParseFromSessionId(Vec8(sessionId, k)) == ParseFromCiphers(k);
    assert ParseFromCiphers(k) == ParseFromCompression(c);
    assert ParseFromCompression(c) == ParseFromExtensions(s);
    assert ParseFromSessionId(Vec8(sessionId, s)) == ParseFromCiphers(s);
    assert ParseFromSessionId(Vec8(sessionId, Vec16(ciphers, s))) == ParseFromCiphers(Vec16(ciphers, s));
    assert ParseFromCiphers(Vec16(ciphers, s)) == ParseFromCompression(s);
  }

  /** Extensions and the server name among them: an overrun, and a list without a host name or with an empty one. */
  lemma NameErrors(s: Data, data: Data, rest: Data)
    requires Fits16(data)
    ensures |s| >= 4 && |s| < 4 + Of2(s[2], s[3]) ==> ParseExtensions(s) == Err(ExtensionOverrun)
    ensures |data| < 2 ==> ParseExtensions(Extension(0, data, rest)) == Err(ServerNameShort)
    ensures |data| >= 2 && Short16(data) ==> ParseExtensions(Extension(0, data, rest)) == Err(ServerNameOverrun)
    ensures |s| < 3 ==> ParseNames(s) == Err(NoHostName)
    ensures |s| >= 3 && |s| < 3 + Of2(s[1], s[2]) ==> ParseNames(s) == Err(NameOverrun)
    ensures ParseNames(NameEntry(0, [], rest)) == Err(EmptyName)
  {
    ExtensionRead(0, data, rest);
    NameEntryRead(0, [], rest);
  }
}
