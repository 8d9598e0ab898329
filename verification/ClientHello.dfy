/**
  Finding the server name in a TLS ClientHello without a handshake
  (internal/proxy/l4/clienthello.go; section 4.1.2 of RFC 8446 and section 3 of RFC 6066).
 */
module ClientHello {
  import opened Bytes

  const MAX_CLIENT_HELLO_SIZE := 16 * 1024
  const RECORD_HEADER_SIZE := 5
  const CONTENT_TYPE_HANDSHAKE := 22
  const HANDSHAKE_CLIENT_HELLO := 1
  const SNI_EXTENSION_TYPE := 0

  datatype Error =
    | RecordHeaderShort | NotHandshake | RecordShort | RecordOversized | RecordTruncated
    | NotClientHello | HandshakeShort | HandshakeOverrun
    | SessionIdTruncated | CiphersTruncated | CompressionTruncated | ExtensionsTruncated
    | ExtensionOverrun | ServerNameShort | ServerNameOverrun | NameOverrun | EmptyName | NoHostName

  datatype Result = Ok(name: Data) | Err(error: Error)

  // ---------------------------------------------------------------- what is parsed, on what remains

  /** The entries of a server name list. */
  function ParseNames(list: Data): Result {
    if |list| < 3 then Err(NoHostName)
    else
      var n := U16(list[1], list[2]);
      if 3 + n > |list| then Err(NameOverrun)
      else if list[0] == 0 then (if n == 0 then Err(EmptyName) else Ok(list[3..3 + n]))
      else ParseNames(list[3 + n..])
  }

  /** The data of a server_name extension. */
  function ParseServerName(data: Data): Result {
    if |data| < 2 then Err(ServerNameShort)
    else
      var n := U16(data[0], data[1]);
      if n > |data| - 2 then Err(ServerNameOverrun) else ParseNames(data[2..2 + n])
  }

  /** The extensions of a hello, up to the first server_name. */
  function ParseExtensions(exts: Data): Result {
    if |exts| < 4 then Ok([])
    else
      var n := U16(exts[2], exts[3]);
      if 4 + n > |exts| then Err(ExtensionOverrun)
      else if U16(exts[0], exts[1]) == SNI_EXTENSION_TYPE then ParseServerName(exts[4..4 + n])
      else ParseExtensions(exts[4 + n..])
  }

  function ParseFromExtensions(s: Data): Result {
    if |s| < 2 then Ok([])
    else
      var n := U16(s[0], s[1]);
      if 2 + n > |s| then Err(ExtensionsTruncated) else ParseExtensions(s[2..2 + n])
  }

  function ParseFromCompression(s: Data): Result {
    if |s| < 1 || 1 + U8(s[0]) > |s| then Err(CompressionTruncated) else ParseFromExtensions(s[1 + U8(s[0])..])
  }

  function ParseFromCiphers(s: Data): Result {
    if |s| < 2 || 2 + U16(s[0], s[1]) > |s| then Err(CiphersTruncated)
    else ParseFromCompression(s[2 + U16(s[0], s[1])..])
  }

  function ParseFromSessionId(s: Data): Result {
    if |s| < 1 || 1 + U8(s[0]) > |s| then Err(SessionIdTruncated) else ParseFromCiphers(s[1 + U8(s[0])..])
  }

  /** A record: header, handshake header, and the hello after its version and random. */
  function ParseRecord(data: Data): Result {
    if |data| < RECORD_HEADER_SIZE then Err(RecordHeaderShort)
    else if data[0] != CONTENT_TYPE_HANDSHAKE then Err(NotHandshake)
    else
      var recordLen := U16(data[3], data[4]);
      if recordLen < 4 then Err(RecordShort)
      else if recordLen > MAX_CLIENT_HELLO_SIZE then Err(RecordOversized)
      else if |data| < RECORD_HEADER_SIZE + recordLen then Err(RecordTruncated)
      else ParseHandshake(data[RECORD_HEADER_SIZE..RECORD_HEADER_SIZE + recordLen])
  }

  function ParseHandshake(payload: Data): Result
    requires |payload| >= 4
  {
    if payload[0] != HANDSHAKE_CLIENT_HELLO then Err(NotClientHello)
    else
      var hsLen := U24(payload[1], payload[2], payload[3]);
      if hsLen < 34 then Err(HandshakeShort)
      else if hsLen > |payload| - 4 then Err(HandshakeOverrun)
      else ParseFromSessionId(payload[4..4 + hsLen][34..])
  }

  // ---------------------------------------------------------------- the parser as it runs

  lemma Slices(s: Data, a: nat, b: nat, i: nat, j: nat)
    requires a <= b <= |s| && i <= j <= b - a
    ensures s[a..b][i..j] == s[a + i..a + j] && s[a..b][i..] == s[a + i..b]
  {
    var t := s[a..b];
    forall k | 0 <= k < j - i ensures t[i..j][k] == s[a + i..a + j][k] {
      assert t[i + k] == s[a + (i + k)];
    }
    assert t[i..] == s[a + i..b];
  }

  lemma SliceTail(s: Data, a: nat, i: nat)
    requires a + i <= |s|
    ensures s[a..][i..] == s[a + i..]
  {
  }

  // The stages of a hello, by offset.

  lemma StageSessionId(hs: Data, off: nat)
    requires off <= |hs|
    ensures ParseFromSessionId(hs[off..]) ==
            if off >= |hs| || off + 1 + U8(hs[off]) > |hs| then Err(SessionIdTruncated)
            else ParseFromCiphers(hs[off + 1 + U8(hs[off])..])
  {
    if off < |hs| && off + 1 + U8(hs[off]) <= |hs| {
      SliceTail(hs, off, 1 + U8(hs[off]));
    }
  }

  lemma StageCiphers(hs: Data, off: nat)
    requires off <= |hs|
    ensures ParseFromCiphers(hs[off..]) ==
            if off + 2 > |hs| || off + 2 + U16(hs[off], hs[off + 1]) > |hs| then Err(CiphersTruncated)
            else ParseFromCompression(hs[off + 2 + U16(hs[off], hs[off + 1])..])
  {
    if off + 2 <= |hs| && off + 2 + U16(hs[off], hs[off + 1]) <= |hs| {
      SliceTail(hs, off, 2 + U16(hs[off], hs[off + 1]));
    }
  }

  lemma StageCompression(hs: Data, off: nat)
    requires off <= |hs|
    ensures ParseFromCompression(hs[off..]) ==
            if off >= |hs| || off + 1 + U8(hs[off]) > |hs| then Err(CompressionTruncated)
            else ParseFromExtensions(hs[off + 1 + U8(hs[off])..])
  {
    if off < |hs| && off + 1 + U8(hs[off]) <= |hs| {
      SliceTail(hs, off, 1 + U8(hs[off]));
    }
  }

  lemma StageExtensions(hs: Data, off: nat)
    requires off <= |hs|
    ensures ParseFromExtensions(hs[off..]) ==
            if off + 2 > |hs| then Ok([])
            else if off + 2 + U16(hs[off], hs[off + 1]) > |hs| then Err(ExtensionsTruncated)
            else ParseExtensions(hs[off + 2..off + 2 + U16(hs[off], hs[off + 1])])
  {
    if off + 2 <= |hs| && off + 2 + U16(hs[off], hs[off + 1]) <= |hs| {
      Slices(hs, off, |hs|, 2, 2 + U16(hs[off], hs[off + 1]));
      assert hs[off..|hs|] == hs[off..];
    }
  }

  method ParseSNIExtension(data: Data) returns (r: Result)
    ensures r == ParseServerName(data)
  {
    if |data| < 2 {
      return Err(ServerNameShort);
    }
    var listLen := U16(data[0], data[1]);
    if listLen > |data| - 2 {
      return Err(ServerNameOverrun);
    }
    var off, listEnd := 2, 2 + listLen;
    while off + 3 <= listEnd
      invariant 2 <= off <= listEnd <= |data|
      invariant ParseServerName(data) == ParseNames(data[off..listEnd])
    {
      ghost var list, from := data[off..listEnd], off;
      var nameType := data[off];
      off := off + 1;
      var nameLen := U16(data[off], data[off + 1]);
      off := off + 2;
      if off + nameLen > listEnd {
        return Err(NameOverrun);
      }
      Slices(data, from, listEnd, 3, 3 + nameLen);
      if nameType == 0 {
        var name := data[off..off + nameLen];
        if |name| == 0 {
          return Err(EmptyName);
        }
        return Ok(name);
      }
      off := off + nameLen;
    }
    return Err(NoHostName);
  }

  method WalkExtensions(hs: Data, start: nat, extEnd: nat) returns (r: Result)
    requires start <= extEnd <= |hs|
    ensures r == ParseExtensions(hs[start..extEnd])
  {
    var off := start;
    while off + 4 <= extEnd
      invariant start <= off <= extEnd
      invariant ParseExtensions(hs[start..extEnd]) == ParseExtensions(hs[off..extEnd])
    {
      ghost var from := off;
      var extType := U16(hs[off], hs[off + 1]);
      var extDataLen := U16(hs[off + 2], hs[off + 3]);
      off := off + 4;
      if off + extDataLen > extEnd {
        return Err(ExtensionOverrun);
      }
      Slices(hs, from, extEnd, 4, 4 + extDataLen);
      if extType == SNI_EXTENSION_TYPE {
        r := ParseSNIExtension(hs[off..off + extDataLen]);
        return;
      }
      off := off + extDataLen;
    }
    return Ok([]);
  }

  method ParseSNI(data: Data) returns (r: Result)
    ensures r == ParseRecord(data)
  {
    if |data| < RECORD_HEADER_SIZE {
      return Err(RecordHeaderShort);
    }
    if data[0] != CONTENT_TYPE_HANDSHAKE {
      return Err(NotHandshake);
    }
    var recordLen := U16(data[3], data[4]);
    if recordLen < 4 {
      return Err(RecordShort);
    }
    if recordLen > MAX_CLIENT_HELLO_SIZE {
      return Err(RecordOversized);
    }
    var totalLen := RECORD_HEADER_SIZE + recordLen;
    if |data| < totalLen {
      return Err(RecordTruncated);
    }
    var payload := data[RECORD_HEADER_SIZE..totalLen];
    if payload[0] != HANDSHAKE_CLIENT_HELLO {
      return Err(NotClientHello);
    }
    var hsLen := U24(payload[1], payload[2], payload[3]);
    if hsLen < 34 {
      return Err(HandshakeShort);
    }
    if hsLen > |payload| - 4 {
      return Err(HandshakeOverrun);
    }
    r := ParseHello(payload[4..4 + hsLen]);
  }

  method ParseHello(hs: Data) returns (r: Result)
    requires |hs| >= 34
    ensures r == ParseFromSessionId(hs[34..])
  {
    var off: nat := 34;
    StageSessionId(hs, off);
    if off >= |hs| {
      return Err(SessionIdTruncated);
    }
    var sessIDLen := U8(hs[off]);
    off := off + 1;
    if off + sessIDLen > |hs| {
      return Err(SessionIdTruncated);
    }
    off := off + sessIDLen;
    StageCiphers(hs, off);
    if off + 2 > |hs| {
      return Err(CiphersTruncated);
    }
    var cipherLen := U16(hs[off], hs[off + 1]);
    off := off + 2;
    if off + cipherLen > |hs| {
      return Err(CiphersTruncated);
    }
    r := ParseAfterCiphers(hs, off + cipherLen);
  }

  method ParseAfterCiphers(hs: Data, start: nat) returns (r: Result)
    requires start <= |hs|
    ensures r == ParseFromCompression(hs[start..])
  {
    var off := start;
    StageCompression(hs, off);
    if off >= |hs| {
      return Err(CompressionTruncated);
    }
    var compLen := U8(hs[off]);
    off := off + 1;
    if off + compLen > |hs| {
      return Err(CompressionTruncated);
    }
    off := off + compLen;
    StageExtensions(hs, off);
    if off + 2 > |hs| {
      return Ok([]);
    }
    var extLen := U16(hs[off], hs[off + 1]);
    off := off + 2;
    if off + extLen > |hs| {
      return Err(ExtensionsTruncated);
    }
    r := WalkExtensions(hs, off, off + extLen);
  }
}
