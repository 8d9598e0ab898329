/** The parser for the YAML subset of the configuration file (internal/config/yaml.go). */
module Yaml {
  import opened Backend
  import opened Text

  datatype Value =
    | Null
    | Scalar(text: string)
    | Mapping(entries: map<string, Value>)
    | Sequence(items: seq<Value>)

  datatype RawLine = RawLine(indent: nat, content: string, lineNo: nat)

  datatype Error =
    | TabIndent(lineNo: nat)
    | TopLevelIndent(lineNo: nat)
    | NotAMapping(lineNo: nat)
    | EmptyKey(lineNo: nat)

  datatype Result<+T> = Ok(value: T) | Err(error: Error)

  // ---------------------------------------------------------------- lines

  /** Whether a scan stands inside a single- or double-quoted string. */
  datatype Quoting = Quoting(single: bool, double: bool) {
    predicate Bare() {
      !single && !double
    }

    function Next(c: char): Quoting {
      if c == '\'' && !double then this.(single := !single)
      else if c == '"' && !single then this.(double := !double)
      else this
    }
  }

  const BARE := Quoting(false, false)

  /** Where the first '#' outside quotes is, or the length of the line. */
  function CommentAt(line: string, q: Quoting): (k: nat)
    ensures k <= |line|
  {
    if line == [] || (line[0] == '#' && q.Bare()) then 0 else 1 + CommentAt(line[1..], q.Next(line[0]))
  }

  method StripComment(line: string) returns (r: string)
    ensures r == line[..CommentAt(line, BARE)]
  {
    var inSingle, inDouble := false, false;
    for i := 0 to |line|
      invariant CommentAt(line, BARE) == i + CommentAt(line[i..], Quoting(inSingle, inDouble))
    {
      assert line[i..][1..] == line[i + 1..];
      match line[i]
      case '\'' =>
        if !inDouble {
          inSingle := !inSingle;
        }
      case '"' =>
        if !inSingle {
          inDouble := !inDouble;
        }
      case '#' =>
        if !inSingle && !inDouble {
          return line[..i];
        }
      case _ =>
    }
    return line;
  }

  function LeadingSpaces(line: string): (n: nat)
    ensures n <= |line|
  {
    if line != [] && line[0] == ' ' then 1 + LeadingSpaces(line[1..]) else 0
  }

  /** Indentation and content of a line; None where a tab follows the leading spaces. */
  function Indentation(line: string): Option<(nat, string)> {
    var n := LeadingSpaces(line);
    if n < |line| && line[n] == '\t' then None else Some((n, line[n..]))
  }

  method SplitIndent(line: string) returns (r: Option<(nat, string)>)
    ensures r == Indentation(line)
  {
    var n := 0;
    while n < |line| && line[n] == ' '
      invariant n <= |line| && LeadingSpaces(line) == n + LeadingSpaces(line[n..])
    {
      assert line[n..][1..] == line[n + 1..];
      n := n + 1;
    }
    if n < |line| && line[n] == '\t' {
      return None;
    }
    return Some((n, line[n..]));
  }

  /** One source line without comment, trailing blanks and carriage returns. */
  function Cleaned(raw: string): string {
    var line := TrimRight(raw, IsReturn);
    TrimRight(line[..CommentAt(line, BARE)], IsBlank)
  }

  /** What a source line contributes: nothing if it is blank or only a comment, else itself. */
  function LinesOf(source: string, no: nat): Result<seq<RawLine>> {
    var trimmed := Cleaned(source);
    if TrimSpace(trimmed) == "" then Ok([])
    else match Indentation(trimmed)
      case None => Err(TabIndent(no))
      case Some((indent, content)) => Ok([RawLine(indent, TrimRight(content, IsBlank), no)])
  }

  function Append(r: Result<seq<RawLine>>, t: Result<seq<RawLine>>): Result<seq<RawLine>> {
    if r.Err? then r else if t.Err? then t else Ok(r.value + t.value)
  }

  /** The lines of the file that say something; source line k has number no + k. */
  function Preprocessed(sources: seq<string>, no: nat): Result<seq<RawLine>> {
    if sources == [] then Ok([]) else Append(LinesOf(sources[0], no), Preprocessed(sources[1..], no + 1))
  }

  lemma AppendAssociative(r: Result<seq<RawLine>>, s: Result<seq<RawLine>>, t: Result<seq<RawLine>>)
    ensures Append(Append(r, s), t) == Append(r, Append(s, t))
  {
    if r.Ok? && s.Ok? && t.Ok? {
      assert (r.value + s.value) + t.value == r.value + (s.value + t.value);
    }
  }

  lemma PreprocessedNext(sources: seq<string>, i: nat, lines: seq<RawLine>)
    requires i < |sources|
    ensures Append(Ok(lines), Preprocessed(sources[i..], i + 1))
         == Append(Append(Ok(lines), LinesOf(sources[i], i + 1)), Preprocessed(sources[i + 1..], i + 2))
  {
    assert sources[i..][0] == sources[i] && sources[i..][1..] == sources[i + 1..];
    AppendAssociative(Ok(lines), LinesOf(sources[i], i + 1), Preprocessed(sources[i + 1..], i + 2));
  }

  method PreprocessLine(source: string, lineNo: nat) returns (r: Result<seq<RawLine>>)
    ensures r == LinesOf(source, lineNo)
  {
    var raw := TrimRight(source, IsReturn);
    var noComment := StripComment(raw);
    var trimmed := TrimRight(noComment, IsBlank);
    if TrimSpace(trimmed) == "" {
      return Ok([]);
    }
    var split := SplitIndent(trimmed);
    if split.None? {
      return Err(TabIndent(lineNo));
    }
    return Ok([RawLine(split.value.0, TrimRight(split.value.1, IsBlank), lineNo)]);
  }

  method Preprocess(data: string) returns (r: Result<seq<RawLine>>)
    ensures r == Preprocessed(Split(data, '\n'), 1)
  {
    var lines: seq<RawLine> := [];
    var sources := Split(data, '\n');
    assert sources[0..] == sources;
    ghost var all := Preprocessed(sources, 1);
    assert all.Ok? ==> [] + all.value == all.value;
    for i := 0 to |sources|
      invariant all == Append(Ok(lines), Preprocessed(sources[i..], i + 1))
    {
      PreprocessedNext(sources, i, lines);
      var line := PreprocessLine(sources[i], i + 1);
      if line.Err? {
        return line;
      }
      lines := lines + line.value;
    }
    assert sources[|sources|..] == [] && lines + [] == lines;
    return Ok(lines);
  }

  // ---------------------------------------------------------------- entries and scalars

  predicate IsSeqItem(content: string) {
    content == "-" || "- " <= content
  }

  predicate LooksLikeMapEntry(s: string) {
    ':' in s
  }

  /** Key and inline value of a mapping line; an empty value means there is none. */
  function SplitKeyVal(content: string, lineNo: nat): (r: Result<(string, string)>)
    ensures r.Ok? ==> r.value.0 != ""
  {
    var idx := IndexOf(content, ':');
    if idx == -1 then Err(NotAMapping(lineNo))
    else
      var key := TrimSpace(content[..idx]);
      if key == "" then Err(EmptyKey(lineNo)) else Ok((key, TrimSpace(content[idx + 1..])))
  }

  function ParseScalar(s: string): string {
    var t := TrimSpace(s);
    if |t| >= 2 && ((t[0] == '"' && t[|t| - 1] == '"') || (t[0] == '\'' && t[|t| - 1] == '\'')) then t[1..|t| - 1]
    else t
  }

  /** What follows the dash of a sequence item. */
  function ItemRest(content: string): (rest: string)
    requires IsSeqItem(content)
    ensures |rest| < |content|
  {
    TrimShorter(content[1..]);
    TrimSpace(content[1..])
  }

  lemma {:induction false} TrimShorter(s: string)
    ensures |TrimSpace(s)| <= |s|
  {
    TrimLeftShorter(s, IsSpace);
    TrimRightShorter(TrimLeft(s, IsSpace), IsSpace);
  }

  lemma {:induction false} TrimLeftShorter(s: string, p: char -> bool)
    ensures |TrimLeft(s, p)| <= |s|
  {
    if s != [] && p(s[0]) {
      TrimLeftShorter(s[1..], p);
    }
  }

  lemma {:induction false} TrimRightShorter(s: string, p: char -> bool)
    ensures |TrimRight(s, p)| <= |s|
  {
    if s != [] && p(s[|s| - 1]) {
      TrimRightShorter(s[..|s| - 1], p);
    }
  }

  // ---------------------------------------------------------------- recursive descent

  /** What is left to parse: the reason the descent ends although it copies lines into new lists. */
  ghost function Weight(lines: seq<RawLine>, i: nat): (w: nat)
    decreases |lines| - i
  {
    if i >= |lines| then 0 else 1 + |lines[i].content| + Weight(lines, i + 1)
  }

  lemma {:induction false} WeightDecreases(lines: seq<RawLine>, i: nat, j: nat)
    requires i <= j <= |lines|
    ensures Weight(lines, j) <= Weight(lines, i)
    ensures i < j ==> Weight(lines, j) < Weight(lines, i)
    decreases j - i
  {
    if i < j {
      WeightDecreases(lines, i + 1, j);
    }
  }

  lemma {:induction false} WeightOfSlice(lines: seq<RawLine>, i: nat, j: nat, sub: seq<RawLine>, k: nat)
    requires i <= j <= |lines| && k <= |sub| && sub[k..] == lines[i..j]
    ensures Weight(sub, k) <= Weight(lines, i)
    decreases j - i
  {
    if i < j {
      assert sub[k] == sub[k..][0] && lines[i] == lines[i..j][0];
      assert sub[k + 1..] == sub[k..][1..] && lines[i + 1..j] == lines[i..j][1..];
      WeightOfSlice(lines, i + 1, j, sub, k + 1);
    }
  }

  /** The first line at or after j that is indented less than itemIndent. */
  function BlockEnd(lines: seq<RawLine>, j: nat, itemIndent: nat): (e: nat)
    requires j <= |lines|
    ensures j <= e <= |lines|
    ensures forall k :: j <= k < e ==> lines[k].indent >= itemIndent
    ensures e < |lines| ==> lines[e].indent < itemIndent
    decreases |lines| - j
  {
    if j < |lines| && lines[j].indent >= itemIndent then BlockEnd(lines, j + 1, itemIndent) else j
  }

  /** The lines of a "- key: value" item, its dash replaced by two more columns of indentation. */
  function ItemBlock(lines: seq<RawLine>, i: nat, indent: nat): (sub: seq<RawLine>)
    requires i < |lines| && IsSeqItem(lines[i].content)
    ensures Weight(sub, 0) < Weight(lines, i)
  {
    var first := RawLine(indent + 2, ItemRest(lines[i].content), lines[i].lineNo);
    var e := BlockEnd(lines, i + 1, indent + 2);
    var sub := [first] + lines[i + 1..e];
    assert sub[1..] == lines[i + 1..e];
    WeightOfSlice(lines, i + 1, e, sub, 1);
    sub
  }

  datatype Parsed<+T> = Parsed(value: T, next: nat)

  predicate Advances<T>(r: Result<Parsed<T>>, i: nat, n: nat) {
    r.Ok? ==> i <= r.value.next <= n
  }

  function ParseValueAt(lines: seq<RawLine>, i: nat, indent: nat): (r: Result<Parsed<Value>>)
    requires i < |lines|
    ensures Advances(r, i, |lines|)
    decreases Weight(lines, i), 2
  {
    if IsSeqItem(lines[i].content) then ParseItems(lines, i, indent, [])
    else ParseEntries(lines, i, indent, map[])
  }

  /** One "key: ..." line and the block that belongs to it. */
  function ParseEntry(lines: seq<RawLine>, i: nat, indent: nat): (r: Result<(string, Parsed<Value>)>)
    requires i < |lines|
    ensures r.Ok? ==> i < r.value.1.next <= |lines|
    decreases Weight(lines, i), 0
  {
    match SplitKeyVal(lines[i].content, lines[i].lineNo)
    case Err(e) => Err(e)
    case Ok((key, val)) =>
      if val != "" then Ok((key, Parsed(Scalar(ParseScalar(val)), i + 1)))
      else if i + 1 < |lines| && lines[i + 1].indent > indent then
        match ParseValueAt(lines, i + 1, lines[i + 1].indent)
        case Err(e) => Err(e)
        case Ok(p) => Ok((key, p))
      else if i + 1 < |lines| && lines[i + 1].indent == indent && IsSeqItem(lines[i + 1].content) then
        match ParseItems(lines, i + 1, indent, [])
        case Err(e) => Err(e)
        case Ok(p) => Ok((key, p))
      else Ok((key, Parsed(Scalar(""), i + 1)))
  }

  /** The entries at exactly this indentation, added to m. */
  function ParseEntries(lines: seq<RawLine>, i: nat, indent: nat, m: map<string, Value>): (r: Result<Parsed<Value>>)
    requires i <= |lines|
    ensures Advances(r, i, |lines|) && (r.Ok? ==> r.value.value.Mapping?)
    decreases Weight(lines, i), 1
  {
    if i < |lines| && lines[i].indent == indent && !IsSeqItem(lines[i].content) then
      match ParseEntry(lines, i, indent)
      case Err(e) => Err(e)
      case Ok((key, p)) =>
        WeightDecreases(lines, i, p.next);
        ParseEntries(lines, p.next, indent, m[key := p.value])
    else Ok(Parsed(Mapping(m), i))
  }

  /** One "- ..." line and the block that belongs to it. */
  function ParseItem(lines: seq<RawLine>, i: nat, indent: nat): (r: Result<Parsed<Value>>)
    requires i < |lines| && IsSeqItem(lines[i].content)
    ensures Advances(r, i + 1, |lines|)
    decreases Weight(lines, i), 0
  {
    var rest := ItemRest(lines[i].content);
    if rest == "" then
      if i + 1 < |lines| && lines[i + 1].indent > indent then ParseValueAt(lines, i + 1, lines[i + 1].indent)
      else Ok(Parsed(Null, i + 1))
    else if LooksLikeMapEntry(rest) then
      match ParseEntries(ItemBlock(lines, i, indent), 0, indent + 2, map[])
      case Err(e) => Err(e)
      case Ok(p) => Ok(Parsed(p.value, BlockEnd(lines, i + 1, indent + 2)))
    else Ok(Parsed(Scalar(ParseScalar(rest)), i + 1))
  }

  /** The items at exactly this indentation, appended to acc. */
  function ParseItems(lines: seq<RawLine>, i: nat, indent: nat, acc: seq<Value>): (r: Result<Parsed<Value>>)
    requires i <= |lines|
    ensures Advances(r, i, |lines|)
    decreases Weight(lines, i), 1
  {
    if i < |lines| && lines[i].indent == indent && IsSeqItem(lines[i].content) then
      match ParseItem(lines, i, indent)
      case Err(e) => Err(e)
      case Ok(p) =>
        WeightDecreases(lines, i, p.next);
        ParseItems(lines, p.next, indent, acc + [p.value])
    else Ok(Parsed(Sequence(acc), i))
  }

  /** The tree a document stands for. Lines after the top-level mapping has ended are ignored. */
  function ParseDocument(data: string): Result<map<string, Value>> {
    match Preprocessed(Split(data, '\n'), 1)
    case Err(e) => Err(e)
    case Ok(lines) =>
      if lines == [] then Ok(map[])
      else if lines[0].indent != 0 then Err(TopLevelIndent(lines[0].lineNo))
      else match ParseEntries(lines, 0, 0, map[])
        case Err(e) => Err(e)
        case Ok(p) => Ok(p.value.entries)
  }

  // ---------------------------------------------------------------- the parser as it runs

  method ParseValue(lines: seq<RawLine>, i: nat, indent: nat) returns (r: Result<Parsed<Value>>)
    requires i <= |lines|
    ensures r == if i < |lines| then ParseValueAt(lines, i, indent) else Ok(Parsed(Null, i))
    decreases Weight(lines, i), 2
  {
    if i >= |lines| {
      return Ok(Parsed(Null, i));
    }
    if IsSeqItem(lines[i].content) {
      r := ParseSequence(lines, i, indent);
    } else {
      r := ParseMapping(lines, i, indent);
    }
  }

  method ParseMapping(lines: seq<RawLine>, start: nat, indent: nat) returns (r: Result<Parsed<Value>>)
    requires start <= |lines|
    ensures r == ParseEntries(lines, start, indent, map[])
    decreases Weight(lines, start), 1
  {
    var m, i := map[], start;
    while i < |lines| && lines[i].indent == indent
      invariant start <= i <= |lines|
      invariant ParseEntries(lines, start, indent, map[]) == ParseEntries(lines, i, indent, m)
      decreases |lines| - i
    {
      var content := lines[i].content;
      if IsSeqItem(content) {
        break;
      }
      WeightDecreases(lines, start, i);
      var kv := SplitKeyVal(content, lines[i].lineNo);
      if kv.Err? {
        return Err(kv.error);
      }
      var (key, val) := kv.value;
      if val != "" {
        m := m[key := Scalar(ParseScalar(val))];
        i := i + 1;
        continue;
      }
      WeightDecreases(lines, i, i + 1);
      if i + 1 < |lines| && lines[i + 1].indent > indent {
        var p := ParseValue(lines, i + 1, lines[i + 1].indent);
        if p.Err? {
          return Err(p.error);
        }
        m := m[key := p.value.value];
        i := p.value.next;
      } else if i + 1 < |lines| && lines[i + 1].indent == indent && IsSeqItem(lines[i + 1].content) {
        var p := ParseSequence(lines, i + 1, indent);
        if p.Err? {
          return Err(p.error);
        }
        m := m[key := p.value.value];
        i := p.value.next;
      } else {
        m := m[key := Scalar("")];
        i := i + 1;
      }
    }
    return Ok(Parsed(Mapping(m), i));
  }

  method ParseSequence(lines: seq<RawLine>, start: nat, indent: nat) returns (r: Result<Parsed<Value>>)
    requires start <= |lines|
    ensures r == ParseItems(lines, start, indent, [])
    decreases Weight(lines, start), 1
  {
    var result: seq<Value>, i := [], start;
    while i < |lines| && lines[i].indent == indent && IsSeqItem(lines[i].content)
      invariant start <= i <= |lines|
      invariant ParseItems(lines, start, indent, []) == ParseItems(lines, i, indent, result)
      decreases |lines| - i
    {
      WeightDecreases(lines, start, i);
      WeightDecreases(lines, i, i + 1);
      var rest := ItemRest(lines[i].content);
      var itemIndent := indent + 2;
      if rest == "" {
        if i + 1 < |lines| && lines[i + 1].indent > indent {
          var p := ParseValue(lines, i + 1, lines[i + 1].indent);
          if p.Err? {
            return Err(p.error);
          }
          result := result + [p.value.value];
          i := p.value.next;
        } else {
          result := result + [Null];
          i := i + 1;
        }
      } else if LooksLikeMapEntry(rest) {
        var sub, j := CopyBlock(lines, i, indent);
        var p := ParseMapping(sub, 0, itemIndent);
        if p.Err? {
          return Err(p.error);
        }
        result := result + [p.value.value];
        i := j;
      } else {
        result := result + [Scalar(ParseScalar(rest))];
        i := i + 1;
      }
    }
    return Ok(Parsed(Sequence(result), i));
  }

  /** Copies the lines of a "- key: value" item into a list of their own. */
  method CopyBlock(lines: seq<RawLine>, i: nat, indent: nat) returns (sub: seq<RawLine>, j: nat)
    requires i < |lines| && IsSeqItem(lines[i].content)
    ensures sub == ItemBlock(lines, i, indent) && j == BlockEnd(lines, i + 1, indent + 2)
  {
    sub := [RawLine(indent + 2, ItemRest(lines[i].content), lines[i].lineNo)];
    j := i + 1;
    while j < |lines| && lines[j].indent >= indent + 2
      invariant i + 1 <= j <= |lines|
      invariant BlockEnd(lines, i + 1, indent + 2) == BlockEnd(lines, j, indent + 2)
      invariant sub == [RawLine(indent + 2, ItemRest(lines[i].content), lines[i].lineNo)] + lines[i + 1..j]
    {
      sub := sub + [lines[j]];
      j := j + 1;
    }
  }

  method ParseYAML(data: string) returns (r: Result<map<string, Value>>)
    ensures r == ParseDocument(data)
  {
    var lines := Preprocess(data);
    if lines.Err? {
      return Err(lines.error);
    }
    if |lines.value| == 0 {
      return Ok(map[]);
    }
    if lines.value[0].indent != 0 {
      return Err(TopLevelIndent(lines.value[0].lineNo));
    }
    var p := ParseMapping(lines.value, 0, 0);
    if p.Err? {
      return Err(p.error);
    }
    return Ok(p.value.value.entries);
  }
}
