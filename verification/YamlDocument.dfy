/**
  Documents: a laid-out tree as the text of a file, with blank lines, comments and carriage
  returns anywhere, and the theorem that parsing the text gives the tree.
 */
module YamlDocument {
  import opened Text
  import opened Yaml
  import opened YamlLayout

  /** What may follow a line, or stand in for one: blanks, a comment, carriage returns. */
  datatype Tail = Tail(pad: string, comment: string, cr: string)

  predicate GoodTail(t: Tail) {
    && (forall c | c in t.pad :: IsBlank(c))
    && (t.comment != "" ==> t.comment[0] == '#') && '\n' !in t.comment
    && (forall c | c in t.cr :: IsReturn(c))
  }

  function TailText(t: Tail): string {
    t.pad + (t.comment + t.cr)
  }

  /** A line of the file: one that says nothing, or one of the tree's lines and what follows it. */
  datatype Piece = Filler(tail: Tail) | Content(line: Line, tail: Tail)

  function Spaces(n: nat): (s: string)
    ensures |s| == n
  {
    seq(n, _ => ' ')
  }

  function SourceOf(p: Piece): string {
    match p
    case Filler(tail) => TailText(tail)
    case Content(line, tail) => Spaces(line.indent) + line.content + TailText(tail)
  }

  function Sources(pieces: seq<Piece>): (sources: seq<string>)
    ensures |sources| == |pieces|
  {
    if pieces == [] then [] else [SourceOf(pieces[0])] + Sources(pieces[1..])
  }

  /** The tree's lines, in the order in which the file has them. */
  function LinesIn(pieces: seq<Piece>): seq<Line> {
    if pieces == [] then []
    else (if pieces[0].Content? then [pieces[0].line] else []) + LinesIn(pieces[1..])
  }

  predicate GoodTails(pieces: seq<Piece>) {
    forall k | 0 <= k < |pieces| :: GoodTail(pieces[k].tail)
  }

  lemma {:induction false} TrimRightStops(s: string, t: string, p: char -> bool)
    requires t != "" && !p(t[0])
    ensures TrimRight(s + t, p) == s + TrimRight(t, p) && TrimRight(t, p) != "" && TrimRight(t, p)[0] == t[0]
  {
    if p(t[|t| - 1]) {
      assert (s + t)[..|s + t| - 1] == s + t[..|t| - 1];
      TrimRightStops(s, t[..|t| - 1], p);
    }
  }

  /** Without its carriage returns, a line is its body, the padding, and at most a comment. */
  lemma WithoutReturns(body: string, t: Tail) returns (comment: string)
    requires GoodTail(t) && (body != "" ==> !IsReturn(body[|body| - 1]))
    ensures TrimRight(body + t.comment + t.cr, IsReturn) == body + comment
    ensures comment != "" ==> comment[0] == '#'
  {
    TrimRightPad(body + t.comment, t.cr, IsReturn);
    if t.comment == "" {
      comment := "";
      assert body + t.comment == body && body + comment == body;
    } else {
      TrimRightStops(body, t.comment, IsReturn);
      comment := TrimRight(t.comment, IsReturn);
    }
  }

  lemma WithoutComment(body: string, comment: string)
    requires Scan(body, BARE) == Through(BARE) && (comment != "" ==> comment[0] == '#')
    ensures var line := body + comment; line[..CommentAt(line, BARE)] == body
  {
    ScanAppend(body, comment, BARE);
  }

  lemma PaddedScan(b: string, pad: string)
    requires Scan(b, BARE) == Through(BARE) && (forall c :: c in pad ==> IsBlank(c))
    ensures Scan(b + pad, BARE) == Through(BARE)
  {
    ScanBlank(pad);
    ScanAppend(b, pad, BARE);
  }

  lemma PaddedTrim(b: string, pad: string)
    requires forall c :: c in pad ==> IsBlank(c)
    requires b != "" ==> !IsBlank(b[|b| - 1]) && !IsReturn(b[|b| - 1])
    ensures var body := b + pad; TrimRight(body, IsBlank) == b && (body != "" ==> !IsReturn(body[|body| - 1]))
  {
    TrimRightPad(b, pad, IsBlank);
    if pad != "" {
      assert pad[|pad| - 1] in pad;
    } else {
      assert b + pad == b;
    }
  }

  /** Cleaning a source line recovers what was written before its tail. */
  lemma CleanedTail(b: string, t: Tail)
    requires GoodTail(t) && Scan(b, BARE) == Through(BARE)
    requires b != "" ==> !IsBlank(b[|b| - 1]) && !IsReturn(b[|b| - 1])
    ensures Cleaned(b + TailText(t)) == b
  {
    var body := b + t.pad;
    PaddedScan(b, t.pad);
    PaddedTrim(b, t.pad);
    var comment := WithoutReturns(body, t);
    WithoutComment(body, comment);
    Regroup(b, t.pad, t.comment, t.cr);
    CleanedIs(b + TailText(t), body + comment, body, b);
  }

  lemma Regroup(b: string, pad: string, comment: string, cr: string)
    ensures b + (pad + (comment + cr)) == b + pad + comment + cr
  {
  }

  lemma CleanedIs(raw: string, line: string, body: string, b: string)
    requires TrimRight(raw, IsReturn) == line && line[..CommentAt(line, BARE)] == body && TrimRight(body, IsBlank) == b
    ensures Cleaned(raw) == b
  {
  }

  lemma {:induction false} ScanBlank(pad: string)
    requires forall c :: c in pad ==> IsBlank(c)
    ensures Scan(pad, BARE) == Through(BARE)
  {
    ScanPlain(pad, BARE);
  }

  lemma FillerLine(t: Tail, no: nat)
    requires GoodTail(t)
    ensures LinesOf(TailText(t), no) == Ok([])
  {
    CleanedTail("", t);
    assert "" + TailText(t) == TailText(t);
  }

  lemma {:induction false} LeadingSpacesOf(n: nat, content: string)
    requires content != "" && content[0] != ' '
    ensures LeadingSpaces(Spaces(n) + content) == n
  {
    if n > 0 {
      assert (Spaces(n) + content)[1..] == Spaces(n - 1) + content;
      LeadingSpacesOf(n - 1, content);
    } else {
      assert Spaces(0) + content == content;
    }
  }

  lemma ContentLine(l: Line, t: Tail, no: nat)
    requires GoodContent(l.content) && GoodTail(t)
    ensures LinesOf(Spaces(l.indent) + l.content + TailText(t), no) == Ok([RawLine(l.indent, l.content, no)])
  {
    var b := Spaces(l.indent) + l.content;
    ScanBlank(Spaces(l.indent));
    ScanAppend(Spaces(l.indent), l.content, BARE);
    assert b[|b| - 1] == l.content[|l.content| - 1];
    CleanedTail(b, t);
    TrimSpacePad(l.content, Spaces(l.indent));
    LeadingSpacesOf(l.indent, l.content);
    assert b[l.indent..] == l.content && b[l.indent] == l.content[0];
  }

  lemma SkipSource(source: string, rest: seq<string>, no: nat)
    requires LinesOf(source, no) == Ok([])
    ensures Preprocessed([source] + rest, no) == Preprocessed(rest, no + 1)
  {
    assert ([source] + rest)[1..] == rest;
    var r := Preprocessed(rest, no + 1);
    assert r.Ok? ==> [] + r.value == r.value;
  }

  lemma KeepSource(source: string, rest: seq<string>, no: nat, line: RawLine, more: seq<RawLine>)
    requires LinesOf(source, no) == Ok([line]) && Preprocessed(rest, no + 1) == Ok(more)
    ensures Preprocessed([source] + rest, no) == Ok([line] + more)
  {
    assert ([source] + rest)[1..] == rest;
  }

  /** Preprocessing a document yields the tree's lines, and nothing else. */
  lemma {:induction false} SourcesPreprocess(pieces: seq<Piece>, no: nat) returns (lines: seq<RawLine>)
    requires GoodTails(pieces) && GoodLines(LinesIn(pieces), 0)
    ensures Preprocessed(Sources(pieces), no) == Ok(lines)
    ensures Match(lines, LinesIn(pieces))
  {
    if pieces == [] {
      lines := [];
    } else {
      LinesInRest(pieces);
      var more := SourcesPreprocess(pieces[1..], no + 1);
      lines := PiecePreprocess(pieces[0], Sources(pieces[1..]), LinesIn(pieces[1..]), no, more);
    }
  }

  ghost predicate Match(lines: seq<RawLine>, ls: seq<Line>) {
    |lines| == |ls| && forall k :: 0 <= k < |ls| ==> Matches(lines[k], ls[k])
  }

  lemma MatchMore(line: RawLine, more: seq<RawLine>, l: Line, ls: seq<Line>)
    requires Matches(line, l) && Match(more, ls)
    ensures Match([line] + more, [l] + ls)
  {
  }

  lemma PiecePreprocess(p: Piece, rest: seq<string>, ls: seq<Line>, no: nat, more: seq<RawLine>)
    returns (lines: seq<RawLine>)
    requires GoodTail(p.tail) && (p.Content? ==> GoodContent(p.line.content))
    requires Preprocessed(rest, no + 1) == Ok(more) && Match(more, ls)
    ensures Preprocessed([SourceOf(p)] + rest, no) == Ok(lines)
    ensures Match(lines, (if p.Content? then [p.line] else []) + ls)
  {
    if p.Filler? {
      SkipSource(SourceOf(p), rest, no) by { FillerLine(p.tail, no); }
      lines := more;
      assert [] + ls == ls;
    } else {
      var line := RawLine(p.line.indent, p.line.content, no);
      KeepSource(SourceOf(p), rest, no, line, more) by { ContentLine(p.line, p.tail, no); }
      MatchMore(line, more, p.line, ls);
      lines := [line] + more;
    }
  }

  lemma LinesInRest(pieces: seq<Piece>)
    requires pieces != [] && GoodTails(pieces) && GoodLines(LinesIn(pieces), 0)
    ensures GoodTail(pieces[0].tail) && GoodTails(pieces[1..]) && GoodLines(LinesIn(pieces[1..]), 0)
    ensures pieces[0].Content? ==> GoodContent(pieces[0].line.content)
  {
    var ls := LinesIn(pieces);
    if pieces[0].Content? {
      assert ls[0] == pieces[0].line && ls[1..] == LinesIn(pieces[1..]);
    } else {
      assert ls == LinesIn(pieces[1..]);
    }
  }

  lemma SourceOneLine(p: Piece)
    requires GoodTail(p.tail) && (p.Content? ==> GoodContent(p.line.content))
    ensures '\n' !in SourceOf(p)
  {
    assert '\n' !in TailText(p.tail);
  }

  lemma {:induction false} SourcesOneLine(pieces: seq<Piece>)
    requires GoodTails(pieces) && GoodLines(LinesIn(pieces), 0)
    ensures forall k :: 0 <= k < |pieces| ==> '\n' !in Sources(pieces)[k]
  {
    if pieces != [] {
      LinesInRest(pieces);
      SourceOneLine(pieces[0]);
      SourcesOneLine(pieces[1..]);
    }
  }

  /**
    Reading back: whatever the tree, however its lists and blocks are indented, and wherever
    blank lines, comments and carriage returns are put, parsing the document gives the tree. If
    no key repeats, the tree holds exactly the keys that were written, each with its own value;
    and if none repeats in any block at any depth, nothing that was written is lost anywhere.
   */
  lemma RoundTrip(es: Entries, pieces: seq<Piece>)
    requires GoodEntries(es) && GoodTails(pieces) && LinesIn(pieces) == PrintEntries(es, 0) && pieces != []
    ensures ParseDocument(Join(Sources(pieces), '\n')) == Ok(EntriesValue(es, map[]))
    ensures DistinctKeys(es) ==> EntriesValue(es, map[]).Keys == Keys(es)
    ensures DistinctKeys(es) ==>
              forall key, node :: Has(es, key, node) ==>
                                    key in EntriesValue(es, map[]) && EntriesValue(es, map[])[key] == ValueOf(node)
    ensures DistinctKeys(es) && DistinctEntries(es) ==> HoldsExactly(EntriesValue(es, map[]), es)
  {
    AllKept(es);
    ReadBack(es, pieces);
    if DistinctKeys(es) && DistinctEntries(es) {
      EntriesHeld(es);
    }
  }

  lemma AllKept(es: Entries)
    ensures DistinctKeys(es) ==> EntriesValue(es, map[]).Keys == Keys(es)
    ensures DistinctKeys(es) ==>
              forall key, node :: Has(es, key, node) ==>
                                    key in EntriesValue(es, map[]) && EntriesValue(es, map[])[key] == ValueOf(node)
  {
    if DistinctKeys(es) {
      KeysKept(es, map[]);
      forall key, node | Has(es, key, node)
        ensures key in EntriesValue(es, map[]) && EntriesValue(es, map[])[key] == ValueOf(node)
      {
        EntryKept(es, map[], key, node);
      }
    }
  }

  lemma ReadBack(es: Entries, pieces: seq<Piece>)
    requires GoodEntries(es) && GoodTails(pieces) && LinesIn(pieces) == PrintEntries(es, 0) && pieces != []
    ensures ParseDocument(Join(Sources(pieces), '\n')) == Ok(EntriesValue(es, map[]))
  {
    var ls := PrintEntries(es, 0);
    EntriesLines(es, 0);
    SourcesOneLine(pieces);
    SplitJoin(Sources(pieces), '\n');
    var lines := SourcesPreprocess(pieces, 1);
    if es.Entry? {
      EntryHead(es.key, es.node, 0);
      assert Matches(lines[0], ls[0]);
      forall k | 0 <= k < |ls| ensures Matches(lines[0 + k], ls[k]) { }
      EntriesParse(lines, 0, 0, es, map[], |lines|);
    }
  }

  /** Every tree of plain keys and one-line scalars is the value of some document. */
  lemma EveryTreeHasADocument(m: map<string, Value>) returns (pieces: seq<Piece>)
    requires Printable(Mapping(m))
    ensures pieces != [] && ParseDocument(Join(Sources(pieces), '\n')) == Ok(m)
  {
    var node := LayoutExists(Mapping(m));
    var ls := PrintEntries(node.entries, 0);
    pieces := seq(|ls|, k requires 0 <= k < |ls| => Content(ls[k], Tail("", "", "")));
    LinesInPlain(ls, pieces);
    RoundTrip(node.entries, pieces);
  }

  lemma {:induction false} LinesInPlain(ls: seq<Line>, pieces: seq<Piece>)
    requires |ls| == |pieces| && forall k :: 0 <= k < |ls| ==> pieces[k].Content? && pieces[k].line == ls[k]
    ensures LinesIn(pieces) == ls
  {
    if ls != [] {
      LinesInPlain(ls[1..], pieces[1..]);
    }
  }
}
