/** The documents the parser rejects, by their text, and the error each is rejected with. */
module YamlRejections {
  import opened Backend
  import opened Text
  import opened Yaml
  import opened YamlFaults
  import opened YamlLayout
  import opened YamlDocument
  import YamlNesting

  // ---------------------------------------------------------------- source lines

  /** Nothing but spaces before the comment. */
  ghost predicate Empty(source: string) {
    forall k :: 0 <= k < CommentAt(source, BARE) ==> IsSpace(source[k])
  }

  /** The line says something, and a tab follows the spaces it begins with. */
  ghost predicate TabIndented(source: string) {
    !Empty(source) && exists n: nat :: n < |source| && source[n] == '\t' && forall j :: 0 <= j < n ==> source[j] == ' '
  }

  /** Carriage returns at the end do not move the comment. */
  lemma {:induction false} CommentBeforeReturns(s: string, k: nat, q: Quoting)
    requires k <= |s| && forall j :: k <= j < |s| ==> s[j] == '\r'
    ensures CommentAt(s[..k], q) == if CommentAt(s, q) < k then CommentAt(s, q) else k
    ensures CommentAt(s, q) >= k ==> CommentAt(s, q) == |s|
    decreases |s|
  {
    if s != [] && !(s[0] == '#' && q.Bare()) {
      if k > 0 {
        assert s[..k][1..] == s[1..][..k - 1];
        CommentBeforeReturns(s[1..], k - 1, q.Next(s[0]));
      } else {
        assert s[..0] == [] && s[1..][..0] == [];
        CommentBeforeReturns(s[1..], 0, q.Next(s[0]));
      }
    }
  }

  /** The cleaned line is the source line up to its last character before the comment that is no blank. */
  lemma CleanedAt(source: string) returns (t: nat)
    ensures t <= CommentAt(source, BARE) && Cleaned(source) == source[..t]
    ensures t > 0 ==> !IsBlank(source[t - 1])
    ensures forall j :: t <= j < CommentAt(source, BARE) ==> IsBlank(source[j]) || source[j] == '\r'
  {
    var r := TrimRightAt(source, IsReturn);
    CommentBeforeReturns(source, r, BARE);
    var c := CommentAt(source[..r], BARE);
    assert source[..r][..c] == source[..c];
    t := TrimRightAt(source[..c], IsBlank);
    assert source[..c][..t] == source[..t];
    assert forall j :: 0 <= j < c ==> source[..c][j] == source[j];
  }

  lemma BlanksAreSpaces(c: char)
    ensures IsBlank(c) || c == '\r' ==> IsSpace(c)
  {
  }

  lemma EmptyIff(source: string, t: nat)
    requires t <= CommentAt(source, BARE)
    requires forall j :: t <= j < CommentAt(source, BARE) ==> IsBlank(source[j]) || source[j] == '\r'
    ensures Empty(source) <==> All(source[..t], IsSpace)
  {
    assert forall j :: 0 <= j < t ==> source[..t][j] == source[j];
    forall j | t <= j < CommentAt(source, BARE)
      ensures IsSpace(source[j])
    {
      BlanksAreSpaces(source[j]);
    }
  }

  lemma {:induction false} SpacesLead(s: string)
    ensures forall j :: 0 <= j < LeadingSpaces(s) ==> s[j] == ' '
    ensures LeadingSpaces(s) < |s| ==> s[LeadingSpaces(s)] != ' '
  {
    if s != [] && s[0] == ' ' {
      SpacesLead(s[1..]);
      assert forall j :: 0 < j < |s| ==> s[j] == s[1..][j - 1];
    }
  }

  /** What a source line contributes. */
  ghost predicate Gives(source: string, no: nat, l: RawLine) {
    && l.lineNo == no && l.content != "" && l.indent + |l.content| <= CommentAt(source, BARE)
    && l.content == source[l.indent..l.indent + |l.content|]
    && (forall j :: 0 <= j < l.indent ==> source[j] == ' ') && source[l.indent] != ' '
    && !IsBlank(source[l.indent + |l.content| - 1])
    && forall j :: l.indent + |l.content| <= j < CommentAt(source, BARE) ==> IsBlank(source[j]) || source[j] == '\r'
  }

  /** A line that says something: where it begins, and whether with a tab. */
  lemma LineBegins(source: string, t: nat)
    requires t <= |source| && !All(source[..t], IsSpace)
    ensures var n := LeadingSpaces(source[..t]);
            && n < t && (forall j :: 0 <= j < n ==> source[j] == ' ') && source[n] != ' '
            && (source[n] == '\t' <==>
                exists k: nat :: k < |source| && source[k] == '\t' && forall j :: 0 <= j < k ==> source[j] == ' ')
  {
    assert IsSpace(' ');
    hide IsSpace;
    var trimmed := source[..t];
    SpacesLead(trimmed);
    assert forall j :: 0 <= j < t ==> trimmed[j] == source[j];
  }

  lemma LineSaid(source: string, t: nat, no: nat)
    requires t <= CommentAt(source, BARE) && !All(source[..t], IsSpace)
    requires forall j :: t <= j < CommentAt(source, BARE) ==> IsBlank(source[j]) || source[j] == '\r'
    requires t > 0 ==> !IsBlank(source[t - 1])
    requires LeadingSpaces(source[..t]) < t && source[LeadingSpaces(source[..t])] != '\t'
    ensures var n := LeadingSpaces(source[..t]);
            && Indentation(source[..t]) == Some((n, source[n..t])) && TrimRight(source[n..t], IsBlank) == source[n..t]
            && Gives(source, no, RawLine(n, source[n..t], no))
  {
    LineBegins(source, t);
    hide IsSpace, IsBlank, LeadingSpaces;
    var n := LeadingSpaces(source[..t]);
    assert source[..t][n..] == source[n..t];
    var k := TrimRightAt(source[n..t], IsBlank);
    assert source[n..t][t - n - 1] == source[t - 1];
  }

  /** A source line is an error, nothing, or a line, and which is told by its text. */
  lemma LineByText(source: string, no: nat)
    ensures LinesOf(source, no) == Err(TabIndent(no)) <==> TabIndented(source)
    ensures LinesOf(source, no) == Ok([]) <==> Empty(source)
    ensures !TabIndented(source) && !Empty(source) ==>
              exists l :: LinesOf(source, no) == Ok([l]) && Gives(source, no, l)
  {
    hide IsSpace, IsBlank, Cleaned, Gives, TrimRight, TrimSpace, CommentAt, LeadingSpaces;
    var t := CleanedAt(source);
    EmptyIff(source, t);
    TrimSpaceNothing(Cleaned(source));
    if !Empty(source) {
      LineBegins(source, t);
      if source[LeadingSpaces(source[..t])] != '\t' {
        LineSaid(source, t, no);
      }
    }
  }

  // ---------------------------------------------------------------- the lines of a document

  /** The number of the first line indented with a tab. */
  ghost function FirstTab(sources: seq<string>, no: nat): Option<nat> {
    if sources == [] then None else if TabIndented(sources[0]) then Some(no) else FirstTab(sources[1..], no + 1)
  }

  /** The number of the first line that says something, and whether it begins with a space. */
  ghost function FirstSaying(sources: seq<string>, no: nat): Option<(nat, bool)> {
    if sources == [] then None
    else if Empty(sources[0]) then FirstSaying(sources[1..], no + 1)
    else Some((no, sources[0][0] == ' '))
  }

  /** Preprocessing fails exactly if a line is indented with a tab, at the first such line. */
  lemma {:induction false} TabsRefused(sources: seq<string>, no: nat)
    ensures Preprocessed(sources, no).Ok? <==> FirstTab(sources, no) == None
    ensures Preprocessed(sources, no).Err? ==>
              FirstTab(sources, no).Some? && Preprocessed(sources, no).error == TabIndent(FirstTab(sources, no).value)
  {
    if sources != [] {
      hide TabIndented, Empty, LinesOf, Gives;
      LineByText(sources[0], no);
      TabsRefused(sources[1..], no + 1);
    }
  }

  /** The first line there is. */
  lemma {:induction false} FirstLine(sources: seq<string>, no: nat, lines: seq<RawLine>)
    requires Preprocessed(sources, no) == Ok(lines)
    ensures lines == [] <==> FirstSaying(sources, no) == None
    ensures lines != [] ==> FirstSaying(sources, no) == Some((lines[0].lineNo, lines[0].indent > 0))
  {
    if sources != [] {
      hide TabIndented, LinesOf;
      LineByText(sources[0], no);
      var rest := Preprocessed(sources[1..], no + 1).value;
      FirstLine(sources[1..], no + 1, rest);
    }
  }

  // ---------------------------------------------------------------- exactly the documents that are rejected

  const DOCUMENT := Frame(0, false, true, Ground)

  /** The document is wrong in this way, and not in one that comes before. */
  ghost predicate Wrong(sources: seq<string>, e: Error) {
    match e
    case TabIndent(no) => FirstTab(sources, 1) == Some(no)
    case TopLevelIndent(no) => FirstTab(sources, 1) == None && FirstSaying(sources, 1) == Some((no, true))
    case _ =>
      && Preprocessed(sources, 1).Ok? && (FirstSaying(sources, 1).Some? && !FirstSaying(sources, 1).value.1)
      && FirstFault(Preprocessed(sources, 1).value, 0, DOCUMENT, false) == Some(e)
  }

  /** The scan finds nothing else to complain about. */
  lemma {:induction false} ScanErrors(lines: seq<RawLine>, i: nat, f: Frames, expects: bool)
    requires i <= |lines|
    ensures var e := FirstFault(lines, i, f, expects); e.Some? ==> e.value.NotAMapping? || e.value.EmptyKey?
    decreases |lines| - i
  {
    if i < |lines| {
      var l := lines[i];
      var s := Settle(f, expects, l.indent, Dashed(l.content));
      match s
      case Lost =>
      case Skip(n, under) => ScanErrors(lines, BlockEnd(lines, i, n), under, false);
      case In(g) =>
        if !Dashed(l.content) {
          ScanErrors(lines, i + 1, g, NothingAfterColon(l.content));
        } else {
          var n, rest := l.indent + 2, TrimSpace(l.content[1..]);
          ScanErrors(lines, i + 1, g, rest == "");
          ScanErrors(lines, BlockEnd(lines, i + 1, n), g, false);
          ScanErrors(lines, i + 1, Frame(n, false, true, g), NothingAfterColon(rest));
        }
    }
  }

  /**
    A document is rejected with an error if and only if it is wrong in that way: first the lines
    indented with a tab, then a first line that begins with a space, then the first line that the
    scan finds to have no colon, or nothing but spaces before it.
   */
  lemma RejectedIff(data: string, e: Error)
    ensures ParseDocument(data) == Err(e) <==> Wrong(Split(data, '\n'), e)
  {
    hide FirstFault, ParseEntries, FirstTab, FirstSaying, Preprocessed, Split;
    var sources := Split(data, '\n');
    TabsRefused(sources, 1);
    if Preprocessed(sources, 1).Ok? {
      var lines := Preprocessed(sources, 1).value;
      FirstLine(sources, 1, lines);
      BlockScan(lines, 0);
      ScanErrors(lines, 0, DOCUMENT, false);
    }
  }

  // ---------------------------------------------------------------- some that are

  lemma {:induction false} OneMoreSource(sources: seq<string>, x: string, no: nat)
    ensures Preprocessed(sources + [x], no) == Append(Preprocessed(sources, no), LinesOf(x, no + |sources|))
  {
    if sources == [] {
      assert [] + [x] == [x] && [x][1..] == [];
      AppendNone(LinesOf(x, no));
    } else {
      assert (sources + [x])[1..] == sources[1..] + [x];
      OneMoreSource(sources[1..], x, no + 1);
      AppendAssociative(LinesOf(sources[0], no), Preprocessed(sources[1..], no + 1), LinesOf(x, no + |sources|));
    }
  }

  lemma AppendNone(r: Result<seq<RawLine>>)
    ensures Append(r, Ok([])) == r == Append(Ok([]), r)
  {
    if r.Ok? {
      assert r.value + [] == r.value == [] + r.value;
    }
  }

  lemma {:induction false} OneMorePiece(pieces: seq<Piece>, p: Piece)
    ensures Sources(pieces + [p]) == Sources(pieces) + [SourceOf(p)]
  {
    if pieces != [] {
      assert (pieces + [p])[1..] == pieces[1..] + [p];
      OneMorePiece(pieces[1..], p);
    }
  }

  lemma BadLineAdded(front: seq<Piece>, bad: Piece, lines: seq<RawLine>)
    requires GoodTail(bad.tail) && bad.Content? && bad.line.indent == 0 && GoodContent(bad.line.content)
    requires Preprocessed(Sources(front), 1) == Ok(lines)
    ensures Preprocessed(Sources(front + [bad]), 1) == Ok(lines + [RawLine(0, bad.line.content, |front| + 1)])
  {
    hide GoodContent, GoodTail, Preprocessed, LinesOf, Sources, Spaces, TailText;
    OneMorePiece(front, bad);
    OneMoreSource(Sources(front), SourceOf(bad), 1);
    ContentLine(bad.line, bad.tail, |front| + 1);
  }

  /**
    However a tree is laid out, one more line at the margin that has no colon makes the document an
    error, with the number of that line.
   */
  lemma BadLineRejected(es: Entries, front: seq<Piece>, bad: Piece)
    requires GoodEntries(es) && GoodTails(front) && LinesIn(front) == PrintEntries(es, 0)
    requires GoodTail(bad.tail) && bad.Content? && bad.line.indent == 0 && GoodContent(bad.line.content)
    requires ':' !in bad.line.content && !IsSeqItem(bad.line.content)
    ensures ParseDocument(Join(Sources(front + [bad]), '\n')) == Err(NotAMapping(|front| + 1))
  {
    hide GoodContent, GoodTail, Preprocessed, Sources, ParseEntries, PrintEntries, LinesIn, Split, Join;
    EntriesLines(es, 0);
    var was := SourcesPreprocess(front, 1);
    BadLineAdded(front, bad, was);
    var last := RawLine(0, bad.line.content, |front| + 1);
    var lines := was + [last];
    assert Preprocessed(Split(Join(Sources(front + [bad]), '\n'), '\n'), 1) == Ok(lines) by {
      OneMorePiece(front, bad);
      SourcesOneLine(front);
      SourceOneLine(bad);
      SplitJoin(Sources(front + [bad]), '\n');
    }
    assert lines[0].indent == 0 && ParseEntries(lines, 0, 0, map[]) == Err(NotAMapping(last.lineNo)) by {
      BadLineParsed(es, lines, was, last);
    }
  }

  lemma BadLineParsed(es: Entries, lines: seq<RawLine>, was: seq<RawLine>, last: RawLine)
    requires GoodEntries(es) && Match(was, PrintEntries(es, 0)) && lines == was + [last]
    requires last.indent == 0 && ':' !in last.content && !IsSeqItem(last.content)
    ensures lines[0].indent == 0 && ParseEntries(lines, 0, 0, map[]) == Err(NotAMapping(last.lineNo))
  {
    var ls := PrintEntries(es, 0);
    assert forall k :: 0 <= k < |ls| ==> Matches(lines[k], ls[k]);
    EntriesGoOn(lines, 0, 0, es, map[], |ls|);
    SplitFault(last.content, last.lineNo);
    if es.Entry? {
      EntryHead(es.key, es.node, 0);
      assert Matches(lines[0], ls[0]);
    }
  }

  lemma {:induction false} NestedUnbroken(
    ss: seq<YamlNesting.Shape>, i: nat, o: YamlNesting.Open, expects: bool, j: nat)
    requires i <= j < |ss| && YamlNesting.Nested(ss, i, o, expects)
    ensures !ss[j].kind.Broken?
    decreases j - i
  {
    if i < j {
      NestedUnbroken(ss, i + 1, YamlNesting.Next(o, expects, ss[i]).value, YamlNesting.Expects(ss[i].kind), j);
    }
  }

  /** In a document that is read whole, every line without a dash has a colon, and a key before it. */
  lemma WholeHasKeys(lines: seq<RawLine>, j: nat)
    requires YamlNesting.ReadWhole(lines) && j < |lines| && !Dashed(lines[j].content)
    ensures ':' in lines[j].content && !SpacesBeforeColon(lines[j].content)
  {
    YamlNesting.ReadWholeIff(lines);
    var start := YamlNesting.Over(0, false, {}, YamlNesting.Floor);
    NestedUnbroken(YamlNesting.Shapes(lines), 0, start, false, j);
    SplitFault(lines[j].content, 0);
  }
}
