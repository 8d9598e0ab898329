/** Documents that are accepted although lines of them are lost. */
module YamlLosses {
  import opened Text
  import opened Yaml
  import opened YamlLayout
  import opened YamlDocument
  import opened YamlNesting

  /** The text of unadorned lines. */
  function TextOf(ls: seq<Line>): string
    requires ls != []
  {
    Join(Sources(Plainly(ls)), '\n')
  }

  function Plainly(ls: seq<Line>): (ps: seq<Piece>)
    ensures |ps| == |ls|
  {
    seq(|ls|, k requires 0 <= k < |ls| => Content(ls[k], Tail("", "", "")))
  }

  lemma TextLines(ls: seq<Line>) returns (lines: seq<RawLine>)
    requires ls != [] && GoodLines(ls, 0)
    ensures Preprocessed(Split(TextOf(ls), '\n'), 1) == Ok(lines) && Match(lines, ls)
  {
    var ps := Plainly(ls);
    LinesInPlain(ls, ps);
    SourcesOneLine(ps);
    SplitJoin(Sources(ps), '\n');
    lines := SourcesPreprocess(ps, 1);
  }

  /** A document of one mapping is what its lines parse to. */
  lemma DocumentOf(ls: seq<Line>, lines: seq<RawLine>, m: map<string, Value>, next: nat)
    requires ls != [] && Preprocessed(Split(TextOf(ls), '\n'), 1) == Ok(lines) && Match(lines, ls) && ls[0].indent == 0
    requires ParseEntries(lines, 0, 0, map[]) == Ok(Parsed(Mapping(m), next))
    ensures ParseDocument(TextOf(ls)) == Ok(m)
  {
    assert Matches(lines[0], ls[0]);
  }

  lemma EntriesEnd(lines: seq<RawLine>, n: nat, m: map<string, Value>)
    ensures ParseEntries(lines, |lines|, n, m) == Ok(Parsed(Mapping(m), |lines|))
  {
  }

  lemma KeyLine(key: string, val: string, no: nat)
    requires PlainKey(key) && Writable(val, Plain)
    ensures SplitKeyVal(key + ": " + val, no) == Ok((key, val)) && ParseScalar(val) == val && val != ""
    ensures !IsSeqItem(key + ": " + val) && GoodContent(key + ": " + val)
  {
    GoodWritten(val, Plain);
    SplitInline(key, val, no);
    EntryHead(key, Leaf(val, Plain), 0);
  }

  // ---------------------------------------------------------------- after the top-level mapping

  lemma DeeperLineParsed(lines: seq<RawLine>, key: string, val: string)
    requires PlainKey(key) && Writable(val, Plain)
    requires |lines| >= 2 && Matches(lines[0], Line(0, key + ": " + val)) && lines[1].indent > 0
    ensures ParseEntries(lines, 0, 0, map[]) == Ok(Parsed(Mapping(map[key := Scalar(val)]), 1)) && !ReadWhole(lines)
  {
    KeyLine(key, val, lines[0].lineNo);
    RestLost(lines, key, val);
  }

  lemma ThreeGood(x: Line, y: Line, z: Line)
    requires GoodContent(x.content) && GoodContent(y.content) && GoodContent(z.content)
    ensures GoodLines([x, y, z], 0)
  {
  }

  /** A line further in than the entry before it, and whatever comes then, is lost. */
  lemma DeeperLineLost(key: string, val: string, second: Line, third: Line)
    requires PlainKey(key) && Writable(val, Plain) && second.indent > 0
    requires GoodContent(second.content) && GoodContent(third.content)
    ensures ParseDocument(TextOf([Line(0, key + ": " + val), second, third])) == Ok(map[key := Scalar(val)])
  {
    var first := Line(0, key + ": " + val);
    KeyLine(key, val, 0);
    ThreeGood(first, second, third);
    var ls := [first, second, third];
    var lines := TextLines(ls);
    assert Matches(lines[0], ls[0]) && Matches(lines[1], ls[1]);
    DeeperLineParsed(lines, key, val);
    DocumentOf(ls, lines, map[key := Scalar(val)], 1);
  }

  /** For one: b and c are not in the tree. */
  lemma DeeperLineLostAt(lines: seq<RawLine>)
    requires lines == [RawLine(0, "a" + ": " + "1", 1), RawLine(2, "b: 2", 2), RawLine(0, "c: 3", 3)]
    ensures ParseEntries(lines, 0, 0, map[]) == Ok(Parsed(Mapping(map["a" := Scalar("1")]), 1)) && !ReadWhole(lines)
  {
    DeeperLineParsed(lines, "a", "1");
  }

  // ---------------------------------------------------------------- within an item

  /** The lines of a key with a list of two items, and a line too far in between them. */
  function WithGap(key: string, a: string, val: string, n: nat, line: string, x: string): seq<Line> {
    [Line(0, key + ":"), Line(0, "- " + (a + ": " + val)), Line(n, line), Line(0, "- " + x)]
  }

  ghost predicate GapGood(key: string, a: string, val: string, n: nat, line: string, x: string) {
    && PlainKey(key) && PlainKey(a) && Writable(val, Plain) && n > 2 && GoodContent(line)
    && Writable(x, Plain) && ':' !in x
  }

  lemma GapFirstItem(lines: seq<RawLine>, key: string, a: string, val: string, n: nat, line: string, x: string)
    requires GapGood(key, a, val, n, line, x) && Match(lines, WithGap(key, a, val, n, line, x))
    ensures ParseItem(lines, 1, 0) == Ok(Parsed(Mapping(map[a := Scalar(val)]), 3)) && !ItemTakes(lines, 1, 0)
    ensures IsSeqItem(lines[1].content) && lines[1].indent == 0
  {
    var ls := WithGap(key, a, val, n, line, x);
    assert Matches(lines[1], ls[1]) && Matches(lines[2], ls[2]) && Matches(lines[3], ls[3]);
    KeyLine(a, val, lines[1].lineNo);
    RestOfItem(a + ": " + val);
    assert (a + ": " + val)[|a|] == ':';
    ItemLinesLost(lines, 1, 0, a, val);
    assert BlockEnd(lines, 3, 2) == 3;
  }

  lemma GapSecondItem(lines: seq<RawLine>, key: string, a: string, val: string, n: nat, line: string, x: string)
    requires GapGood(key, a, val, n, line, x) && Match(lines, WithGap(key, a, val, n, line, x))
    ensures ParseItem(lines, 3, 0) == Ok(Parsed(Scalar(x), 4)) && IsSeqItem(lines[3].content) && lines[3].indent == 0
  {
    assert Matches(lines[3], WithGap(key, a, val, n, line, x)[3]);
    GoodWritten(x, Plain);
    RestOfItem(x);
    ItemWithScalar(lines, 3, 0, x);
  }

  lemma GapItems(lines: seq<RawLine>, key: string, a: string, val: string, n: nat, line: string, x: string)
    requires GapGood(key, a, val, n, line, x) && Match(lines, WithGap(key, a, val, n, line, x))
    ensures ParseItems(lines, 1, 0, []) == Ok(Parsed(Sequence([Mapping(map[a := Scalar(val)]), Scalar(x)]), 4))
  {
    var first, second := Mapping(map[a := Scalar(val)]), Scalar(x);
    GapFirstItem(lines, key, a, val, n, line, x);
    GapSecondItem(lines, key, a, val, n, line, x);
    var r := Parsed(Sequence([first, second]), 4);
    assert [] + [first] == [first] && [first] + [second] == [first, second];
    assert ParseItems(lines, 4, 0, [first, second]) == Ok(r);
    ItemsStep(lines, 3, 0, [first], Parsed(second, 4), r);
    ItemsStep(lines, 1, 0, [], Parsed(first, 3), r);
  }

  lemma GapParsed(lines: seq<RawLine>, key: string, a: string, val: string, n: nat, line: string, x: string)
    requires GapGood(key, a, val, n, line, x) && Match(lines, WithGap(key, a, val, n, line, x))
    ensures var v := Sequence([Mapping(map[a := Scalar(val)]), Scalar(x)]);
            ParseEntries(lines, 0, 0, map[]) == Ok(Parsed(Mapping(map[key := v]), 4))
  {
    hide ParseEntries, ParseEntry, ParseItems, ParseItem, SplitKeyVal;
    var v := Sequence([Mapping(map[a := Scalar(val)]), Scalar(x)]);
    GapItems(lines, key, a, val, n, line, x);
    GapFirstItem(lines, key, a, val, n, line, x);
    assert Matches(lines[0], Line(0, key + ":")) by {
      assert WithGap(key, a, val, n, line, x)[0] == Line(0, key + ":");
    }
    SplitBare(key, lines[0].lineNo);
    EntryWithList(lines, 0, 0, 0, key, Parsed(v, 4));
    EntryHead(key, Missing, 0);
    assert map[][key := v] == map[key := v];
    EntriesEnd(lines, 0, map[key := v]);
    EntriesStep(lines, 0, 0, map[], key, Parsed(v, 4), Parsed(Mapping(map[key := v]), 4));
  }

  /** The line in the gap does not reach the tree. */
  lemma GapLost(lines: seq<RawLine>, key: string, a: string, val: string, n: nat, line: string, x: string)
    requires GapGood(key, a, val, n, line, x) && Match(lines, WithGap(key, a, val, n, line, x))
    ensures !ReadWhole(lines)
  {
    GapFirstItem(lines, key, a, val, n, line, x);
    assert Matches(lines[0], WithGap(key, a, val, n, line, x)[0]);
    SplitBare(key, 0);
    EntryHead(key, Missing, 0);
    NotNestedInList(lines, key);
    ReadWholeIff(lines);
  }

  /** A list under a key whose first item does not take in all of its lines. */
  lemma NotNestedInList(lines: seq<RawLine>, key: string)
    requires |lines| >= 2 && lines[0].indent == 0 && !IsSeqItem(lines[0].content)
    requires KindOf(lines[0].content) == BareKey(key)
    requires lines[1].indent == 0 && IsSeqItem(lines[1].content) && !ItemTakes(lines, 1, 0)
    ensures !WellNested(lines)
  {
    hide KindOf, SplitKeyVal, Nested, ItemTakes;
    var o := Over(0, false, {}, Floor);
    var with := Over(0, false, {} + {key}, Floor);
    assert Less(Floor, 1) && Within(with, 0);
    Stays(lines, 0, o);
    Begins(lines, 1, with);
    ItemNests(lines, 1, 0, {}, with);
  }

  /** A line too far in after the first entry of an item is lost inside the item, and the list goes on. */
  lemma ItemLineLost(key: string, a: string, val: string, n: nat, line: string, x: string)
    requires GapGood(key, a, val, n, line, x)
    ensures ParseDocument(TextOf(WithGap(key, a, val, n, line, x))) ==
            Ok(map[key := Sequence([Mapping(map[a := Scalar(val)]), Scalar(x)])])
  {
    var ls := WithGap(key, a, val, n, line, x);
    GapLines(key, a, val, n, line, x);
    var lines := TextLines(ls);
    GapParsed(lines, key, a, val, n, line, x);
    DocumentOf(ls, lines, map[key := Sequence([Mapping(map[a := Scalar(val)]), Scalar(x)])], 4);
  }

  lemma GapLines(key: string, a: string, val: string, n: nat, line: string, x: string)
    requires GapGood(key, a, val, n, line, x)
    ensures GoodLines(WithGap(key, a, val, n, line, x), 0)
  {
    EntryHead(key, Missing, 0);
    assert GoodContent("- " + (a + ": " + val)) by {
      KeyLine(a, val, 0);
      DashConcat(a + ": " + val);
    }
    assert GoodContent("- " + x) by {
      GoodWritten(x, Plain);
      DashConcat(x);
    }
  }

  lemma GapGoodAt()
    ensures GapGood("k", "a", "1", 6, "b" + ": " + "2", "x")
  {
    PlainChar('k');
    PlainChar('a');
    PlainChar('1');
    PlainChar('x');
    PlainChar('b');
    PlainChar('2');
    KeyLine(['b'], ['2'], 0);
  }

  lemma PlainChar(c: char)
    requires 'a' <= c <= 'z' || '0' <= c <= '9'
    ensures PlainKey([c]) && Writable([c], Plain) && ':' !in [c]
  {
    assert !IsSpace(c);
  }

  /** For one, whatever the line numbers: b is not in the tree, and x is. */
  lemma ItemLineLostAt(lines: seq<RawLine>)
    requires Match(lines, WithGap("k", "a", "1", 6, "b" + ": " + "2", "x"))
    ensures var v := Sequence([Mapping(map["a" := Scalar("1")]), Scalar("x")]);
            ParseEntries(lines, 0, 0, map[]) == Ok(Parsed(Mapping(map["k" := v]), 4))
    ensures !ReadWhole(lines)
  {
    GapGoodAt();
    GapParsed(lines, "k", "a", "1", 6, "b" + ": " + "2", "x");
    GapLost(lines, "k", "a", "1", 6, "b" + ": " + "2", "x");
  }

  // ---------------------------------------------------------------- a key given twice

  /** The second entry of the document has the key of the first. */
  lemma RepeatedKey(lines: seq<RawLine>, key: string, p: Parsed<Value>, q: Parsed<Value>)
    requires lines != [] && lines[0].indent == 0 && !IsSeqItem(lines[0].content)
    requires ParseEntry(lines, 0, 0) == Ok((key, p)) && p.next < |lines|
    requires lines[p.next].indent == 0 && !IsSeqItem(lines[p.next].content)
    requires ParseEntry(lines, p.next, 0) == Ok((key, q))
    ensures !ReadWhole(lines)
  {
    hide KindOf, SplitKeyVal, Nested, EntryTakes, ParseEntry;
    EntryNests(lines, 0, 0, {}, Floor);
    EntryNests(lines, p.next, 0, {} + {key}, Floor);
    ReadWholeIff(lines);
  }

  /** The later value takes the place of the earlier one. */
  lemma TwiceParsed(lines: seq<RawLine>, key: string, p: Parsed<Value>, q: Parsed<Value>)
    requires lines != [] && lines[0].indent == 0 && !IsSeqItem(lines[0].content)
    requires ParseEntry(lines, 0, 0) == Ok((key, p)) && p.next < |lines|
    requires lines[p.next].indent == 0 && !IsSeqItem(lines[p.next].content)
    requires ParseEntry(lines, p.next, 0) == Ok((key, q)) && q.next == |lines|
    ensures ParseEntries(lines, 0, 0, map[]) == Ok(Parsed(Mapping(map[key := q.value]), |lines|)) && !ReadWhole(lines)
  {
    hide KindOf, SplitKeyVal, ParseEntry, ReadWhole;
    var first, both := map[][key := p.value], map[][key := p.value][key := q.value];
    assert both == map[key := q.value];
    var r := Parsed(Mapping(both), |lines|);
    EntriesEnd(lines, 0, both);
    EntriesStep(lines, p.next, 0, first, key, q, r);
    EntriesStep(lines, 0, 0, map[], key, p, r);
    RepeatedKey(lines, key, p, q);
  }

  lemma RepeatedKeyParsed(lines: seq<RawLine>, key: string, v: string, w: string)
    requires PlainKey(key) && Writable(v, Plain) && Writable(w, Plain)
    requires Match(lines, [Line(0, key + ": " + v), Line(0, key + ": " + w)])
    ensures ParseEntries(lines, 0, 0, map[]) == Ok(Parsed(Mapping(map[key := Scalar(w)]), 2)) && !ReadWhole(lines)
  {
    var ls := [Line(0, key + ": " + v), Line(0, key + ": " + w)];
    assert Matches(lines[0], ls[0]) && Matches(lines[1], ls[1]);
    KeyLine(key, v, lines[0].lineNo);
    KeyLine(key, w, lines[1].lineNo);
    EntryWithScalar(lines, 0, 0, key, v);
    EntryWithScalar(lines, 1, 0, key, w);
    TwiceParsed(lines, key, Parsed(Scalar(v), 1), Parsed(Scalar(w), 2));
  }

  /** A document that gives one key two values is accepted with the second alone. */
  lemma RepeatedKeyLost(key: string, v: string, w: string)
    requires PlainKey(key) && Writable(v, Plain) && Writable(w, Plain)
    ensures ParseDocument(TextOf([Line(0, key + ": " + v), Line(0, key + ": " + w)])) == Ok(map[key := Scalar(w)])
  {
    hide ParseDocument, ParseEntries, Preprocessed, SplitKeyVal, GoodContent, Split, TextOf, ReadWhole;
    var ls := [Line(0, key + ": " + v), Line(0, key + ": " + w)];
    KeyLine(key, v, 0);
    KeyLine(key, w, 0);
    var lines := TextLines(ls);
    RepeatedKeyParsed(lines, key, v, w);
    DocumentOf(ls, lines, map[key := Scalar(w)], 2);
  }

  /** For one: a: 1 is not in the tree. */
  lemma RepeatedKeyLostAt(lines: seq<RawLine>)
    requires Match(lines, [Line(0, "a" + ": " + "1"), Line(0, "a" + ": " + "2")])
    ensures ParseEntries(lines, 0, 0, map[]) == Ok(Parsed(Mapping(map["a" := Scalar("2")]), 2)) && !ReadWhole(lines)
  {
    PlainChar('a');
    PlainChar('1');
    PlainChar('2');
    RepeatedKeyParsed(lines, ['a'], ['1'], ['2']);
  }

  /** The same key over two blocks. */
  function TwoBlocks(key: string, n: nat, a: string, v: string, b: string, w: string): seq<Line> {
    [Line(0, key + ":"), Line(n, a + ": " + v), Line(0, key + ":"), Line(n, b + ": " + w)]
  }

  lemma BlockOfOne(lines: seq<RawLine>, i: nat, n: nat, key: string, a: string, v: string)
    requires PlainKey(key) && PlainKey(a) && Writable(v, Plain) && n > 0
    requires i + 1 < |lines| && Matches(lines[i], Line(0, key + ":")) && Matches(lines[i + 1], Line(n, a + ": " + v))
    requires i + 2 < |lines| ==> lines[i + 2].indent == 0
    ensures ParseEntry(lines, i, 0) == Ok((key, Parsed(Mapping(map[a := Scalar(v)]), i + 2)))
    ensures !IsSeqItem(lines[i].content)
  {
    SplitBare(key, lines[i].lineNo);
    EntryHead(key, Missing, 0);
    KeyLine(a, v, lines[i + 1].lineNo);
    EntryWithScalar(lines, i + 1, n, a, v);
    BlockEnds(lines, i + 2, n, map[][a := Scalar(v)]);
    assert map[][a := Scalar(v)] == map[a := Scalar(v)];
    EntriesStep(lines, i + 1, n, map[], a, Parsed(Scalar(v), i + 2), Parsed(Mapping(map[a := Scalar(v)]), i + 2));
    EntryWithBlock(lines, i, 0, n, key, Parsed(Mapping(map[a := Scalar(v)]), i + 2));
  }

  lemma BlockEnds(lines: seq<RawLine>, i: nat, n: nat, m: map<string, Value>)
    requires i <= |lines| && (i < |lines| ==> lines[i].indent != n)
    ensures ParseEntries(lines, i, n, m) == Ok(Parsed(Mapping(m), i))
  {
  }

  /** The whole block of the first is lost. */
  lemma RepeatedBlockLost(lines: seq<RawLine>, key: string, n: nat, a: string, v: string, b: string, w: string)
    requires PlainKey(key) && PlainKey(a) && PlainKey(b) && Writable(v, Plain) && Writable(w, Plain) && n > 0
    requires Match(lines, TwoBlocks(key, n, a, v, b, w))
    ensures ParseEntries(lines, 0, 0, map[]) == Ok(Parsed(Mapping(map[key := Mapping(map[b := Scalar(w)])]), 4))
    ensures !ReadWhole(lines)
  {
    hide ParseEntries, ParseEntry, SplitKeyVal, ReadWhole;
    var ls := TwoBlocks(key, n, a, v, b, w);
    assert Matches(lines[0], ls[0]) && Matches(lines[1], ls[1]) && Matches(lines[2], ls[2]) && Matches(lines[3], ls[3]);
    BlockOfOne(lines, 0, n, key, a, v);
    BlockOfOne(lines, 2, n, key, b, w);
    TwiceParsed(lines, key, Parsed(Mapping(map[a := Scalar(v)]), 2), Parsed(Mapping(map[b := Scalar(w)]), 4));
  }
}
