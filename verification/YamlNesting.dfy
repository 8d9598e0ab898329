/**
  Which documents the parser reads whole. The recursive descent never complains about a line it
  cannot place: a block simply ends there, and the line, often with all that follow, is dropped. Nor
  does it complain about a key that was there already: the later value takes the place of the earlier
  one. Here the tree is measured against the lines it was read from, and the documents of which
  nothing is lost are characterised by the indentation, kind and key of their lines.
 */
module YamlNesting {
  import opened Backend
  import opened Text
  import opened Yaml
  import opened YamlNodes

  // ---------------------------------------------------------------- lines

  /** What a line is; a dash may have nothing, a scalar or a first entry behind it. */
  datatype Kind =
    | BareKey(key: string)
    | KeyValue(key: string)
    | BareDash
    | DashScalar
    | DashEntry(key: string, bare: bool)
    | Broken

  function KindOf(content: string): Kind {
    if !IsSeqItem(content) then
      match SplitKeyVal(content, 0)
      case Err(_) => Broken
      case Ok((key, val)) => if val == "" then BareKey(key) else KeyValue(key)
    else
      var rest := ItemRest(content);
      if rest == "" then BareDash
      else if !LooksLikeMapEntry(rest) then DashScalar
      else
        match SplitKeyVal(rest, 0)
        case Err(_) => Broken
        case Ok((key, val)) => if IsSeqItem(rest) then Broken else DashEntry(key, val == "")
  }

  predicate IsDash(k: Kind) {
    k.BareDash? || k.DashScalar? || k.DashEntry?
  }

  /** A line whose value is on the lines that follow, if it has one. */
  predicate Expects(k: Kind) {
    k.BareKey? || k.BareDash? || (k.DashEntry? && k.bare)
  }

  /** All that is looked at. */
  datatype Shape = Shape(indent: nat, kind: Kind)

  function Shapes(lines: seq<RawLine>): (ss: seq<Shape>)
    ensures |ss| == |lines|
    ensures forall i :: 0 <= i < |ss| ==> ss[i] == Shape(lines[i].indent, KindOf(lines[i].content))
  {
    seq(|lines|, i requires 0 <= i < |lines| => Shape(lines[i].indent, KindOf(lines[i].content)))
  }

  // ---------------------------------------------------------------- what the lines are worth

  /** An entry or an item; a dash with an entry behind it is both, and so is one with a broken entry. */
  function LineWorth(k: Kind): nat {
    if k.DashEntry? || k.Broken? then 2 else 1
  }

  function Worth(ss: seq<Shape>, i: nat, j: nat): nat
    requires i <= j <= |ss|
    decreases j - i
  {
    if i == j then 0 else LineWorth(ss[i].kind) + Worth(ss, i + 1, j)
  }

  lemma {:induction false} WorthSplit(ss: seq<Shape>, i: nat, j: nat, k: nat)
    requires i <= j <= k <= |ss|
    ensures Worth(ss, i, k) == Worth(ss, i, j) + Worth(ss, j, k)
    ensures j < k ==> Worth(ss, j, k) > 0
    decreases j - i
  {
    if i < j {
      WorthSplit(ss, i + 1, j, k);
    }
  }

  lemma {:induction false} WorthSlice(ss: seq<Shape>, i: nat, j: nat, sub: seq<Shape>, k: nat)
    requires i <= j <= |ss| && k <= |sub| && sub[k..] == ss[i..j]
    ensures Worth(ss, i, j) == Worth(sub, k, |sub|)
    decreases j - i
  {
    if i < j {
      assert sub[k] == sub[k..][0] && ss[i] == ss[i..j][0];
      assert sub[k + 1..] == sub[k..][1..] && ss[i + 1..j] == ss[i..j][1..];
      WorthSlice(ss, i + 1, j, sub, k + 1);
    }
  }

  /** The lines parse as one block at that indentation, and all they hold is in the tree. */
  ghost predicate BlockRead(lines: seq<RawLine>, indent: nat) {
    var r := ParseEntries(lines, 0, indent, map[]);
    r.Ok? && Nodes(r.value.value) == Worth(Shapes(lines), 0, |lines|)
  }

  /** The document is accepted, and its tree has every entry and every item that its lines hold. */
  ghost predicate ReadWhole(lines: seq<RawLine>) {
    lines == [] || (lines[0].indent == 0 && BlockRead(lines, 0))
  }

  // ---------------------------------------------------------------- proper nesting

  /** The open blocks, innermost first; a mapping with the keys it has so far. */
  datatype Open = Floor | Over(indent: nat, list: bool, keys: set<string>, under: Open)

  /** Closes blocks until the one the line belongs to. */
  function Close(o: Open, indent: nat, list: bool): Option<Open> {
    match o
    case Floor => None
    case Over(n, l, _, under) => if n == indent && l == list then Some(o) else Close(under, indent, list)
  }

  /** The blocks open where the line stands: with a new one if one is expected here, or as far as one that is open. */
  function Place(o: Open, expects: bool, indent: nat, list: bool): Option<Open> {
    if expects && o.Over? && (indent > o.indent || (indent == o.indent && list && !o.list)) then
      Some(Over(indent, list, {}, o))
    else Close(o, indent, list)
  }

  /**
    The blocks open after the line: a mapping takes a key it does not have yet, and the mapping of an
    entry behind a dash is open two columns further in.
   */
  function Enter(o: Open, indent: nat, k: Kind): Option<Open> {
    match k
    case BareKey(key) => if o.Over? && key !in o.keys then Some(o.(keys := o.keys + {key})) else None
    case KeyValue(key) => if o.Over? && key !in o.keys then Some(o.(keys := o.keys + {key})) else None
    case DashEntry(key, _) => Some(Over(indent + 2, false, {key}, o))
    case Broken => None
    case _ => Some(o)
  }

  function Next(o: Open, expects: bool, s: Shape): Option<Open> {
    var p := Place(o, expects, s.indent, IsDash(s.kind));
    if p.None? then None else Enter(p.value, s.indent, s.kind)
  }

  /** From line i on, every line has its place, and no mapping gets a key twice. */
  predicate Nested(ss: seq<Shape>, i: nat, o: Open, expects: bool)
    requires i <= |ss|
    decreases |ss| - i
  {
    i == |ss| ||
    (Next(o, expects, ss[i]).Some? && Nested(ss, i + 1, Next(o, expects, ss[i]).value, Expects(ss[i].kind)))
  }

  /** Properly nested, within a mapping at the left margin. */
  predicate WellNested(lines: seq<RawLine>) {
    lines == [] || (lines[0].indent == 0 && Nested(Shapes(lines), 0, Over(0, false, {}, Floor), false))
  }

  // ---------------------------------------------------------------- the tree never holds more than the lines

  ghost predicate AtMost(r: Result<Parsed<Value>>, base: nat, lines: seq<RawLine>, i: nat) {
    r.Ok? && i <= r.value.next <= |lines| ==> Nodes(r.value.value) <= base + Worth(Shapes(lines), i, r.value.next)
  }

  lemma SameSplit(content: string, a: nat, b: nat)
    ensures SplitKeyVal(content, a).Ok? <==> SplitKeyVal(content, b).Ok?
    ensures SplitKeyVal(content, a).Ok? ==> SplitKeyVal(content, a) == SplitKeyVal(content, b)
  {
  }

  lemma {:induction false} ValueAtMost(lines: seq<RawLine>, i: nat, indent: nat)
    requires i < |lines|
    ensures AtMost(ParseValueAt(lines, i, indent), 0, lines, i)
    decreases Weight(lines, i), 2
  {
    NodesEmpty();
    if IsSeqItem(lines[i].content) {
      ItemsAtMost(lines, i, indent, []);
    } else {
      EntriesAtMost(lines, i, indent, map[]);
    }
  }

  lemma {:induction false} EntryAtMost(lines: seq<RawLine>, i: nat, indent: nat)
    requires i < |lines| && ParseEntry(lines, i, indent).Ok?
    ensures var p := ParseEntry(lines, i, indent).value.1; 1 + Nodes(p.value) <= Worth(Shapes(lines), i, p.next)
    decreases Weight(lines, i), 0
  {
    NodesEmpty();
    if i + 1 < |lines| {
      ValueAtMost(lines, i + 1, lines[i + 1].indent);
      ItemsAtMost(lines, i + 1, indent, []);
    }
  }

  lemma {:induction false} EntriesAtMost(lines: seq<RawLine>, i: nat, indent: nat, m: map<string, Value>)
    requires i <= |lines|
    ensures AtMost(ParseEntries(lines, i, indent, m), Nodes(Mapping(m)), lines, i)
    decreases Weight(lines, i), 1
  {
    if i < |lines| && lines[i].indent == indent && !IsSeqItem(lines[i].content) && ParseEntry(lines, i, indent).Ok? {
      var (key, p) := ParseEntry(lines, i, indent).value;
      EntryAtMost(lines, i, indent);
      WeightDecreases(lines, i, p.next);
      NodesPut(m, key, p.value);
      EntriesAtMost(lines, p.next, indent, m[key := p.value]);
      var r := ParseEntries(lines, p.next, indent, m[key := p.value]);
      if r.Ok? {
        WorthSplit(Shapes(lines), i, p.next, r.value.next);
      }
    }
  }

  lemma {:induction false} ItemAtMost(lines: seq<RawLine>, i: nat, indent: nat)
    requires i < |lines| && IsSeqItem(lines[i].content) && ParseItem(lines, i, indent).Ok?
    ensures var p := ParseItem(lines, i, indent).value; 1 + Nodes(p.value) <= Worth(Shapes(lines), i, p.next)
    decreases Weight(lines, i), 0
  {
    var rest := ItemRest(lines[i].content);
    if rest == "" {
      if i + 1 < |lines| {
        ValueAtMost(lines, i + 1, lines[i + 1].indent);
      }
    } else if LooksLikeMapEntry(rest) {
      var sub := ItemBlock(lines, i, indent);
      EntriesAtMost(sub, 0, indent + 2, map[]);
      BlockAtMost(sub, indent + 2);
      DashEntryWorth(lines, i, indent);
    }
  }

  lemma {:induction false} ItemsAtMost(lines: seq<RawLine>, i: nat, indent: nat, acc: seq<Value>)
    requires i <= |lines|
    ensures AtMost(ParseItems(lines, i, indent, acc), Nodes(Sequence(acc)), lines, i)
    decreases Weight(lines, i), 1
  {
    if i < |lines| && lines[i].indent == indent && IsSeqItem(lines[i].content) && ParseItem(lines, i, indent).Ok? {
      var p := ParseItem(lines, i, indent).value;
      ItemAtMost(lines, i, indent);
      WeightDecreases(lines, i, p.next);
      NodesAppend(acc, p.value);
      ItemsAtMost(lines, p.next, indent, acc + [p.value]);
      var r := ParseItems(lines, p.next, indent, acc + [p.value]);
      if r.Ok? {
        WorthSplit(Shapes(lines), i, p.next, r.value.next);
      }
    }
  }

  /** A block holds at most what all its lines are worth, and that much only if it goes on to the last. */
  lemma BlockAtMost(sub: seq<RawLine>, n: nat)
    requires AtMost(ParseEntries(sub, 0, n, map[]), Nodes(Mapping(map[])), sub, 0)
    ensures var r := ParseEntries(sub, 0, n, map[]);
            r.Ok? ==>
              && Nodes(r.value.value) <= Worth(Shapes(sub), 0, |sub|)
              && (Nodes(r.value.value) == Worth(Shapes(sub), 0, |sub|) ==> r.value.next == |sub|)
  {
    NodesEmpty();
    var r := ParseEntries(sub, 0, n, map[]);
    if r.Ok? {
      WorthSplit(Shapes(sub), 0, r.value.next, |sub|);
    }
  }

  // ---------------------------------------------------------------- a dash with an entry behind it

  /** Uncovered, a dash with an entry is that entry; a broken line does not start a mapping. */
  predicate Uncovered(dash: Kind, entry: Kind) {
    match dash
    case DashEntry(key, bare) => entry == if bare then BareKey(key) else KeyValue(key)
    case Broken => entry.Broken? || IsDash(entry)
    case _ => false
  }

  lemma HeadKind(content: string)
    requires IsSeqItem(content) && ItemRest(content) != "" && LooksLikeMapEntry(ItemRest(content))
    ensures Uncovered(KindOf(content), KindOf(ItemRest(content)))
  {
  }

  lemma SliceShapes(block: seq<RawLine>, k: nat, lines: seq<RawLine>, j: nat, e: nat)
    requires j <= e <= |lines| && k <= |block| && block[k..] == lines[j..e]
    ensures Shapes(block)[k..] == Shapes(lines)[j..e]
  {
    forall x | 0 <= x < e - j
      ensures Shapes(block)[k..][x] == Shapes(lines)[j..e][x]
    {
      assert block[k..][x] == block[k + x] && lines[j..e][x] == lines[j + x];
    }
  }

  lemma BlockShapes(lines: seq<RawLine>, i: nat, indent: nat)
    requires i < |lines| && IsSeqItem(lines[i].content)
    requires ItemRest(lines[i].content) != "" && LooksLikeMapEntry(ItemRest(lines[i].content))
    ensures var ss, sub, e := Shapes(lines), Shapes(ItemBlock(lines, i, indent)), BlockEnd(lines, i + 1, indent + 2);
            && sub != [] && sub[1..] == ss[i + 1..e]
            && sub[0].indent == indent + 2 && Uncovered(ss[i].kind, sub[0].kind)
  {
    HeadKind(lines[i].content);
    var block, e := ItemBlock(lines, i, indent), BlockEnd(lines, i + 1, indent + 2);
    assert block[1..] == lines[i + 1..e];
    SliceShapes(block, 1, lines, i + 1, e);
  }

  /** The line of the dash is worth the item and the entry; a broken one gives at most an empty mapping. */
  lemma DashEntryWorth(lines: seq<RawLine>, i: nat, indent: nat)
    requires i < |lines| && IsSeqItem(lines[i].content)
    requires ItemRest(lines[i].content) != "" && LooksLikeMapEntry(ItemRest(lines[i].content))
    ensures var sub, e := ItemBlock(lines, i, indent), BlockEnd(lines, i + 1, indent + 2);
            && (KindOf(lines[i].content).DashEntry? ==>
                  Worth(Shapes(lines), i, e) == 1 + Worth(Shapes(sub), 0, |sub|))
            && (KindOf(lines[i].content).Broken? ==>
                  && Worth(Shapes(lines), i, e) >= 2
                  && (ParseEntries(sub, 0, indent + 2, map[]).Ok? ==>
                        Nodes(ParseEntries(sub, 0, indent + 2, map[]).value.value) == 0))
            && (KindOf(lines[i].content).DashEntry? || KindOf(lines[i].content).Broken?)
  {
    var sub, e := ItemBlock(lines, i, indent), BlockEnd(lines, i + 1, indent + 2);
    BlockShapes(lines, i, indent);
    WorthSlice(Shapes(lines), i + 1, e, Shapes(sub), 1);
    if KindOf(lines[i].content).Broken? {
      BrokenBlock(sub, indent + 2);
    }
  }

  lemma BrokenBlock(sub: seq<RawLine>, n: nat)
    requires sub != [] && sub[0].indent == n && (KindOf(sub[0].content).Broken? || IsDash(KindOf(sub[0].content)))
    ensures var r := ParseEntries(sub, 0, n, map[]); r.Ok? ==> Nodes(r.value.value) == 0
  {
    NodesEmpty();
    SameSplit(sub[0].content, 0, sub[0].lineNo);
  }

  // ---------------------------------------------------------------- blocks of a copied item

  /** The blocks of a over those of b. */
  function Onto(a: Open, b: Open): Open {
    match a
    case Floor => b
    case Over(n, l, keys, under) => Over(n, l, keys, Onto(under, b))
  }

  ghost predicate AtLeast(o: Open, n: nat) {
    o.Over? ==> o.indent >= n && AtLeast(o.under, n)
  }

  ghost predicate Less(o: Open, n: nat) {
    o.Over? ==> o.indent < n && Less(o.under, n)
  }

  lemma {:induction false} LessMore(o: Open, m: nat, n: nat)
    requires Less(o, m) && m <= n
    ensures Less(o, n)
  {
    if o.Over? {
      LessMore(o.under, m, n);
    }
  }

  lemma {:induction false} NotLess(b: Open, n: nat, indent: nat, list: bool)
    requires Less(b, n) && indent >= n
    ensures Close(b, indent, list).None?
  {
    if b.Over? {
      NotLess(b.under, n, indent, list);
    }
  }

  lemma {:induction false} CloseWithin(a: Open, b: Open, n: nat, indent: nat, list: bool)
    requires AtLeast(a, n) && Less(b, n) && indent >= n
    ensures var p := Close(a, indent, list);
            && (p.None? ==> Close(Onto(a, b), indent, list).None?)
            && (p.Some? ==>
                  && p.value.Over? && AtLeast(p.value, n)
                  && Close(Onto(a, b), indent, list) == Some(Onto(p.value, b)))
  {
    if a.Floor? {
      NotLess(b, n, indent, list);
    } else {
      CloseWithin(a.under, b, n, indent, list);
    }
  }

  lemma {:induction false} CloseBelow(a: Open, b: Open, n: nat, indent: nat, list: bool)
    requires AtLeast(a, n) && indent < n
    ensures Close(Onto(a, b), indent, list) == Close(b, indent, list)
  {
    if a.Over? {
      CloseBelow(a.under, b, n, indent, list);
    }
  }

  /** Lines indented at least n are placed within a, whatever lies under it. */
  lemma NextWithin(a: Open, b: Open, n: nat, expects: bool, s: Shape)
    requires a.Over? && AtLeast(a, n) && Less(b, n) && s.indent >= n
    ensures var p := Next(a, expects, s);
            && (p.None? ==> Next(Onto(a, b), expects, s).None?)
            && (p.Some? ==>
                  p.value.Over? && AtLeast(p.value, n) && Next(Onto(a, b), expects, s) == Some(Onto(p.value, b)))
  {
    CloseWithin(a, b, n, s.indent, IsDash(s.kind));
  }

  /** A line indented less than n finds its place under a, even if a block was expected. */
  lemma NextBelow(a: Open, b: Open, n: nat, expects: bool, s: Shape)
    requires a.Over? && AtLeast(a, n) && s.indent < n
    ensures Next(Onto(a, b), expects, s) == Next(b, false, s)
  {
    CloseBelow(a, b, n, s.indent, IsDash(s.kind));
  }

  /** Where the block of an item ends, its lines are as well nested on their own as in their surroundings. */
  lemma {:induction false} NestedApart(
    ss: seq<Shape>, j: nat, e: nat, n: nat, sub: seq<Shape>, k: nat, a: Open, b: Open, expects: bool)
    requires j <= e <= |ss| && k <= |sub| && sub[k..] == ss[j..e]
    requires (forall x :: j <= x < e ==> ss[x].indent >= n) && (e < |ss| ==> ss[e].indent < n)
    requires a.Over? && AtLeast(a, n) && Less(b, n)
    ensures Nested(ss, j, Onto(a, b), expects) <==> Nested(sub, k, a, expects) && Nested(ss, e, b, false)
    decreases e - j
  {
    if j == e {
      assert k == |sub|;
      if e < |ss| {
        NextBelow(a, b, n, expects, ss[e]);
      }
    } else {
      assert sub[k] == sub[k..][0] && ss[j] == ss[j..e][0];
      assert sub[k + 1..] == sub[k..][1..] && ss[j + 1..e] == ss[j..e][1..];
      NextWithin(a, b, n, expects, ss[j]);
      var p := Next(a, expects, ss[j]);
      if p.Some? {
        NestedApart(ss, j + 1, e, n, sub, k + 1, p.value, b, Expects(ss[j].kind));
      }
    }
  }

  lemma DashApart(ss: seq<Shape>, i: nat, e: nat, o: Open, key: string, bare: bool, sub: seq<Shape>)
    requires o.Over? && o.list && Less(o, o.indent + 2)
    requires i < e <= |ss| && ss[i] == Shape(o.indent, DashEntry(key, bare))
    requires (forall x :: i < x < e ==> ss[x].indent >= o.indent + 2) && (e < |ss| ==> ss[e].indent < o.indent + 2)
    requires sub != [] && sub[1..] == ss[i + 1..e]
    requires sub[0] == Shape(o.indent + 2, if bare then BareKey(key) else KeyValue(key))
    ensures Nested(ss, i, o, false)
       <==> Nested(sub, 0, Over(o.indent + 2, false, {}, Floor), false) && Nested(ss, e, o, false)
  {
    DashHere(ss, i, o, key, bare);
    KeyHere(sub, o.indent + 2, key, bare);
    NestedApart(ss, i + 1, e, o.indent + 2, sub, 1, Over(o.indent + 2, false, {key}, Floor), o, bare);
  }

  lemma DashHere(ss: seq<Shape>, i: nat, o: Open, key: string, bare: bool)
    requires i < |ss| && o.Over? && o.list && ss[i] == Shape(o.indent, DashEntry(key, bare))
    ensures Nested(ss, i, o, false) <==> Nested(ss, i + 1, Onto(Over(o.indent + 2, false, {key}, Floor), o), bare)
  {
    assert Onto(Floor, o) == o;
  }

  lemma KeyHere(sub: seq<Shape>, n: nat, key: string, bare: bool)
    requires sub != [] && sub[0] == Shape(n, if bare then BareKey(key) else KeyValue(key))
    ensures Nested(sub, 0, Over(n, false, {}, Floor), false) <==> Nested(sub, 1, Over(n, false, {key}, Floor), bare)
  {
    assert {} + {key} == {key};
  }

  // ---------------------------------------------------------------- one line

  /** A line that does not belong to the innermost block closes it. */
  lemma Closes(lines: seq<RawLine>, i: nat, o: Open)
    requires i <= |lines| && o.Over?
    requires i < |lines| ==> lines[i].indent != o.indent || IsSeqItem(lines[i].content) != o.list
    ensures Nested(Shapes(lines), i, o, false) <==> Nested(Shapes(lines), i, o.under, false)
  {
  }

  /** A line where a block is expected, and that can begin one, begins it. */
  lemma Begins(lines: seq<RawLine>, i: nat, o: Open)
    requires i < |lines| && o.Over?
    requires lines[i].indent > o.indent || (lines[i].indent == o.indent && IsSeqItem(lines[i].content) && !o.list)
    ensures Nested(Shapes(lines), i, o, true)
       <==> Nested(Shapes(lines), i, Over(lines[i].indent, IsSeqItem(lines[i].content), {}, o), false)
  {
  }

  /** Where no line begins a block, it does not matter that one was expected. */
  lemma NoneBegins(lines: seq<RawLine>, i: nat, o: Open)
    requires i <= |lines| && o.Over?
    requires i < |lines| ==> lines[i].indent <= o.indent
    requires i < |lines| && lines[i].indent == o.indent ==> !IsSeqItem(lines[i].content) || o.list
    ensures Nested(Shapes(lines), i, o, true) <==> Nested(Shapes(lines), i, o, false)
  {
  }

  /** A line in the innermost block. */
  lemma Stays(lines: seq<RawLine>, i: nat, o: Open)
    requires i < |lines| && o.Over? && lines[i].indent == o.indent && IsSeqItem(lines[i].content) == o.list
    ensures var k := KindOf(lines[i].content);
            var p := Enter(o, o.indent, k);
            Nested(Shapes(lines), i, o, false) <==> p.Some? && Nested(Shapes(lines), i + 1, p.value, Expects(k))
  {
  }

  // ---------------------------------------------------------------- the descent keeps to the nesting

  /** Blocks under one indented n are indented no more. */
  ghost predicate Within(under: Open, n: nat) {
    Less(under, n + 1)
  }

  /** Parsed, with all that the lines up to the end hold. */
  ghost predicate Takes(r: Result<Parsed<Value>>, base: nat, lines: seq<RawLine>, i: nat) {
    r.Ok? && i <= r.value.next <= |lines| && Nodes(r.value.value) == base + Worth(Shapes(lines), i, r.value.next)
  }

  lemma {:induction false} ValueNests(lines: seq<RawLine>, i: nat, indent: nat, under: Open)
    requires i < |lines| && lines[i].indent == indent && Within(under, indent)
    ensures Nested(Shapes(lines), i, Over(indent, IsSeqItem(lines[i].content), {}, under), false)
       <==>
            && Takes(ParseValueAt(lines, i, indent), 0, lines, i)
            && Nested(Shapes(lines), ParseValueAt(lines, i, indent).value.next, under, false)
    decreases Weight(lines, i), 2
  {
    hide KindOf, SplitKeyVal, Nested, Nodes, Worth;
    if IsSeqItem(lines[i].content) {
      ItemsNest(lines, i, indent, [], under);
      FromNothing(ParseItems(lines, i, indent, []), lines, i);
    } else {
      NewMappingNests(lines, i, indent, under);
    }
  }

  lemma FromNothing(r: Result<Parsed<Value>>, lines: seq<RawLine>, i: nat)
    ensures Takes(r, Nodes(Mapping(map[])), lines, i) <==> Takes(r, 0, lines, i)
    ensures Takes(r, Nodes(Sequence([])), lines, i) <==> Takes(r, 0, lines, i)
  {
    NodesEmpty();
  }

  lemma {:induction false} NewMappingNests(lines: seq<RawLine>, i: nat, indent: nat, under: Open)
    requires i <= |lines| && Within(under, indent)
    ensures Nested(Shapes(lines), i, Over(indent, false, {}, under), false)
       <==>
            && Takes(ParseEntries(lines, i, indent, map[]), 0, lines, i)
            && Nested(Shapes(lines), ParseEntries(lines, i, indent, map[]).value.next, under, false)
    decreases Weight(lines, i), 1, 1
  {
    hide KindOf, SplitKeyVal, Nested, Nodes, Worth;
    var m: map<string, Value> := map[];
    assert m.Keys == {};
    EntriesNest(lines, i, indent, m, under);
    FromNothing(ParseEntries(lines, i, indent, m), lines, i);
  }

  /** One entry, its block included, and the key it has. */
  ghost predicate EntryTakes(lines: seq<RawLine>, i: nat, indent: nat)
    requires i < |lines|
  {
    var r := ParseEntry(lines, i, indent);
    r.Ok? && 1 + Nodes(r.value.1.value) == Worth(Shapes(lines), i, r.value.1.next)
  }

  lemma {:induction false} EntryNests(lines: seq<RawLine>, i: nat, indent: nat, keys: set<string>, under: Open)
    requires i < |lines| && lines[i].indent == indent && !IsSeqItem(lines[i].content) && Within(under, indent)
    ensures Nested(Shapes(lines), i, Over(indent, false, keys, under), false)
       <==>
            && EntryTakes(lines, i, indent)
            && var (key, p) := ParseEntry(lines, i, indent).value;
               key !in keys && Nested(Shapes(lines), p.next, Over(indent, false, keys + {key}, under), false)
    decreases Weight(lines, i), 0
  {
    Stays(lines, i, Over(indent, false, keys, under));
    SameSplit(lines[i].content, 0, lines[i].lineNo);
    match KindOf(lines[i].content)
    case BareKey(key) =>
      BareKeyNests(lines, i, indent, keys + {key}, under);
      BareKeyParsed(lines, i, indent);
    case KeyValue(key) =>
      KeyValueParsed(lines, i, indent);
    case _ =>
  }

  lemma KeyValueParsed(lines: seq<RawLine>, i: nat, indent: nat)
    requires i < |lines| && KindOf(lines[i].content).KeyValue?
    ensures EntryTakes(lines, i, indent)
    ensures ParseEntry(lines, i, indent).value.0 == KindOf(lines[i].content).key
    ensures ParseEntry(lines, i, indent).value.1.next == i + 1
  {
    SameSplit(lines[i].content, 0, lines[i].lineNo);
  }

  lemma BareKeyParsed(lines: seq<RawLine>, i: nat, indent: nat)
    requires i < |lines| && KindOf(lines[i].content).BareKey?
    ensures ParseEntry(lines, i, indent).Ok? ==> ParseEntry(lines, i, indent).value.0 == KindOf(lines[i].content).key
  {
    SameSplit(lines[i].content, 0, lines[i].lineNo);
  }

  /** A key without a value: what follows is its block, its flush list, or not its own. */
  lemma {:induction false} BareKeyNests(lines: seq<RawLine>, i: nat, indent: nat, keys: set<string>, under: Open)
    requires i < |lines| && KindOf(lines[i].content).BareKey? && Within(under, indent)
    ensures Nested(Shapes(lines), i + 1, Over(indent, false, keys, under), true)
       <==>
            && EntryTakes(lines, i, indent)
            && Nested(Shapes(lines), ParseEntry(lines, i, indent).value.1.next, Over(indent, false, keys, under), false)
    decreases Weight(lines, i), 0, 0
  {
    hide KindOf, SplitKeyVal, Nested, Nodes, Worth;
    var o := Over(indent, false, keys, under);
    if i + 1 < |lines| && lines[i + 1].indent > indent {
      Begins(lines, i + 1, o);
      LessMore(under, indent + 1, lines[i + 1].indent + 1);
      ValueNests(lines, i + 1, lines[i + 1].indent, o);
      WithBlock(lines, i, indent);
    } else if i + 1 < |lines| && lines[i + 1].indent == indent && IsSeqItem(lines[i + 1].content) {
      Begins(lines, i + 1, o);
      ItemsNest(lines, i + 1, indent, [], o);
      FromNothing(ParseItems(lines, i + 1, indent, []), lines, i + 1);
      WithFlushList(lines, i, indent);
    } else {
      NoneBegins(lines, i + 1, o);
      WithNothing(lines, i, indent);
    }
  }

  // What a key without a value is read with.

  lemma WithBlock(lines: seq<RawLine>, i: nat, indent: nat)
    requires i + 1 < |lines| && KindOf(lines[i].content).BareKey? && lines[i + 1].indent > indent
    ensures var r := ParseValueAt(lines, i + 1, lines[i + 1].indent);
            && (EntryTakes(lines, i, indent) <==> Takes(r, 0, lines, i + 1))
            && (ParseEntry(lines, i, indent).Ok? ==> ParseEntry(lines, i, indent).value.1.next == r.value.next)
  {
    SameSplit(lines[i].content, 0, lines[i].lineNo);
  }

  lemma WithFlushList(lines: seq<RawLine>, i: nat, indent: nat)
    requires i + 1 < |lines| && KindOf(lines[i].content).BareKey?
    requires lines[i + 1].indent == indent && IsSeqItem(lines[i + 1].content)
    ensures var r := ParseItems(lines, i + 1, indent, []);
            && (EntryTakes(lines, i, indent) <==> Takes(r, 0, lines, i + 1))
            && (ParseEntry(lines, i, indent).Ok? ==> ParseEntry(lines, i, indent).value.1.next == r.value.next)
  {
    SameSplit(lines[i].content, 0, lines[i].lineNo);
  }

  lemma WithNothing(lines: seq<RawLine>, i: nat, indent: nat)
    requires i < |lines| && KindOf(lines[i].content).BareKey?
    requires i + 1 < |lines| ==> lines[i + 1].indent <= indent
    requires i + 1 < |lines| && lines[i + 1].indent == indent ==> !IsSeqItem(lines[i + 1].content)
    ensures EntryTakes(lines, i, indent) && ParseEntry(lines, i, indent).value.1.next == i + 1
  {
    SameSplit(lines[i].content, 0, lines[i].lineNo);
  }

  lemma {:induction false} EntriesNest(lines: seq<RawLine>, i: nat, indent: nat, m: map<string, Value>, under: Open)
    requires i <= |lines| && Within(under, indent)
    ensures Nested(Shapes(lines), i, Over(indent, false, m.Keys, under), false)
       <==>
            && Takes(ParseEntries(lines, i, indent, m), Nodes(Mapping(m)), lines, i)
            && Nested(Shapes(lines), ParseEntries(lines, i, indent, m).value.next, under, false)
    decreases Weight(lines, i), 1, 0
  {
    hide KindOf, SplitKeyVal, Nested, Nodes;
    if i < |lines| && lines[i].indent == indent && !IsSeqItem(lines[i].content) {
      EntryNests(lines, i, indent, m.Keys, under);
      if ParseEntry(lines, i, indent).Ok? {
        var (key, p) := ParseEntry(lines, i, indent).value;
        WeightDecreases(lines, i, p.next);
        EntriesNest(lines, p.next, indent, m[key := p.value], under);
        assert m[key := p.value].Keys == m.Keys + {key};
        EntriesTake(lines, i, indent, m);
      }
    } else {
      Closes(lines, i, Over(indent, false, m.Keys, under));
    }
  }

  /** The first entry and the others: all is taken in exactly if the key is new and each takes in all of its own. */
  lemma EntriesTake(lines: seq<RawLine>, i: nat, indent: nat, m: map<string, Value>)
    requires i < |lines| && lines[i].indent == indent && !IsSeqItem(lines[i].content)
    requires ParseEntry(lines, i, indent).Ok?
    ensures var (key, p) := ParseEntry(lines, i, indent).value;
            var r := ParseEntries(lines, p.next, indent, m[key := p.value]);
            && r == ParseEntries(lines, i, indent, m)
            && (Takes(r, Nodes(Mapping(m)), lines, i)
                <==>
                     && key !in m && EntryTakes(lines, i, indent)
                     && Takes(r, Nodes(Mapping(m[key := p.value])), lines, p.next))
  {
    hide KindOf, SplitKeyVal, Nodes, Shapes, Worth;
    var (key, p) := ParseEntry(lines, i, indent).value;
    var r := ParseEntries(lines, p.next, indent, m[key := p.value]);
    EntryAtMost(lines, i, indent);
    EntriesAtMost(lines, p.next, indent, m[key := p.value]);
    NodesPut(m, key, p.value);
    if r.Ok? {
      WorthSplit(Shapes(lines), i, p.next, r.value.next);
    }
  }

  ghost predicate ItemTakes(lines: seq<RawLine>, i: nat, indent: nat)
    requires i < |lines| && IsSeqItem(lines[i].content)
  {
    var r := ParseItem(lines, i, indent);
    r.Ok? && 1 + Nodes(r.value.value) == Worth(Shapes(lines), i, r.value.next)
  }

  lemma {:induction false} ItemNests(lines: seq<RawLine>, i: nat, indent: nat, keys: set<string>, under: Open)
    requires i < |lines| && lines[i].indent == indent && IsSeqItem(lines[i].content) && Within(under, indent)
    ensures Nested(Shapes(lines), i, Over(indent, true, keys, under), false)
       <==>
            && ItemTakes(lines, i, indent)
            && Nested(Shapes(lines), ParseItem(lines, i, indent).value.next, Over(indent, true, keys, under), false)
    decreases Weight(lines, i), 0
  {
    hide KindOf, SplitKeyVal, Nested, Nodes, Worth;
    var o, rest := Over(indent, true, keys, under), ItemRest(lines[i].content);
    if rest == "" {
      BareDashNests(lines, i, indent, keys, under);
    } else if LooksLikeMapEntry(rest) {
      DashEntryNests(lines, i, indent, keys, under);
    } else {
      DashScalarHere(lines, i, o);
    }
  }

  lemma {:induction false} BareDashNests(lines: seq<RawLine>, i: nat, indent: nat, keys: set<string>, under: Open)
    requires i < |lines| && lines[i].indent == indent && IsSeqItem(lines[i].content) && Within(under, indent)
    requires ItemRest(lines[i].content) == ""
    ensures Nested(Shapes(lines), i, Over(indent, true, keys, under), false)
       <==>
            && ItemTakes(lines, i, indent)
            && Nested(Shapes(lines), ParseItem(lines, i, indent).value.next, Over(indent, true, keys, under), false)
    decreases Weight(lines, i), 0, 0
  {
    hide KindOf, SplitKeyVal, Nested, Nodes, Worth;
    var o := Over(indent, true, keys, under);
    BareDashHere(lines, i, o);
    if i + 1 < |lines| && lines[i + 1].indent > indent {
      Begins(lines, i + 1, o);
      LessMore(under, indent + 1, lines[i + 1].indent + 1);
      ValueNests(lines, i + 1, lines[i + 1].indent, o);
      DashWithBlock(lines, i, indent);
    } else {
      NoneBegins(lines, i + 1, o);
      DashWithNothing(lines, i, indent);
    }
  }

  lemma BareDashHere(lines: seq<RawLine>, i: nat, o: Open)
    requires i < |lines| && IsSeqItem(lines[i].content) && ItemRest(lines[i].content) == ""
    requires o.Over? && o.list && lines[i].indent == o.indent
    ensures Nested(Shapes(lines), i, o, false) <==> Nested(Shapes(lines), i + 1, o, true)
  {
    Stays(lines, i, o);
  }

  lemma DashScalarHere(lines: seq<RawLine>, i: nat, o: Open)
    requires i < |lines| && IsSeqItem(lines[i].content)
    requires ItemRest(lines[i].content) != "" && !LooksLikeMapEntry(ItemRest(lines[i].content))
    requires o.Over? && o.list && lines[i].indent == o.indent
    ensures Nested(Shapes(lines), i, o, false) <==> Nested(Shapes(lines), i + 1, o, false)
    ensures ItemTakes(lines, i, o.indent) && ParseItem(lines, i, o.indent).value.next == i + 1
  {
    Stays(lines, i, o);
  }

  lemma DashWithBlock(lines: seq<RawLine>, i: nat, indent: nat)
    requires i + 1 < |lines| && IsSeqItem(lines[i].content) && ItemRest(lines[i].content) == ""
    requires lines[i + 1].indent > indent
    ensures var r := ParseValueAt(lines, i + 1, lines[i + 1].indent);
            ParseItem(lines, i, indent) == r && (ItemTakes(lines, i, indent) <==> Takes(r, 0, lines, i + 1))
  {
  }

  lemma DashWithNothing(lines: seq<RawLine>, i: nat, indent: nat)
    requires i < |lines| && IsSeqItem(lines[i].content) && ItemRest(lines[i].content) == ""
    requires i + 1 < |lines| ==> lines[i + 1].indent <= indent
    ensures ItemTakes(lines, i, indent) && ParseItem(lines, i, indent).value.next == i + 1
  {
  }

  /** An entry behind a dash: its block is copied out, and on its own it has to be nested to the end. */
  lemma {:induction false} DashEntryNests(lines: seq<RawLine>, i: nat, indent: nat, keys: set<string>, under: Open)
    requires i < |lines| && lines[i].indent == indent && IsSeqItem(lines[i].content) && Within(under, indent)
    requires ItemRest(lines[i].content) != "" && LooksLikeMapEntry(ItemRest(lines[i].content))
    ensures Nested(Shapes(lines), i, Over(indent, true, keys, under), false)
       <==>
            && ItemTakes(lines, i, indent)
            && Nested(Shapes(lines), ParseItem(lines, i, indent).value.next, Over(indent, true, keys, under), false)
    decreases Weight(lines, i), 0, 0
  {
    hide KindOf, SplitKeyVal, Nested, Nodes, Worth;
    var sub := ItemBlock(lines, i, indent);
    BlockShapes(lines, i, indent);
    DashEntryTakes(lines, i, indent);
    if KindOf(lines[i].content).DashEntry? {
      BlockNests(sub, indent + 2);
      LessMore(under, indent + 1, indent + 2);
      var k := KindOf(lines[i].content);
      DashApart(Shapes(lines), i, BlockEnd(lines, i + 1, indent + 2), Over(indent, true, keys, under), k.key, k.bare,
                Shapes(sub));
    } else {
      Stays(lines, i, Over(indent, true, keys, under));
    }
  }

  /** The item takes in all of its own exactly if the line is not broken and the copied block is read whole. */
  lemma DashEntryTakes(lines: seq<RawLine>, i: nat, indent: nat)
    requires i < |lines| && IsSeqItem(lines[i].content)
    requires ItemRest(lines[i].content) != "" && LooksLikeMapEntry(ItemRest(lines[i].content))
    ensures ItemTakes(lines, i, indent)
       <==> KindOf(lines[i].content).DashEntry? && BlockRead(ItemBlock(lines, i, indent), indent + 2)
    ensures ParseItem(lines, i, indent).Ok? ==>
              ParseItem(lines, i, indent).value.next == BlockEnd(lines, i + 1, indent + 2)
  {
    DashEntryWorth(lines, i, indent);
  }

  /** A block is read whole exactly if it is nested. */
  lemma {:induction false} BlockNests(sub: seq<RawLine>, n: nat)
    ensures Nested(Shapes(sub), 0, Over(n, false, {}, Floor), false) <==> BlockRead(sub, n)
    decreases Weight(sub, 0), 2
  {
    NewMappingNests(sub, 0, n, Floor);
    EntriesAtMost(sub, 0, n, map[]);
    BlockAtMost(sub, n);
    ToTheEnd(Shapes(sub), ParseEntries(sub, 0, n, map[]));
  }

  /** With no block open, nothing more has a place. */
  lemma ToTheEnd(ss: seq<Shape>, r: Result<Parsed<Value>>)
    ensures r.Ok? && r.value.next <= |ss| ==> (Nested(ss, r.value.next, Floor, false) <==> r.value.next == |ss|)
  {
  }

  lemma {:induction false} ItemsNest(lines: seq<RawLine>, i: nat, indent: nat, acc: seq<Value>, under: Open)
    requires i <= |lines| && Within(under, indent)
    ensures Nested(Shapes(lines), i, Over(indent, true, {}, under), false)
       <==>
            && Takes(ParseItems(lines, i, indent, acc), Nodes(Sequence(acc)), lines, i)
            && Nested(Shapes(lines), ParseItems(lines, i, indent, acc).value.next, under, false)
    decreases Weight(lines, i), 1
  {
    hide KindOf, SplitKeyVal, Nested, Nodes;
    if i < |lines| && lines[i].indent == indent && IsSeqItem(lines[i].content) {
      ItemNests(lines, i, indent, {}, under);
      if ParseItem(lines, i, indent).Ok? {
        var p := ParseItem(lines, i, indent).value;
        WeightDecreases(lines, i, p.next);
        ItemsNest(lines, p.next, indent, acc + [p.value], under);
        ItemsTake(lines, i, indent, acc);
      }
    } else {
      Closes(lines, i, Over(indent, true, {}, under));
    }
  }

  lemma ItemsTake(lines: seq<RawLine>, i: nat, indent: nat, acc: seq<Value>)
    requires i < |lines| && lines[i].indent == indent && IsSeqItem(lines[i].content) && ParseItem(lines, i, indent).Ok?
    ensures var p := ParseItem(lines, i, indent).value;
            var r := ParseItems(lines, p.next, indent, acc + [p.value]);
            && r == ParseItems(lines, i, indent, acc)
            && (Takes(r, Nodes(Sequence(acc)), lines, i)
                <==> ItemTakes(lines, i, indent) && Takes(r, Nodes(Sequence(acc + [p.value])), lines, p.next))
  {
    hide KindOf, SplitKeyVal, Nodes, Shapes, Worth;
    var p := ParseItem(lines, i, indent).value;
    var r := ParseItems(lines, p.next, indent, acc + [p.value]);
    ItemAtMost(lines, i, indent);
    ItemsAtMost(lines, p.next, indent, acc + [p.value]);
    NodesAppend(acc, p.value);
    if r.Ok? {
      WorthSplit(Shapes(lines), i, p.next, r.value.next);
    }
  }

  /**
    A document is accepted with everything its lines hold in the tree if and only if its lines are
    properly nested: each stands at the indentation of an open block of its kind, or begins one where
    the line before expects it, and no mapping is given a key twice.
   */
  lemma ReadWholeIff(lines: seq<RawLine>)
    ensures ReadWhole(lines) <==> WellNested(lines)
  {
    if lines != [] {
      BlockNests(lines, 0);
    }
  }

  /** Such a document is accepted. */
  lemma WellNestedAccepted(data: string, lines: seq<RawLine>)
    requires Preprocessed(Split(data, '\n'), 1) == Ok(lines) && WellNested(lines)
    ensures ParseDocument(data).Ok?
  {
    ReadWholeIff(lines);
  }

  // ---------------------------------------------------------------- lines that are lost

  /** An entry with a value at the head of a block, and a line at another indentation after it. */
  ghost predicate EntryAlone(lines: seq<RawLine>, indent: nat, key: string, val: string) {
    && |lines| >= 2 && lines[0].indent == indent && !IsSeqItem(lines[0].content) && lines[1].indent != indent
    && SplitKeyVal(lines[0].content, lines[0].lineNo) == Ok((key, val)) && val != ""
  }

  lemma EntryAloneParsed(lines: seq<RawLine>, indent: nat, key: string, val: string)
    requires EntryAlone(lines, indent, key, val)
    ensures ParseEntries(lines, 0, indent, map[]) ==
            Ok(Parsed(Mapping(map[key := Scalar(ParseScalar(val))]), 1))
  {
    var v := Scalar(ParseScalar(val));
    assert ParseEntry(lines, 0, indent) == Ok((key, Parsed(v, 1)));
    assert map[][key := v] == map[key := v];
    assert ParseEntries(lines, 1, indent, map[key := v]) == Ok(Parsed(Mapping(map[key := v]), 1));
  }

  lemma EntryAloneShort(lines: seq<RawLine>, indent: nat, key: string, val: string)
    requires EntryAlone(lines, indent, key, val)
    ensures !BlockRead(lines, indent)
  {
    EntryAloneParsed(lines, indent, key, val);
    EntriesAtMost(lines, 0, indent, map[]);
    BlockAtMost(lines, indent);
  }

  /** The mapping ends there, and the line and all that follow are lost. */
  lemma RestLost(lines: seq<RawLine>, key: string, val: string)
    requires EntryAlone(lines, 0, key, val)
    ensures ParseEntries(lines, 0, 0, map[]) == Ok(Parsed(Mapping(map[key := Scalar(ParseScalar(val))]), 1))
    ensures !ReadWhole(lines)
  {
    EntryAloneParsed(lines, 0, key, val);
    EntryAloneShort(lines, 0, key, val);
  }

  /** Lines too far in after the first entry of an item are lost, and the list goes on behind them. */
  lemma ItemLinesLost(lines: seq<RawLine>, i: nat, indent: nat, key: string, val: string)
    requires i + 1 < |lines| && IsSeqItem(lines[i].content) && lines[i + 1].indent > indent + 2
    requires var rest := ItemRest(lines[i].content);
             && rest != "" && LooksLikeMapEntry(rest) && !IsSeqItem(rest)
             && SplitKeyVal(rest, lines[i].lineNo) == Ok((key, val)) && val != ""
    ensures var e := BlockEnd(lines, i + 1, indent + 2);
            && ParseItem(lines, i, indent) == Ok(Parsed(Mapping(map[key := Scalar(ParseScalar(val))]), e))
            && i + 1 < e && !ItemTakes(lines, i, indent)
  {
    var sub := ItemBlock(lines, i, indent);
    assert sub[1] == lines[i + 1];
    EntryAloneParsed(sub, indent + 2, key, val);
    EntryAloneShort(sub, indent + 2, key, val);
    DashEntryTakes(lines, i, indent);
  }
}
