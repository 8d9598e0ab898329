/**
  Ways of laying a tree out in lines of the YAML subset, and the theorem that the recursive
  descent reads every one of them back.
 */
module YamlLayout {
  import opened Text
  import opened Yaml

  datatype Style = Double | Single | Plain

  /**
    A tree with its layout. The shift of a block or list is how many columns it is indented
    past its parent; a list under a key may be flush (shift 0), and a block that is a list
    item with shift 0 starts on the line of its dash. A key may be left without a value, which
    counts as an empty scalar, and a dash may stand for nothing.
   */
  datatype Node =
    | Leaf(text: string, style: Style)
    | Block(entries: Entries, shift: nat)
    | List(items: Items, shift: nat)
    | Missing
    | Nil

  datatype Entries = NoEntry | Entry(key: string, node: Node, more: Entries)

  datatype Items = NoItem | Item(node: Node, more: Items)

  datatype Line = Line(indent: nat, content: string)

  // ---------------------------------------------------------------- what may be written

  predicate PlainKey(key: string) {
    key != "" && forall c | c in key :: c !in {':', '#', '\'', '"'} && !IsSpace(c)
  }

  predicate Writable(text: string, style: Style) {
    && '\n' !in text
    && match style
       case Double => '"' !in text
       case Single => '\'' !in text
       case Plain =>
         && text != "" && !IsSpace(text[0]) && !IsSpace(text[|text| - 1])
         && forall c | c in text :: c !in {'#', '\'', '"'}
  }

  function Written(text: string, style: Style): string {
    match style
    case Double => "\"" + text + "\""
    case Single => "'" + text + "'"
    case Plain => text
  }

  predicate GoodNode(node: Node) {
    match node
    case Leaf(text, style) => Writable(text, style)
    case Block(entries, _) => entries.Entry? && GoodEntries(entries)
    case List(items, _) => items.Item? && GoodItems(items)
    case Missing => true
    case Nil => true
  }

  predicate GoodEntries(es: Entries) {
    es.Entry? ==> PlainKey(es.key) && GoodNode(es.node) && EntryLayout(es.node) && GoodEntries(es.more)
  }

  /** What being under a key asks of a node: a block is indented, and there is no dash to stand for nothing. */
  predicate EntryLayout(node: Node) {
    (node.Block? ==> node.shift > 0) && !node.Nil?
  }

  predicate GoodItems(items: Items) {
    items.Item? ==> GoodNode(items.node) && ItemLayout(items.node) && GoodItems(items.more)
  }

  /** What being a list item asks of a node: a nested list is indented, a scalar has no colon. */
  predicate ItemLayout(node: Node) {
    (node.List? ==> node.shift > 0) && (node.Leaf? ==> ':' !in node.text) && !node.Missing?
  }

  // ---------------------------------------------------------------- the tree it stands for

  function ValueOf(node: Node): Value {
    match node
    case Leaf(text, _) => Scalar(text)
    case Block(entries, _) => Mapping(EntriesValue(entries, map[]))
    case List(items, _) => Sequence(ItemsValue(items))
    case Missing => Scalar("")
    case Nil => Null
  }

  function EntriesValue(es: Entries, m: map<string, Value>): map<string, Value>
    decreases es
  {
    if es.NoEntry? then m else EntriesValue(es.more, m[es.key := ValueOf(es.node)])
  }

  function ItemsValue(items: Items): seq<Value> {
    if items.NoItem? then [] else [ValueOf(items.node)] + ItemsValue(items.more)
  }

  // ---------------------------------------------------------------- the lines it is written as

  function PrintEntry(key: string, node: Node, n: nat): (ls: seq<Line>)
    ensures ls != []
    decreases node, 1
  {
    match node
    case Leaf(text, style) => [Line(n, key + ": " + Written(text, style))]
    case Block(entries, shift) => [Line(n, key + ":")] + PrintEntries(entries, n + shift)
    case List(items, shift) => [Line(n, key + ":")] + PrintItems(items, n + shift)
    case _ => [Line(n, key + ":")]
  }

  function PrintEntries(es: Entries, n: nat): (ls: seq<Line>)
    ensures es.Entry? ==> ls != []
    decreases es, 0
  {
    if es.NoEntry? then [] else PrintEntry(es.key, es.node, n) + PrintEntries(es.more, n)
  }

  function PrintItem(node: Node, n: nat): (ls: seq<Line>)
    ensures ls != []
    decreases node, 1
  {
    match node
    case Leaf(text, style) => [Line(n, "- " + Written(text, style))]
    case Block(entries, shift) =>
      var ls := PrintEntries(entries, n + if shift == 0 then 2 else shift);
      if shift == 0 && ls != [] then [Line(n, "- " + ls[0].content)] + ls[1..] else [Line(n, "-")] + ls
    case List(items, shift) => [Line(n, "-")] + PrintItems(items, n + shift)
    case _ => [Line(n, "-")]
  }

  function PrintItems(items: Items, n: nat): (ls: seq<Line>)
    ensures items.Item? ==> ls != []
    decreases items, 0
  {
    if items.NoItem? then [] else PrintItem(items.node, n) + PrintItems(items.more, n)
  }

  // ---------------------------------------------------------------- quoting along a line

  datatype ScanResult = Hash | Through(q: Quoting)

  /** The quoting state after a stretch of text, unless it holds a '#' outside quotes. */
  function Scan(s: string, q: Quoting): ScanResult {
    if s == [] then Through(q)
    else if s[0] == '#' && q.Bare() then Hash
    else Scan(s[1..], q.Next(s[0]))
  }

  lemma {:induction false} ScanAppend(s: string, t: string, q: Quoting)
    requires Scan(s, q).Through?
    ensures Scan(s + t, q) == Scan(t, Scan(s, q).q)
    ensures CommentAt(s + t, q) == |s| + CommentAt(t, Scan(s, q).q)
  {
    if s == [] {
      assert s + t == t;
    } else {
      assert (s + t)[1..] == s[1..] + t;
      ScanAppend(s[1..], t, q.Next(s[0]));
    }
  }

  /** Text without quotes and hashes does not change the state, whatever it is. */
  lemma {:induction false} ScanPlain(s: string, q: Quoting)
    requires forall c :: c in s ==> c !in {'#', '\'', '"'}
    ensures Scan(s, q) == Through(q)
  {
    if s != [] {
      assert s[0] in s;
      forall c | c in s[1..] ensures c in s { }
      ScanPlain(s[1..], q);
    }
  }

  /** Inside quotes of one kind, everything but that quote is passed over. */
  lemma {:induction false} ScanQuoted(s: string, q: Quoting)
    requires if q.double then q == Quoting(false, true) && '"' !in s else q == Quoting(true, false) && '\'' !in s
    ensures Scan(s, q) == Through(q)
  {
    if s != [] {
      assert s[0] in s;
      ScanQuoted(s[1..], q);
    }
  }

  lemma ScanWritten(text: string, style: Style)
    requires Writable(text, style)
    ensures Scan(Written(text, style), BARE) == Through(BARE)
  {
    match style
    case Plain => ScanPlain(text, BARE);
    case Double =>
      ScanQuoted(text, Quoting(false, true));
      ScanAppend(text, "\"", Quoting(false, true));
      ScanAppend("\"", text + "\"", BARE);
      assert "\"" + (text + "\"") == Written(text, style);
    case Single =>
      ScanQuoted(text, Quoting(true, false));
      ScanAppend(text, "'", Quoting(true, false));
      ScanAppend("'", text + "'", BARE);
      assert "'" + (text + "'") == Written(text, style);
  }

  /** A line the preprocessor passes on unharmed: something, tight, of one line, and quoted in pairs. */
  ghost predicate GoodContent(s: string) {
    s != "" && Tight(s, IsSpace) && '\n' !in s && Scan(s, BARE) == Through(BARE)
  }

  lemma GoodConcat(s: string, sep: string, t: string)
    requires GoodContent(s) && GoodContent(t) && All(sep, c => c == ' ' || c == ':')
    ensures GoodContent(s + sep + t)
  {
    ScanPlain(sep, BARE);
    ScanAppend(s, sep, BARE);
    ScanAppend(s + sep, t, BARE);
  }

  lemma GoodWritten(text: string, style: Style)
    requires Writable(text, style)
    ensures GoodContent(Written(text, style)) && ParseScalar(Written(text, style)) == text
    ensures ':' in Written(text, style) <==> ':' in text
  {
    var w := Written(text, style);
    ScanWritten(text, style);
    assert TrimSpace(w) == w;
    if style != Plain {
      assert w[1..|w| - 1] == text;
    } else {
      assert text[0] in text;
    }
  }

  lemma GoodKey(key: string)
    requires PlainKey(key)
    ensures GoodContent(key) && TrimSpace(key) == key && ':' !in key
  {
    assert key[0] in key && key[|key| - 1] in key;
    ScanPlain(key, BARE);
  }

  // ---------------------------------------------------------------- shape of the printed lines

  ghost predicate GoodLines(ls: seq<Line>, n: nat) {
    forall k :: 0 <= k < |ls| ==> ls[k].indent >= n && GoodContent(ls[k].content)
  }

  /** The first line of an entry: its key, a colon, and no dash. */
  lemma EntryHead(key: string, node: Node, n: nat)
    requires PlainKey(key) && GoodNode(node)
    ensures var l := PrintEntry(key, node, n)[0];
            l.indent == n && GoodContent(l.content) && ':' in l.content && !IsSeqItem(l.content)
  {
    GoodKey(key);
    var l := PrintEntry(key, node, n)[0].content;
    assert GoodContent(":");
    GoodConcat(key, "", ":");
    assert key + "" + ":" == key + ":";
    if node.Leaf? {
      GoodWritten(node.text, node.style);
      GoodConcat(key, ": ", Written(node.text, node.style));
    }
    assert l[..|key|] == key && l[|key|] == ':';
    DashIsNoKey(key, l);
  }

  lemma DashIsNoKey(key: string, l: string)
    requires PlainKey(key) && |key| < |l| && l[..|key|] == key && l[|key|] == ':'
    ensures !IsSeqItem(l)
  {
    assert l[0] == key[0] && key[0] in key;
    if |key| > 1 {
      assert l[1] == key[1] && key[1] in key;
    }
  }

  /** The first line of an item: a dash, and either nothing or the text after one space. */
  lemma ItemHead(node: Node, n: nat)
    requires GoodNode(node)
    ensures var l := PrintItem(node, n)[0]; l.indent == n && GoodContent(l.content) && IsSeqItem(l.content)
  {
    assert GoodContent("-");
    match node
    case Leaf(text, style) =>
      GoodWritten(text, style);
      DashConcat(Written(text, style));
    case Block(es, shift) =>
      EntryHead(es.key, es.node, n + 2);
      assert PrintEntries(es, n + 2)[0] == PrintEntry(es.key, es.node, n + 2)[0];
      DashConcat(PrintEntries(es, n + 2)[0].content);
    case _ =>
  }

  lemma DashConcat(s: string)
    requires GoodContent(s)
    ensures GoodContent("- " + s)
  {
    assert GoodContent("-");
    GoodConcat("-", " ", s);
    assert "-" + " " + s == "- " + s;
  }

  lemma {:induction false} EntryLines(key: string, node: Node, n: nat)
    requires PlainKey(key) && GoodNode(node)
    ensures GoodLines(PrintEntry(key, node, n), n)
    decreases node, 1
  {
    EntryHead(key, node, n);
    match node
    case Block(entries, shift) => EntriesLines(entries, n + shift);
    case List(items, shift) => ItemsLines(items, n + shift);
    case _ =>
  }

  lemma {:induction false} EntriesLines(es: Entries, n: nat)
    requires GoodEntries(es)
    ensures GoodLines(PrintEntries(es, n), n)
    decreases es, 0
  {
    if es.Entry? {
      EntryLines(es.key, es.node, n);
      EntriesLines(es.more, n);
    }
  }

  lemma BlockItemLines(es: Entries, shift: nat, n: nat)
    requires GoodLines(PrintEntries(es, n + if shift == 0 then 2 else shift), n + if shift == 0 then 2 else shift)
    requires GoodContent(PrintItem(Block(es, shift), n)[0].content) && PrintItem(Block(es, shift), n)[0].indent == n
    ensures GoodLines(PrintItem(Block(es, shift), n), n)
    ensures shift == 0 ==> GoodLines(PrintItem(Block(es, shift), n)[1..], n + 2)
  {
  }

  lemma {:induction false} ItemLines(node: Node, n: nat)
    requires GoodNode(node)
    ensures GoodLines(PrintItem(node, n), n)
    ensures node.Block? && node.shift == 0 ==> GoodLines(PrintItem(node, n)[1..], n + 2)
    decreases node, 1
  {
    ItemHead(node, n);
    match node
    case Block(entries, shift) =>
      EntriesLines(entries, n + if shift == 0 then 2 else shift);
      BlockItemLines(entries, shift, n);
    case List(items, shift) => ItemsLines(items, n + shift);
    case _ =>
  }

  lemma {:induction false} ItemsLines(items: Items, n: nat)
    requires GoodItems(items)
    ensures GoodLines(PrintItems(items, n), n)
    decreases items, 0
  {
    if items.Item? {
      ItemLines(items.node, n);
      ItemsLines(items.more, n);
    }
  }

  // ---------------------------------------------------------------- parsing the printed lines

  /** The lines from i on begin with the printed ones. */
  ghost predicate Starts(lines: seq<RawLine>, i: nat, ls: seq<Line>) {
    && i + |ls| <= |lines|
    && forall k :: 0 <= k < |ls| ==> Matches(lines[i + k], ls[k])
  }

  ghost predicate Matches(raw: RawLine, l: Line) {
    raw.indent == l.indent && raw.content == l.content
  }

  lemma StartsSplit(lines: seq<RawLine>, i: nat, ls: seq<Line>, ms: seq<Line>)
    requires Starts(lines, i, ls + ms)
    ensures Starts(lines, i, ls) && Starts(lines, i + |ls|, ms)
  {
    forall k | 0 <= k < |ls| ensures Matches(lines[i + k], ls[k]) {
      assert (ls + ms)[k] == ls[k];
    }
    forall k | 0 <= k < |ms| ensures Matches(lines[i + |ls| + k], ms[k]) {
      assert (ls + ms)[|ls| + k] == ms[k] && lines[i + (|ls| + k)] == lines[i + |ls| + k];
    }
  }

  /** Where a mapping at indentation n ends. */
  ghost predicate EndsBlock(lines: seq<RawLine>, j: nat, n: nat) {
    j < |lines| ==> lines[j].indent < n
  }

  /** Where an entry, or a list under it, ends: at the end of the mapping or at the next entry. */
  ghost predicate EndsEntry(lines: seq<RawLine>, j: nat, n: nat) {
    j < |lines| ==> lines[j].indent < n || (lines[j].indent == n && !IsSeqItem(lines[j].content))
  }

  /** Where an item ends: at anything not indented past its dash. */
  ghost predicate EndsItem(lines: seq<RawLine>, j: nat, n: nat) {
    j < |lines| ==> lines[j].indent <= n
  }

  lemma SplitAtColon(key: string, after: string, val: string, no: nat)
    requires PlainKey(key) && TrimSpace(after) == val
    ensures SplitKeyVal(key + ":" + after, no) == Ok((key, val))
  {
    GoodKey(key);
    var content := key + ":" + after;
    assert content == key + [':'] + after;
    IndexOfAfter(key, ':', after);
    assert content[..|key|] == key && content[|key| + 1..] == after;
  }

  /** A "key: value" line splits into the key and the value as written. */
  lemma SplitInline(key: string, w: string, no: nat)
    requires PlainKey(key) && Tight(w, IsSpace)
    ensures SplitKeyVal(key + ": " + w, no) == Ok((key, w))
  {
    TrimSpacePad(w, " ");
    SplitAtColon(key, " " + w, w, no);
    assert key + ":" + (" " + w) == key + ": " + w;
  }

  lemma SplitBare(key: string, no: nat)
    requires PlainKey(key)
    ensures SplitKeyVal(key + ":", no) == Ok((key, ""))
  {
    SplitAtColon(key, "", "", no);
    assert key + ":" + "" == key + ":";
  }

  lemma RestOfItem(s: string)
    requires Tight(s, IsSpace)
    ensures IsSeqItem("- " + s) && ItemRest("- " + s) == s
  {
    assert ("- " + s)[1..] == " " + s;
    TrimSpacePad(s, " ");
  }

  // How the parser moves on, one step at a time.

  lemma EntryWithScalar(lines: seq<RawLine>, i: nat, n: nat, key: string, val: string)
    requires i < |lines| && SplitKeyVal(lines[i].content, lines[i].lineNo) == Ok((key, val)) && val != ""
    ensures ParseEntry(lines, i, n) == Ok((key, Parsed(Scalar(ParseScalar(val)), i + 1)))
  {
  }

  lemma EntryWithNothing(lines: seq<RawLine>, i: nat, n: nat, key: string)
    requires i < |lines| && SplitKeyVal(lines[i].content, lines[i].lineNo) == Ok((key, ""))
    requires EndsEntry(lines, i + 1, n)
    ensures ParseEntry(lines, i, n) == Ok((key, Parsed(Scalar(""), i + 1)))
  {
  }

  lemma EntryWithBlock(lines: seq<RawLine>, i: nat, n: nat, m: nat, key: string, p: Parsed<Value>)
    requires i + 1 < |lines| && SplitKeyVal(lines[i].content, lines[i].lineNo) == Ok((key, ""))
    requires lines[i + 1].indent == m > n && !IsSeqItem(lines[i + 1].content)
    requires ParseEntries(lines, i + 1, m, map[]) == Ok(p)
    ensures ParseEntry(lines, i, n) == Ok((key, p))
  {
  }

  lemma EntryWithList(lines: seq<RawLine>, i: nat, n: nat, m: nat, key: string, p: Parsed<Value>)
    requires i + 1 < |lines| && SplitKeyVal(lines[i].content, lines[i].lineNo) == Ok((key, ""))
    requires lines[i + 1].indent == m >= n && IsSeqItem(lines[i + 1].content)
    requires ParseItems(lines, i + 1, m, []) == Ok(p)
    ensures ParseEntry(lines, i, n) == Ok((key, p))
  {
  }

  lemma EntriesStep(
    lines: seq<RawLine>, i: nat, n: nat, m: map<string, Value>, key: string, p: Parsed<Value>, r: Parsed<Value>)
    requires i < |lines| && lines[i].indent == n && !IsSeqItem(lines[i].content)
    requires ParseEntry(lines, i, n) == Ok((key, p)) && p.next <= |lines|
    requires ParseEntries(lines, p.next, n, m[key := p.value]) == Ok(r)
    ensures ParseEntries(lines, i, n, m) == Ok(r)
  {
  }

  lemma ItemWithScalar(lines: seq<RawLine>, i: nat, n: nat, w: string)
    requires i < |lines| && IsSeqItem(lines[i].content) && ItemRest(lines[i].content) == w
    requires w != "" && ':' !in w
    ensures ParseItem(lines, i, n) == Ok(Parsed(Scalar(ParseScalar(w)), i + 1))
  {
  }

  lemma ItemWithNothing(lines: seq<RawLine>, i: nat, n: nat)
    requires i < |lines| && lines[i].content == "-" && EndsItem(lines, i + 1, n)
    ensures ParseItem(lines, i, n) == Ok(Parsed(Null, i + 1))
  {
  }

  lemma ItemWithBlock(lines: seq<RawLine>, i: nat, n: nat, m: nat, p: Parsed<Value>)
    requires i + 1 < |lines| && lines[i].content == "-"
    requires lines[i + 1].indent == m > n && !IsSeqItem(lines[i + 1].content)
    requires ParseEntries(lines, i + 1, m, map[]) == Ok(p)
    ensures ParseItem(lines, i, n) == Ok(p)
  {
  }

  lemma ItemWithList(lines: seq<RawLine>, i: nat, n: nat, m: nat, p: Parsed<Value>)
    requires i + 1 < |lines| && lines[i].content == "-"
    requires lines[i + 1].indent == m > n && IsSeqItem(lines[i + 1].content)
    requires ParseItems(lines, i + 1, m, []) == Ok(p)
    ensures ParseItem(lines, i, n) == Ok(p)
  {
  }

  lemma ItemInline(lines: seq<RawLine>, i: nat, n: nat, j: nat, p: Parsed<Value>)
    requires i < |lines| && IsSeqItem(lines[i].content) && ':' in ItemRest(lines[i].content)
    requires BlockEnd(lines, i + 1, n + 2) == j
    requires ParseEntries(ItemBlock(lines, i, n), 0, n + 2, map[]) == Ok(p)
    ensures ParseItem(lines, i, n) == Ok(Parsed(p.value, j))
  {
  }

  lemma ItemsStep(lines: seq<RawLine>, i: nat, n: nat, acc: seq<Value>, p: Parsed<Value>, r: Parsed<Value>)
    requires i < |lines| && lines[i].indent == n && IsSeqItem(lines[i].content)
    requires ParseItem(lines, i, n) == Ok(p) && p.next <= |lines|
    requires ParseItems(lines, p.next, n, acc + [p.value]) == Ok(r)
    ensures ParseItems(lines, i, n, acc) == Ok(r)
  {
  }

  // What the lines look like where a printed piece starts.

  lemma AtBlock(lines: seq<RawLine>, i: nat, l: Line, es: Entries, n: nat)
    requires Starts(lines, i, [l] + PrintEntries(es, n)) && es.Entry? && GoodEntries(es)
    ensures i + 1 < |lines| && Matches(lines[i], l) && Starts(lines, i + 1, PrintEntries(es, n))
    ensures lines[i + 1].indent == n && !IsSeqItem(lines[i + 1].content)
  {
    StartsSplit(lines, i, [l], PrintEntries(es, n));
    assert Matches(lines[i + 0], [l][0]);
    EntryHead(es.key, es.node, n);
    assert Matches(lines[i + 1 + 0], PrintEntries(es, n)[0]);
  }

  lemma AtList(lines: seq<RawLine>, i: nat, l: Line, items: Items, n: nat)
    requires Starts(lines, i, [l] + PrintItems(items, n)) && items.Item? && GoodItems(items)
    ensures i + 1 < |lines| && Matches(lines[i], l) && Starts(lines, i + 1, PrintItems(items, n))
    ensures lines[i + 1].indent == n && IsSeqItem(lines[i + 1].content)
  {
    StartsSplit(lines, i, [l], PrintItems(items, n));
    assert Matches(lines[i + 0], [l][0]);
    ItemHead(items.node, n);
    assert Matches(lines[i + 1 + 0], PrintItems(items, n)[0]);
  }

  lemma AtEntries(lines: seq<RawLine>, i: nat, es: Entries, n: nat, j: nat)
    requires es.Entry? && GoodEntries(es) && j == i + |PrintEntry(es.key, es.node, n)|
    requires Starts(lines, i, PrintEntries(es, n)) && EndsEntry(lines, i + |PrintEntries(es, n)|, n)
    ensures i < |lines| && lines[i].indent == n && !IsSeqItem(lines[i].content)
    ensures Starts(lines, i, PrintEntry(es.key, es.node, n)) && EndsEntry(lines, j, n)
    ensures Starts(lines, j, PrintEntries(es.more, n)) && j + |PrintEntries(es.more, n)| == i + |PrintEntries(es, n)|
  {
    var ls := PrintEntry(es.key, es.node, n);
    StartsSplit(lines, i, ls, PrintEntries(es.more, n));
    EntryHead(es.key, es.node, n);
    assert Matches(lines[i + 0], ls[0]);
    if es.more.Entry? {
      EntryHead(es.more.key, es.more.node, n);
      assert Matches(lines[j + 0], PrintEntries(es.more, n)[0]);
    }
  }

  lemma AtItems(lines: seq<RawLine>, i: nat, items: Items, n: nat, j: nat)
    requires items.Item? && GoodItems(items) && j == i + |PrintItem(items.node, n)|
    requires Starts(lines, i, PrintItems(items, n)) && EndsEntry(lines, i + |PrintItems(items, n)|, n)
    ensures i < |lines| && lines[i].indent == n && IsSeqItem(lines[i].content)
    ensures Starts(lines, i, PrintItem(items.node, n)) && EndsItem(lines, j, n)
    ensures Starts(lines, j, PrintItems(items.more, n)) && EndsEntry(lines, j + |PrintItems(items.more, n)|, n)
  {
    var ls := PrintItem(items.node, n);
    StartsSplit(lines, i, ls, PrintItems(items.more, n));
    ItemHead(items.node, n);
    assert Matches(lines[i + 0], ls[0]);
    if items.more.Item? {
      ItemHead(items.more.node, n);
      assert Matches(lines[j + 0], PrintItems(items.more, n)[0]);
    }
  }

  lemma {:induction false} EntryParses(lines: seq<RawLine>, i: nat, n: nat, key: string, node: Node, j: nat)
    requires PlainKey(key) && GoodNode(node) && EntryLayout(node)
    requires j == i + |PrintEntry(key, node, n)| && Starts(lines, i, PrintEntry(key, node, n)) && EndsEntry(lines, j, n)
    ensures ParseEntry(lines, i, n) == Ok((key, Parsed(ValueOf(node), j)))
    decreases node, 1
  {
    match node
    case Leaf(text, style) =>
      assert Matches(lines[i + 0], PrintEntry(key, node, n)[0]);
      GoodWritten(text, style);
      SplitInline(key, Written(text, style), lines[i].lineNo);
      EntryWithScalar(lines, i, n, key, Written(text, style));
    case Block(_, _) => BlockEntryParses(lines, i, n, key, node, j);
    case List(_, _) => ListEntryParses(lines, i, n, key, node, j);
    case Missing =>
      assert Matches(lines[i + 0], PrintEntry(key, node, n)[0]);
      SplitBare(key, lines[i].lineNo);
      EntryWithNothing(lines, i, n, key);
  }

  lemma {:induction false} BlockEntryParses(lines: seq<RawLine>, i: nat, n: nat, key: string, node: Node, j: nat)
    requires PlainKey(key) && GoodNode(node) && node.Block? && node.shift > 0
    requires j == i + |PrintEntry(key, node, n)| && Starts(lines, i, PrintEntry(key, node, n)) && EndsEntry(lines, j, n)
    ensures ParseEntry(lines, i, n) == Ok((key, Parsed(ValueOf(node), j)))
    decreases node, 0
  {
    var m := n + node.shift;
    AtBlock(lines, i, Line(n, key + ":"), node.entries, m);
    SplitBare(key, lines[i].lineNo);
    EntriesParse(lines, i + 1, m, node.entries, map[], j);
    EntryWithBlock(lines, i, n, m, key, Parsed(ValueOf(node), j));
  }

  lemma {:induction false} ListEntryParses(lines: seq<RawLine>, i: nat, n: nat, key: string, node: Node, j: nat)
    requires PlainKey(key) && GoodNode(node) && node.List?
    requires j == i + |PrintEntry(key, node, n)| && Starts(lines, i, PrintEntry(key, node, n)) && EndsEntry(lines, j, n)
    ensures ParseEntry(lines, i, n) == Ok((key, Parsed(ValueOf(node), j)))
    decreases node, 0
  {
    var m := n + node.shift;
    AtList(lines, i, Line(n, key + ":"), node.items, m);
    SplitBare(key, lines[i].lineNo);
    ItemsParse(lines, i + 1, m, node.items, [], j);
    assert [] + ItemsValue(node.items) == ItemsValue(node.items);
    EntryWithList(lines, i, n, m, key, Parsed(ValueOf(node), j));
  }

  /** Printed entries are read into the mapping, which goes on behind them. */
  lemma {:induction false} EntriesGoOn(
    lines: seq<RawLine>, i: nat, n: nat, es: Entries, m: map<string, Value>, end: nat)
    requires GoodEntries(es) && end == i + |PrintEntries(es, n)|
    requires Starts(lines, i, PrintEntries(es, n)) && EndsEntry(lines, end, n)
    ensures ParseEntries(lines, i, n, m) == ParseEntries(lines, end, n, EntriesValue(es, m))
    decreases es
  {
    if es.Entry? {
      var j := i + |PrintEntry(es.key, es.node, n)|;
      AtEntries(lines, i, es, n, j);
      EntryParses(lines, i, n, es.key, es.node, j);
      EntriesGoOn(lines, j, n, es.more, m[es.key := ValueOf(es.node)], end);
    }
  }

  lemma {:induction false} EntriesParse(
    lines: seq<RawLine>, i: nat, n: nat, es: Entries, m: map<string, Value>, end: nat)
    requires GoodEntries(es) && end == i + |PrintEntries(es, n)|
    requires Starts(lines, i, PrintEntries(es, n)) && EndsBlock(lines, end, n)
    ensures ParseEntries(lines, i, n, m) == Ok(Parsed(Mapping(EntriesValue(es, m)), end))
    decreases es, 0
  {
    if es.Entry? {
      var j := i + |PrintEntry(es.key, es.node, n)|;
      AtEntries(lines, i, es, n, j);
      EntryParses(lines, i, n, es.key, es.node, j);
      var v := ValueOf(es.node);
      EntriesParse(lines, j, n, es.more, m[es.key := v], end);
      EntriesStep(lines, i, n, m, es.key, Parsed(v, j), Parsed(Mapping(EntriesValue(es.more, m[es.key := v])), end));
    }
  }

  lemma {:induction false} ItemParses(lines: seq<RawLine>, i: nat, n: nat, node: Node, j: nat)
    requires GoodNode(node) && ItemLayout(node)
    requires j == i + |PrintItem(node, n)| && Starts(lines, i, PrintItem(node, n)) && EndsItem(lines, j, n)
    ensures IsSeqItem(lines[i].content)
    ensures ParseItem(lines, i, n) == Ok(Parsed(ValueOf(node), j))
    decreases node, 2
  {
    match node
    case Leaf(text, style) =>
      assert Matches(lines[i + 0], PrintItem(node, n)[0]);
      GoodWritten(text, style);
      RestOfItem(Written(text, style));
      ItemWithScalar(lines, i, n, Written(text, style));
    case Block(entries, shift) =>
      if shift == 0 {
        InlineParses(lines, i, n, entries, j);
      } else {
        BlockItemParses(lines, i, n, entries, shift, j);
      }
    case List(items, shift) => ListItemParses(lines, i, n, items, shift, j);
    case Nil =>
      assert Matches(lines[i + 0], PrintItem(node, n)[0]);
      ItemWithNothing(lines, i, n);
  }

  lemma {:induction false} BlockItemParses(lines: seq<RawLine>, i: nat, n: nat, es: Entries, shift: nat, j: nat)
    requires es.Entry? && GoodEntries(es) && shift > 0 && j == i + |PrintItem(Block(es, shift), n)|
    requires Starts(lines, i, PrintItem(Block(es, shift), n)) && EndsItem(lines, j, n)
    ensures IsSeqItem(lines[i].content)
    ensures ParseItem(lines, i, n) == Ok(Parsed(Mapping(EntriesValue(es, map[])), j))
    decreases es, 1
  {
    AtBlock(lines, i, Line(n, "-"), es, n + shift);
    EntriesParse(lines, i + 1, n + shift, es, map[], j);
    ItemWithBlock(lines, i, n, n + shift, Parsed(Mapping(EntriesValue(es, map[])), j));
  }

  lemma {:induction false} ListItemParses(lines: seq<RawLine>, i: nat, n: nat, items: Items, shift: nat, j: nat)
    requires items.Item? && GoodItems(items) && shift > 0 && j == i + |PrintItem(List(items, shift), n)|
    requires Starts(lines, i, PrintItem(List(items, shift), n)) && EndsItem(lines, j, n)
    ensures IsSeqItem(lines[i].content)
    ensures ParseItem(lines, i, n) == Ok(Parsed(Sequence(ItemsValue(items)), j))
    decreases items, 1
  {
    AtList(lines, i, Line(n, "-"), items, n + shift);
    ItemsParse(lines, i + 1, n + shift, items, [], j);
    assert [] + ItemsValue(items) == ItemsValue(items);
    ItemWithList(lines, i, n, n + shift, Parsed(Sequence(ItemsValue(items)), j));
  }

  /** Where the copied block of an item written on the line of its dash ends. */
  lemma InlineExtent(lines: seq<RawLine>, i: nat, n: nat, printed: seq<Line>)
    requires printed != [] && Starts(lines, i, printed) && GoodLines(printed[1..], n + 2)
    requires EndsItem(lines, i + |printed|, n)
    ensures BlockEnd(lines, i + 1, n + 2) == i + |printed|
  {
    var j := i + |printed|;
    forall k | i + 1 <= k < j ensures lines[k].indent >= n + 2 {
      assert Matches(lines[i + (k - i)], printed[k - i]) && printed[k - i] == printed[1..][k - i - 1];
    }
    BlockEndIs(lines, i + 1, n + 2, j);
  }

  lemma InlineHead(es: Entries, n: nat)
    requires es.Entry? && GoodEntries(es)
    ensures var ls := PrintEntries(es, n + 2);
            && ls != [] && ls[0].indent == n + 2 && ':' in ls[0].content && Tight(ls[0].content, IsSpace)
            && PrintItem(Block(es, 0), n) == [Line(n, "- " + ls[0].content)] + ls[1..]
  {
    EntryHead(es.key, es.node, n + 2);
    assert PrintEntries(es, n + 2)[0] == PrintEntry(es.key, es.node, n + 2)[0];
  }

  /** The copied block of such an item is its mapping, printed two columns further in. */
  lemma InlineBlock(lines: seq<RawLine>, i: nat, n: nat, ls: seq<Line>, printed: seq<Line>)
    requires ls != [] && ls[0].indent == n + 2 && Tight(ls[0].content, IsSpace)
    requires printed == [Line(n, "- " + ls[0].content)] + ls[1..] && Starts(lines, i, printed)
    requires BlockEnd(lines, i + 1, n + 2) == i + |printed|
    ensures IsSeqItem(lines[i].content) && ItemRest(lines[i].content) == ls[0].content
    ensures Starts(ItemBlock(lines, i, n), 0, ls) && |ItemBlock(lines, i, n)| == |ls|
  {
    RestOfItem(ls[0].content);
    assert Matches(lines[i + 0], printed[0]);
    var sub := ItemBlock(lines, i, n);
    forall k | 0 <= k < |ls| ensures Matches(sub[0 + k], ls[k]) {
      assert Matches(lines[i + k], printed[k]);
    }
  }

  lemma InlineFacts(lines: seq<RawLine>, i: nat, n: nat, es: Entries, j: nat) returns (sub: seq<RawLine>)
    requires es.Entry? && GoodEntries(es) && j == i + |PrintItem(Block(es, 0), n)|
    requires Starts(lines, i, PrintItem(Block(es, 0), n)) && EndsItem(lines, j, n)
    ensures IsSeqItem(lines[i].content) && ':' in ItemRest(lines[i].content)
    ensures BlockEnd(lines, i + 1, n + 2) == j && sub == ItemBlock(lines, i, n)
    ensures Starts(sub, 0, PrintEntries(es, n + 2)) && |sub| == |PrintEntries(es, n + 2)|
  {
    var ls, printed := PrintEntries(es, n + 2), PrintItem(Block(es, 0), n);
    ItemLines(Block(es, 0), n);
    InlineExtent(lines, i, n, printed);
    InlineHead(es, n);
    InlineBlock(lines, i, n, ls, printed);
    sub := ItemBlock(lines, i, n);
  }

  /** A mapping that starts on the line of its dash is copied out, re-indented, and parsed on its own. */
  lemma {:induction false} InlineParses(lines: seq<RawLine>, i: nat, n: nat, es: Entries, j: nat)
    requires es.Entry? && GoodEntries(es) && j == i + |PrintItem(Block(es, 0), n)|
    requires Starts(lines, i, PrintItem(Block(es, 0), n)) && EndsItem(lines, j, n)
    ensures IsSeqItem(lines[i].content)
    ensures ParseItem(lines, i, n) == Ok(Parsed(Mapping(EntriesValue(es, map[])), j))
    decreases es, 1
  {
    var sub := InlineFacts(lines, i, n, es, j);
    EntriesParse(sub, 0, n + 2, es, map[], |sub|);
    ItemInline(lines, i, n, j, Parsed(Mapping(EntriesValue(es, map[])), |sub|));
  }

  lemma {:induction false} BlockEndIs(lines: seq<RawLine>, i: nat, indent: nat, j: nat)
    requires i <= j <= |lines| && (forall k :: i <= k < j ==> lines[k].indent >= indent)
    requires j < |lines| ==> lines[j].indent < indent
    ensures BlockEnd(lines, i, indent) == j
    decreases j - i
  {
    if i < j {
      BlockEndIs(lines, i + 1, indent, j);
    }
  }

  lemma {:induction false} ItemsParse(lines: seq<RawLine>, i: nat, n: nat, items: Items, acc: seq<Value>, end: nat)
    requires GoodItems(items) && end == i + |PrintItems(items, n)|
    requires Starts(lines, i, PrintItems(items, n)) && EndsEntry(lines, end, n)
    ensures ParseItems(lines, i, n, acc) == Ok(Parsed(Sequence(acc + ItemsValue(items)), end))
    decreases items, 0
  {
    if items.NoItem? {
      assert acc + [] == acc;
    } else {
      var v, j := ValueOf(items.node), i + |PrintItem(items.node, n)|;
      AtItems(lines, i, items, n, j);
      ItemParses(lines, i, n, items.node, j);
      ItemsParse(lines, j, n, items.more, acc + [v], end);
      assert acc + [v] + ItemsValue(items.more) == acc + ItemsValue(items);
      ItemsStep(lines, i, n, acc, Parsed(v, j), Parsed(Sequence(acc + ItemsValue(items)), end));
    }
  }

  // ---------------------------------------------------------------- which trees there are

  function Keys(es: Entries): set<string> {
    if es.NoEntry? then {} else {es.key} + Keys(es.more)
  }

  predicate DistinctKeys(es: Entries) {
    es.Entry? ==> es.key !in Keys(es.more) && DistinctKeys(es.more)
  }

  /** One of the entries has that key and that node. */
  predicate Has(es: Entries, key: string, node: Node) {
    es.Entry? && ((es.key == key && es.node == node) || Has(es.more, key, node))
  }

  lemma {:induction false} KeysKept(es: Entries, m: map<string, Value>)
    requires DistinctKeys(es) && Keys(es) !! m.Keys
    ensures EntriesValue(es, m).Keys == m.Keys + Keys(es)
    ensures forall key :: key in m ==> EntriesValue(es, m)[key] == m[key]
    decreases es
  {
    if es.Entry? {
      KeysKept(es.more, m[es.key := ValueOf(es.node)]);
    }
  }

  /** Of entries with distinct keys none is lost: the tree holds each key, with that entry's value. */
  lemma {:induction false} EntryKept(es: Entries, m: map<string, Value>, key: string, node: Node)
    requires DistinctKeys(es) && Keys(es) !! m.Keys && Has(es, key, node)
    ensures key in EntriesValue(es, m) && EntriesValue(es, m)[key] == ValueOf(node)
    decreases es
  {
    var next := m[es.key := ValueOf(es.node)];
    KeysKept(es.more, next);
    if es.key == key && es.node == node {
    } else {
      EntryKept(es.more, next, key, node);
    }
  }

  // No block repeats a key, at any depth.

  predicate DistinctNode(node: Node) {
    match node
    case Block(entries, _) => DistinctKeys(entries) && DistinctEntries(entries)
    case List(items, _) => DistinctItems(items)
    case _ => true
  }

  predicate DistinctEntries(es: Entries) {
    es.Entry? ==> DistinctNode(es.node) && DistinctEntries(es.more)
  }

  predicate DistinctItems(items: Items) {
    items.Item? ==> DistinctNode(items.node) && DistinctItems(items.more)
  }

  // The tree holds what was written, at any depth: a mapping the keys of its block and no others,
  // each with what was written under it, and a sequence its items in order.

  predicate Holds(v: Value, node: Node)
    decreases node, 1
  {
    match node
    case Leaf(text, _) => v == Scalar(text)
    case Block(entries, _) => v.Mapping? && HoldsExactly(v.entries, entries)
    case List(items, _) => v.Sequence? && HoldsItems(v.items, items)
    case Missing => v == Scalar("")
    case Nil => v == Null
  }

  predicate HoldsExactly(m: map<string, Value>, es: Entries)
    decreases es, 1
  {
    m.Keys == Keys(es) && HoldsEntries(m, es)
  }

  predicate HoldsEntries(m: map<string, Value>, es: Entries)
    decreases es, 0
  {
    es.Entry? ==> es.key in m && Holds(m[es.key], es.node) && HoldsEntries(m, es.more)
  }

  predicate HoldsItems(vs: seq<Value>, items: Items)
    decreases items
  {
    if items.NoItem? then vs == []
    else vs != [] && Holds(vs[0], items.node) && HoldsItems(vs[1..], items.more)
  }

  lemma {:induction false} NodeHeld(node: Node)
    requires DistinctNode(node)
    ensures Holds(ValueOf(node), node)
    decreases node, 1
  {
    match node
    case Block(entries, _) => EntriesHeld(entries);
    case List(items, _) => ItemsHeld(items);
    case _ =>
  }

  lemma {:induction false} EntriesHeld(es: Entries)
    requires DistinctKeys(es) && DistinctEntries(es)
    ensures HoldsExactly(EntriesValue(es, map[]), es)
    decreases es, 1
  {
    KeysKept(es, map[]);
    MoreHeld(es, map[]);
  }

  lemma {:induction false} MoreHeld(es: Entries, m: map<string, Value>)
    requires DistinctKeys(es) && DistinctEntries(es) && Keys(es) !! m.Keys
    ensures HoldsEntries(EntriesValue(es, m), es)
    decreases es, 0
  {
    if es.Entry? {
      NodeHeld(es.node);
      KeysKept(es.more, m[es.key := ValueOf(es.node)]);
      MoreHeld(es.more, m[es.key := ValueOf(es.node)]);
    }
  }

  lemma {:induction false} ItemsHeld(items: Items)
    requires DistinctItems(items)
    ensures HoldsItems(ItemsValue(items), items)
    decreases items
  {
    if items.Item? {
      NodeHeld(items.node);
      ItemsHeld(items.more);
      assert ItemsValue(items)[1..] == ItemsValue(items.more);
    }
  }

  /** The trees a document can hold: no empty collections, plain keys, scalars of one line that some quotes can hold. */
  predicate Printable(v: Value) {
    match v
    case Null => true
    case Scalar(text) => '\n' !in text && ('"' !in text || '\'' !in text)
    case Mapping(m) => m != map[] && forall key | key in m :: PlainKey(key) && m[key] != Null && Printable(m[key])
    case Sequence(items) => items != [] && forall k | 0 <= k < |items| :: ItemText(items[k]) && Printable(items[k])
  }

  predicate ItemText(v: Value) {
    v.Scalar? ==> ':' !in v.text
  }

  /** Every such tree has a layout, good both under a key and as a list item. */
  lemma {:induction false} LayoutExists(v: Value) returns (node: Node)
    requires Printable(v)
    ensures GoodNode(node) && ValueOf(node) == v
    ensures (ItemText(v) ==> ItemLayout(node)) && (v != Null ==> EntryLayout(node))
    decreases v
  {
    match v
    case Null => node := Nil;
    case Scalar(text) => node := Leaf(text, if '"' in text then Single else Double);
    case Mapping(m) =>
      var es := EntriesExist(v, m, m.Keys, map[]);
      assert EntriesValue(es, map[]) == m;
      node := Block(es, 2);
    case Sequence(items) =>
      var ns := ItemsExist(v, items);
      node := List(ns, 2);
  }

  lemma {:induction false} EntriesExist(v: Value, m: map<string, Value>, keys: set<string>, done: map<string, Value>)
    returns (es: Entries)
    requires keys <= m.Keys
    requires forall key :: key in keys ==> PlainKey(key) && m[key] != Null && Printable(m[key]) && m[key] < v
    ensures GoodEntries(es) && (keys != {} ==> es.Entry?)
    ensures EntriesValue(es, done).Keys == done.Keys + keys
    ensures forall key :: key in EntriesValue(es, done) ==>
                            EntriesValue(es, done)[key] == if key in keys then m[key] else done[key]
    decreases v, keys
  {
    if keys == {} {
      es := NoEntry;
    } else {
      var key :| key in keys;
      var node := LayoutExists(m[key]);
      var more := EntriesExist(v, m, keys - {key}, done[key := m[key]]);
      es := Entry(key, node, more);
    }
  }

  lemma {:induction false} ItemsExist(v: Value, items: seq<Value>) returns (ns: Items)
    requires forall k :: 0 <= k < |items| ==> ItemText(items[k]) && Printable(items[k]) && items[k] < v
    ensures GoodItems(ns) && (items != [] ==> ns.Item?) && ItemsValue(ns) == items
    decreases v, |items|
  {
    if items == [] {
      ns := NoItem;
    } else {
      var node := LayoutExists(items[0]);
      var more := ItemsExist(v, items[1..]);
      ns := Item(node, more);
    }
  }
}
