/**
  Which documents the parser rejects, and with which error. The descent calls itself for every block
  and copies the lines of items; here one pass over the lines, with a stack of open blocks and
  nothing but the text of each line to look at, finds the same first error.
 */
module YamlFaults {
  import opened Backend
  import opened Text
  import opened Yaml

  // ---------------------------------------------------------------- the text of one line

  /** A dash with nothing or a space behind it. */
  predicate Dashed(s: string) {
    s == "-" || "- " <= s
  }

  ghost predicate FirstColon(s: string, k: nat) {
    k < |s| && s[k] == ':' && forall j :: 0 <= j < k ==> s[j] != ':'
  }

  /** There is a colon, and nothing but spaces before the first. */
  ghost predicate SpacesBeforeColon(s: string) {
    exists k: nat :: FirstColon(s, k) && forall j :: 0 <= j < k ==> IsSpace(s[j])
  }

  /** There is a colon, and nothing but spaces after the first. */
  ghost predicate NothingAfterColon(s: string) {
    exists k: nat :: FirstColon(s, k) && forall j :: k < j < |s| ==> IsSpace(s[j])
  }

  /** What is wrong with a line that should be an entry. */
  ghost function EntryFault(s: string, no: nat): Option<Error> {
    if ':' !in s then Some(NotAMapping(no)) else if SpacesBeforeColon(s) then Some(EmptyKey(no)) else None
  }

  lemma {:induction false} TrimLeftNothing(s: string, p: char -> bool)
    ensures TrimLeft(s, p) == "" <==> All(s, p)
    ensures TrimLeft(s, p) != "" ==> !p(TrimLeft(s, p)[0])
  {
    if s != [] && p(s[0]) {
      TrimLeftNothing(s[1..], p);
      assert All(s, p) <==> All(s[1..], p) by {
        assert forall i :: 0 < i < |s| ==> s[i] == s[1..][i - 1];
        assert forall i :: 0 <= i < |s| - 1 ==> s[1..][i] == s[i + 1];
      }
    }
  }

  lemma {:induction false} TrimRightNothing(s: string, p: char -> bool)
    requires s != "" && !p(s[0])
    ensures TrimRight(s, p) != ""
  {
    if p(s[|s| - 1]) {
      TrimRightNothing(s[..|s| - 1], p);
    }
  }

  lemma TrimSpaceNothing(s: string)
    ensures TrimSpace(s) == "" <==> All(s, IsSpace)
  {
    TrimLeftNothing(s, IsSpace);
    if TrimLeft(s, IsSpace) != "" {
      TrimRightNothing(TrimLeft(s, IsSpace), IsSpace);
    }
  }

  /**
    An entry is an error exactly if it has no colon, or only spaces before the first; it has no value
    on its line exactly if only spaces follow the first.
   */
  lemma SplitFault(s: string, no: nat)
    ensures SplitKeyVal(s, no) == Err(NotAMapping(no)) <==> ':' !in s
    ensures SplitKeyVal(s, no) == Err(EmptyKey(no)) <==> SpacesBeforeColon(s)
    ensures EntryFault(s, no) == if SplitKeyVal(s, no).Err? then Some(SplitKeyVal(s, no).error) else None
    ensures SplitKeyVal(s, no).Ok? ==> (SplitKeyVal(s, no).value.1 == "" <==> NothingAfterColon(s))
  {
    var k := IndexOf(s, ':');
    if k != -1 {
      hide TrimSpace, IsSpace;
      TrimSpaceNothing(s[..k]);
      TrimSpaceNothing(s[k + 1..]);
      assert forall j :: 0 <= j < k ==> s[j] == s[..k][j];
      AroundColon(s, k);
    }
  }

  lemma AroundColon(s: string, k: nat)
    requires FirstColon(s, k)
    ensures SpacesBeforeColon(s) <==> All(s[..k], IsSpace)
    ensures NothingAfterColon(s) <==> All(s[k + 1..], IsSpace)
  {
    hide IsSpace;
    assert forall x: nat :: FirstColon(s, x) ==> x == k;
    assert forall j :: 0 <= j < k ==> s[j] == s[..k][j];
    AllFrom(s, k + 1, IsSpace);
  }

  lemma AllFrom(s: string, k: nat, p: char -> bool)
    requires k <= |s|
    ensures All(s[k..], p) <==> forall j :: k <= j < |s| ==> p(s[j])
  {
    var t := s[k..];
    if All(t, p) {
      forall j | k <= j < |s|
        ensures p(s[j])
      {
        assert s[j] == t[j - k];
      }
    }
  }

  // ---------------------------------------------------------------- keys and scalars

  /** t with spaces around it, itself without any at its ends. */
  ghost predicate Padded(s: string, a: string, t: string, b: string) {
    s == a + t + b && All(a, IsSpace) && All(b, IsSpace) && Tight(t, IsSpace)
  }

  lemma {:induction false} TrimLeftAt(s: string, p: char -> bool) returns (k: nat)
    ensures k <= |s| && TrimLeft(s, p) == s[k..] && forall j :: 0 <= j < k ==> p(s[j])
  {
    if s != [] && p(s[0]) {
      var n := TrimLeftAt(s[1..], p);
      k := n + 1;
      assert s[1..][n..] == s[k..];
      assert forall j :: 0 < j < k ==> s[j] == s[1..][j - 1];
    } else {
      k := 0;
    }
  }

  lemma {:induction false} TrimRightAt(s: string, p: char -> bool) returns (k: nat)
    ensures k <= |s| && TrimRight(s, p) == s[..k]
    ensures (forall j :: k <= j < |s| ==> p(s[j])) && (k > 0 ==> !p(s[k - 1]))
  {
    if s != [] && p(s[|s| - 1]) {
      k := TrimRightAt(s[..|s| - 1], p);
      assert s[..|s| - 1][..k] == s[..k];
      assert forall j :: 0 <= j < |s| - 1 ==> s[..|s| - 1][j] == s[j];
    } else {
      k := |s|;
      assert s[..k] == s;
    }
  }

  lemma TrimParts(s: string) returns (a: string, b: string)
    ensures Padded(s, a, TrimSpace(s), b)
  {
    hide IsSpace;
    var k := TrimLeftAt(s, IsSpace);
    TrimLeftNothing(s, IsSpace);
    var t := s[k..];
    var n := TrimRightAt(t, IsSpace);
    a, b := s[..k], t[n..];
    assert s == a + t && t == t[..n] + b;
    assert s == a + t[..n] + b;
  }

  lemma PaddedTrims(s: string, a: string, t: string, b: string)
    requires Padded(s, a, t, b)
    ensures TrimSpace(s) == t
  {
    hide IsSpace;
    assert s == a + (t + b);
    TrimLeftPad(t + b, a, IsSpace);
    if t == "" {
      TrimLeftPad("", b, IsSpace);
      assert t + b == b + "";
    } else {
      assert (t + b)[0] == t[0];
      TrimRightPad(t, b, IsSpace);
    }
  }

  /** The text in quotes of one kind. */
  function Quoted(q: char, x: string): string {
    [q] + x + [q]
  }

  /** A scalar is what is written, without the spaces around it, and without its quotes if it is in matching ones. */
  lemma ScalarExact(s: string, a: string, t: string, b: string, x: string)
    requires Padded(s, a, t, b)
    ensures t == Quoted('"', x) || t == Quoted('\'', x) ==> ParseScalar(s) == x
    ensures (forall y :: t != Quoted('"', y) && t != Quoted('\'', y)) ==> ParseScalar(s) == t
  {
    PaddedTrims(s, a, t, b);
    hide Padded, TrimSpace, Quoted;
    InQuotes(t, '"', x);
    InQuotes(t, '\'', x);
    if |t| >= 2 {
      InQuotes(t, '"', t[1..|t| - 1]);
      InQuotes(t, '\'', t[1..|t| - 1]);
    }
  }

  lemma InQuotes(t: string, q: char, x: string)
    ensures t == Quoted(q, x) <==> |t| >= 2 && t[0] == q == t[|t| - 1] && t[1..|t| - 1] == x
  {
    if |t| >= 2 {
      assert t == [t[0]] + t[1..|t| - 1] + [t[|t| - 1]];
    }
  }

  /** The text of an entry: a key, a colon and a value, with spaces anywhere around them. */
  ghost predicate EntryText(s: string, key: string, val: string, before: string, after: string, x: seq<string>) {
    && |x| == 4 && s == before + ":" + after && Padded(before, x[0], key, x[1]) && Padded(after, x[2], val, x[3])
    && key != "" && ':' !in before
  }

  /** An entry is read as that key and that value if and only if its text is made of them. */
  lemma SplitIff(s: string, no: nat, key: string, val: string)
    ensures SplitKeyVal(s, no) == Ok((key, val)) <==>
            exists before, after, x :: EntryText(s, key, val, before, after, x)
  {
    hide SplitKeyVal, EntryText;
    forall before, after, x | EntryText(s, key, val, before, after, x)
      ensures SplitKeyVal(s, no) == Ok((key, val))
    {
      TextSplits(s, no, key, val, before, after, x);
    }
    if SplitKeyVal(s, no) == Ok((key, val)) {
      var before, after, x := SplitText(s, no, key, val);
    }
  }

  lemma TextSplits(s: string, no: nat, key: string, val: string, before: string, after: string, x: seq<string>)
    requires EntryText(s, key, val, before, after, x)
    ensures SplitKeyVal(s, no) == Ok((key, val))
  {
    IndexOfAfter(before, ':', after);
    PaddedTrims(before, x[0], key, x[1]);
    PaddedTrims(after, x[2], val, x[3]);
    hide Padded, TrimSpace;
    assert s[..|before|] == before && s[|before| + 1..] == after;
  }

  lemma SplitText(s: string, no: nat, key: string, val: string) returns (before: string, after: string, x: seq<string>)
    requires SplitKeyVal(s, no) == Ok((key, val))
    ensures EntryText(s, key, val, before, after, x)
  {
    hide Padded, TrimSpace;
    var k := IndexOf(s, ':');
    before, after := s[..k], s[k + 1..];
    var a, b := TrimParts(before);
    var c, d := TrimParts(after);
    x := [a, b, c, d];
    assert s == before + ":" + after;
  }

  // ---------------------------------------------------------------- one pass with a stack

  /** The open blocks, innermost first; an inline one began on the line of a dash, or is the document. */
  datatype Frames = Ground | Frame(indent: nat, list: bool, inline: bool, under: Frames)

  /** Where a line belongs: in a block; nowhere in an inline block, whose lines are all skipped; or nowhere. */
  datatype Spot = In(frames: Frames) | Skip(indent: nat, frames: Frames) | Lost

  function Find(f: Frames, indent: nat, list: bool): (s: Spot)
    ensures s.Skip? ==> s.indent <= indent
    ensures s.In? ==> s.frames.Frame? && s.frames.indent == indent && s.frames.list == list
  {
    match f
    case Ground => Lost
    case Frame(n, l, inline, under) =>
      if n == indent && l == list then In(f)
      else if inline && indent >= n then Skip(n, under)
      else Find(under, indent, list)
  }

  /** A new block where one is expected and the line can begin it. */
  function Settle(f: Frames, expects: bool, indent: nat, list: bool): (s: Spot)
    ensures s.Skip? ==> s.indent <= indent
    ensures s.In? ==> s.frames.Frame? && s.frames.indent == indent && s.frames.list == list
  {
    if expects && f.Frame? && (indent > f.indent || (indent == f.indent && list && !f.list)) then
      In(Frame(indent, list, false, f))
    else Find(f, indent, list)
  }

  /** The first error from line i on. */
  ghost function FirstFault(lines: seq<RawLine>, i: nat, f: Frames, expects: bool): Option<Error>
    requires i <= |lines|
    decreases |lines| - i
  {
    if i == |lines| then None
    else
      var l := lines[i];
      match Settle(f, expects, l.indent, Dashed(l.content))
      case Lost => None
      case Skip(n, under) => FirstFault(lines, BlockEnd(lines, i, n), under, false)
      case In(g) => if Dashed(l.content) then ItemOn(lines, i, g) else EntryOn(lines, i, g)
  }

  ghost function EntryOn(lines: seq<RawLine>, i: nat, f: Frames): Option<Error>
    requires i < |lines|
    decreases |lines| - i, 0
  {
    var e := EntryFault(lines[i].content, lines[i].lineNo);
    if e.Some? then e else FirstFault(lines, i + 1, f, NothingAfterColon(lines[i].content))
  }

  /** An entry behind a dash opens a block two columns further in; a dash behind a dash is not understood. */
  ghost function ItemOn(lines: seq<RawLine>, i: nat, f: Frames): Option<Error>
    requires i < |lines| && Dashed(lines[i].content)
    decreases |lines| - i, 0
  {
    var n, rest := lines[i].indent + 2, TrimSpace(lines[i].content[1..]);
    if ':' !in rest then FirstFault(lines, i + 1, f, rest == "")
    else if Dashed(rest) then FirstFault(lines, BlockEnd(lines, i + 1, n), f, false)
    else if SpacesBeforeColon(rest) then Some(EmptyKey(lines[i].lineNo))
    else FirstFault(lines, i + 1, Frame(n, false, true, f), NothingAfterColon(rest))
  }

  // ---------------------------------------------------------------- lines copied out of an item

  /** The blocks of a over those of b. */
  function Onto(a: Frames, b: Frames): Frames {
    match a
    case Ground => b
    case Frame(n, l, inline, under) => Frame(n, l, inline, Onto(under, b))
  }

  /** Blocks over an inline one, all indented at least as far. */
  ghost predicate Barred(a: Frames, n: nat) {
    a.Frame? && a.indent >= n && if a.under.Ground? then a.inline && a.indent == n else Barred(a.under, n)
  }

  /** What is found in a is found in a over b, except that skipping past the last block of a leads to b. */
  lemma {:induction false} FindWithin(a: Frames, b: Frames, n: nat, indent: nat, list: bool)
    requires Barred(a, n) && indent >= n
    ensures var s := Find(a, indent, list);
            && !s.Lost?
            && (s.In? ==> Barred(s.frames, n) && Find(Onto(a, b), indent, list) == In(Onto(s.frames, b)))
            && (s.Skip? ==>
                  && Find(Onto(a, b), indent, list) == Skip(s.indent, Onto(s.frames, b))
                  && ((Barred(s.frames, n) && s.indent >= n) || (s.frames == Ground && s.indent == n)))
  {
    if !a.under.Ground? {
      FindWithin(a.under, b, n, indent, list);
    }
  }

  lemma {:induction false} FindBelow(a: Frames, b: Frames, n: nat, indent: nat, list: bool)
    requires Barred(a, n) && indent < n
    ensures Find(Onto(a, b), indent, list) == Find(b, indent, list)
  {
    if !a.under.Ground? {
      FindBelow(a.under, b, n, indent, list);
    } else {
      assert Onto(a.under, b) == b;
    }
  }

  lemma {:induction false} EndApart(lines: seq<RawLine>, j: nat, e: nat, sub: seq<RawLine>, k: nat, n: nat)
    requires j <= e <= |lines| && k <= |sub| && sub[k..] == lines[j..e]
    requires e < |lines| ==> lines[e].indent < n
    ensures BlockEnd(lines, j, n) <= e && BlockEnd(sub, k, n) - k == BlockEnd(lines, j, n) - j
    ensures sub[BlockEnd(sub, k, n)..] == lines[BlockEnd(lines, j, n)..e]
    decreases e - j
  {
    if j < e {
      assert sub[k] == sub[k..][0] && lines[j] == lines[j..e][0];
      assert sub[k + 1..] == sub[k..][1..] && lines[j + 1..e] == lines[j..e][1..];
      EndApart(lines, j + 1, e, sub, k + 1, n);
    } else {
      assert k == |sub|;
    }
  }

  ghost predicate Cut(lines: seq<RawLine>, j: nat, e: nat, sub: seq<RawLine>, k: nat, n: nat) {
    && j <= e <= |lines| && k <= |sub| && sub[k..] == lines[j..e]
    && (forall x :: j <= x < e ==> lines[x].indent >= n) && (e < |lines| ==> lines[e].indent < n)
  }

  lemma CutNext(lines: seq<RawLine>, j: nat, e: nat, sub: seq<RawLine>, k: nat, n: nat)
    requires Cut(lines, j, e, sub, k, n) && j < e
    ensures k < |sub| && sub[k] == lines[j] && Cut(lines, j + 1, e, sub, k + 1, n)
  {
    assert sub[k] == sub[k..][0] && lines[j] == lines[j..e][0];
    assert sub[k + 1..] == sub[k..][1..] && lines[j + 1..e] == lines[j..e][1..];
  }

  lemma CutRange(lines: seq<RawLine>, j: nat, e: nat, sub: seq<RawLine>, k: nat, n: nat)
    requires Cut(lines, j, e, sub, k, n)
    ensures j <= e <= |lines| && k <= |sub| && (j < e ==> lines[j].indent >= n)
  {
  }

  lemma CutSkip(lines: seq<RawLine>, j: nat, e: nat, sub: seq<RawLine>, k: nat, n: nat, m: nat)
    requires Cut(lines, j, e, sub, k, n) && m >= n
    ensures Cut(lines, BlockEnd(lines, j, m), e, sub, BlockEnd(sub, k, m), n)
    ensures m == n ==> BlockEnd(lines, j, m) == e && BlockEnd(sub, k, m) == |sub|
  {
    EndApart(lines, j, e, sub, k, m);
  }

  /** The first error among the lines of an inline block, and if there is none, the first behind it. */
  ghost function Else(e: Option<Error>, f: Option<Error>): Option<Error> {
    if e.Some? then e else f
  }

  lemma BlockOver(lines: seq<RawLine>, e: nat, n: nat, a: Frames, b: Frames, expects: bool)
    requires e <= |lines| && (e < |lines| ==> lines[e].indent < n) && Barred(a, n)
    ensures FirstFault(lines, e, Onto(a, b), expects) == FirstFault(lines, e, b, false)
  {
    if e < |lines| {
      hide EntryOn, ItemOn, Dashed;
      FindBelow(a, b, n, lines[e].indent, Dashed(lines[e].content));
    }
  }

  lemma {:induction false} ScanApart(
    lines: seq<RawLine>, j: nat, e: nat, n: nat, sub: seq<RawLine>, k: nat, a: Frames, b: Frames, expects: bool)
    requires Cut(lines, j, e, sub, k, n) && Barred(a, n)
    ensures FirstFault(lines, j, Onto(a, b), expects) ==
            Else(FirstFault(sub, k, a, expects), FirstFault(lines, e, b, false))
    decreases e - j, 1
  {
    if j == e {
      BlockOver(lines, e, n, a, b, expects);
    } else {
      CutNext(lines, j, e, sub, k, n);
      hide EntryOn, ItemOn, Dashed;
      var l := lines[j];
      var s := Settle(a, expects, l.indent, Dashed(l.content));
      FindWithin(a, b, n, l.indent, Dashed(l.content));
      match s
      case Skip(m, u) =>
        CutSkip(lines, j, e, sub, k, n, m);
        if u == Ground {
          assert Onto(u, b) == b;
        } else {
          ScanApart(lines, BlockEnd(lines, j, m), e, n, sub, BlockEnd(sub, k, m), u, b, false);
        }
      case In(g) =>
        InApart(lines, j, e, n, sub, k, g, b);
    }
  }

  lemma {:induction false} InApart(
    lines: seq<RawLine>, j: nat, e: nat, n: nat, sub: seq<RawLine>, k: nat, g: Frames, b: Frames)
    requires Cut(lines, j, e, sub, k, n) && j < e && k < |sub| && sub[k] == lines[j] && Barred(g, n)
    ensures !Dashed(lines[j].content) ==>
              EntryOn(lines, j, Onto(g, b)) == Else(EntryOn(sub, k, g), FirstFault(lines, e, b, false))
    ensures Dashed(lines[j].content) ==>
              ItemOn(lines, j, Onto(g, b)) == Else(ItemOn(sub, k, g), FirstFault(lines, e, b, false))
    decreases e - j, 0
  {
    hide FirstFault, Find, Settle, Cut, TrimSpace, SpacesBeforeColon, NothingAfterColon, BlockEnd;
    CutRange(lines, j, e, sub, k, n);
    CutNext(lines, j, e, sub, k, n);
    if !Dashed(lines[j].content) {
      ScanApart(lines, j + 1, e, n, sub, k + 1, g, b, NothingAfterColon(lines[j].content));
    } else {
      var m, rest := lines[j].indent + 2, TrimSpace(lines[j].content[1..]);
      if ':' !in rest {
        ScanApart(lines, j + 1, e, n, sub, k + 1, g, b, rest == "");
      } else if Dashed(rest) {
        CutSkip(lines, j + 1, e, sub, k + 1, n, m);
        assert Cut(lines, BlockEnd(lines, j + 1, m), e, sub, BlockEnd(sub, k + 1, m), n);
        CutRange(lines, BlockEnd(lines, j + 1, m), e, sub, BlockEnd(sub, k + 1, m), n);
        ScanApart(lines, BlockEnd(lines, j + 1, m), e, n, sub, BlockEnd(sub, k + 1, m), g, b, false);
      } else {
        assert Onto(Frame(m, false, true, g), b) == Frame(m, false, true, Onto(g, b));
        assert Barred(Frame(m, false, true, g), n);
        ScanApart(lines, j + 1, e, n, sub, k + 1, Frame(m, false, true, g), b, NothingAfterColon(rest));
      }
    }
  }

  // ---------------------------------------------------------------- one line

  /** Where line i does not belong to a block that is not inline, the block is over. */
  lemma Closes(lines: seq<RawLine>, i: nat, n: nat, list: bool, under: Frames)
    requires i <= |lines| && (i < |lines| ==> lines[i].indent != n || Dashed(lines[i].content) != list)
    ensures FirstFault(lines, i, Frame(n, list, false, under), false) == FirstFault(lines, i, under, false)
  {
    hide EntryOn, ItemOn, Dashed;
  }

  /** A line where a block is expected, and that can begin one, begins it. */
  lemma Begins(lines: seq<RawLine>, i: nat, f: Frames)
    requires i < |lines| && f.Frame?
    requires lines[i].indent > f.indent || (lines[i].indent == f.indent && Dashed(lines[i].content) && !f.list)
    ensures FirstFault(lines, i, f, true)
         == FirstFault(lines, i, Frame(lines[i].indent, Dashed(lines[i].content), false, f), false)
  {
    hide EntryOn, ItemOn, Dashed;
  }

  lemma NoneBegins(lines: seq<RawLine>, i: nat, f: Frames)
    requires i <= |lines| && f.Frame?
    requires i < |lines| ==> lines[i].indent <= f.indent
    requires i < |lines| && lines[i].indent == f.indent ==> !Dashed(lines[i].content) || f.list
    ensures FirstFault(lines, i, f, true) == FirstFault(lines, i, f, false)
  {
    hide EntryOn, ItemOn, Dashed;
  }

  /** A line of the innermost block. */
  lemma Stays(lines: seq<RawLine>, i: nat, f: Frames)
    requires i < |lines| && f.Frame? && lines[i].indent == f.indent && Dashed(lines[i].content) == f.list
    ensures FirstFault(lines, i, f, false) == if f.list then ItemOn(lines, i, f) else EntryOn(lines, i, f)
  {
    hide EntryOn, ItemOn, Dashed;
  }

  // ---------------------------------------------------------------- the descent

  /** The error of a parse that failed, or what comes behind one that did not. */
  ghost function Going(lines: seq<RawLine>, r: Result<Parsed<Value>>, f: Frames): Option<Error>
    requires Advances(r, 0, |lines|)
  {
    if r.Err? then Some(r.error) else FirstFault(lines, r.value.next, f, false)
  }

  lemma {:induction false} ValueScan(lines: seq<RawLine>, i: nat, indent: nat, under: Frames)
    requires i < |lines| && lines[i].indent == indent
    ensures FirstFault(lines, i, Frame(indent, Dashed(lines[i].content), false, under), false)
         == Going(lines, ParseValueAt(lines, i, indent), under)
    decreases Weight(lines, i), 2
  {
    hide FirstFault;
    if IsSeqItem(lines[i].content) {
      ItemsScan(lines, i, indent, [], under);
    } else {
      EntriesScan(lines, i, indent, map[], false, under);
      var r := ParseEntries(lines, i, indent, map[]);
      if r.Ok? {
        Closes(lines, r.value.next, indent, false, under);
      }
    }
  }

  lemma {:induction false} EntryScan(lines: seq<RawLine>, i: nat, indent: nat, inline: bool, under: Frames)
    requires i < |lines| && lines[i].indent == indent && !IsSeqItem(lines[i].content)
    ensures var f, r := Frame(indent, false, inline, under), ParseEntry(lines, i, indent);
            FirstFault(lines, i, f, false) ==
            if r.Err? then Some(r.error) else FirstFault(lines, r.value.1.next, f, false)
    decreases Weight(lines, i), 0
  {
    hide FirstFault, SplitKeyVal, SpacesBeforeColon, NothingAfterColon;
    var f := Frame(indent, false, inline, under);
    Stays(lines, i, f);
    SplitFault(lines[i].content, lines[i].lineNo);
    if SplitKeyVal(lines[i].content, lines[i].lineNo).Ok? && NothingAfterColon(lines[i].content) {
      if i + 1 < |lines| && lines[i + 1].indent > indent {
        Begins(lines, i + 1, f);
        ValueScan(lines, i + 1, lines[i + 1].indent, f);
      } else if i + 1 < |lines| && lines[i + 1].indent == indent && IsSeqItem(lines[i + 1].content) {
        Begins(lines, i + 1, f);
        ItemsScan(lines, i + 1, indent, [], f);
      } else {
        NoneBegins(lines, i + 1, f);
      }
    }
  }

  lemma {:induction false} EntriesScan(
    lines: seq<RawLine>, i: nat, indent: nat, m: map<string, Value>, inline: bool, under: Frames)
    requires i <= |lines|
    ensures var f, r := Frame(indent, false, inline, under), ParseEntries(lines, i, indent, m);
            && FirstFault(lines, i, f, false) == Going(lines, r, f)
            && (r.Ok? && r.value.next < |lines| ==>
                  lines[r.value.next].indent != indent || IsSeqItem(lines[r.value.next].content))
    decreases Weight(lines, i), 1
  {
    hide FirstFault;
    if i < |lines| && lines[i].indent == indent && !IsSeqItem(lines[i].content) {
      EntryScan(lines, i, indent, inline, under);
      var r := ParseEntry(lines, i, indent);
      if r.Ok? {
        var (key, p) := r.value;
        WeightDecreases(lines, i, p.next);
        EntriesScan(lines, p.next, indent, m[key := p.value], inline, under);
      }
    }
  }

  lemma {:induction false} ItemScan(lines: seq<RawLine>, i: nat, indent: nat, under: Frames)
    requires i < |lines| && lines[i].indent == indent && IsSeqItem(lines[i].content)
    ensures var f, r := Frame(indent, true, false, under), ParseItem(lines, i, indent);
            FirstFault(lines, i, f, false) == Going(lines, r, f)
    decreases Weight(lines, i), 0
  {
    hide FirstFault, SpacesBeforeColon, NothingAfterColon, TrimSpace;
    var f, rest := Frame(indent, true, false, under), ItemRest(lines[i].content);
    Stays(lines, i, f);
    if rest == "" {
      if i + 1 < |lines| && lines[i + 1].indent > indent {
        Begins(lines, i + 1, f);
        ValueScan(lines, i + 1, lines[i + 1].indent, f);
      } else {
        NoneBegins(lines, i + 1, f);
      }
    } else if LooksLikeMapEntry(rest) {
      BlockScan(ItemBlock(lines, i, indent), indent + 2);
      InlineScan(lines, i, f);
    }
  }

  /** An entry behind a dash: the copied block, and then what comes behind it. */
  lemma InlineScan(lines: seq<RawLine>, i: nat, f: Frames)
    requires i < |lines| && IsSeqItem(lines[i].content) && LooksLikeMapEntry(ItemRest(lines[i].content))
    ensures var n, sub := lines[i].indent + 2, ItemBlock(lines, i, lines[i].indent);
            ItemOn(lines, i, f) == Else(FirstFault(sub, 0, Frame(n, false, true, Ground), false),
                                          FirstFault(lines, BlockEnd(lines, i + 1, n), f, false))
  {
    hide FirstFault, SpacesBeforeColon, NothingAfterColon, TrimSpace;
    var n, rest, no := lines[i].indent + 2, ItemRest(lines[i].content), lines[i].lineNo;
    var sub, e, bar := ItemBlock(lines, i, lines[i].indent), BlockEnd(lines, i + 1, n), Frame(n, false, true, Ground);
    assert sub[0] == RawLine(n, rest, no) && sub[1..] == lines[i + 1..e];
    if IsSeqItem(rest) {
      RestSkipped(sub, 0, n);
    } else {
      Stays(sub, 0, bar);
      assert Cut(lines, i + 1, e, sub, 1, n);
      ScanApart(lines, i + 1, e, n, sub, 1, bar, f, NothingAfterColon(rest));
      assert Onto(Ground, f) == f;
    }
  }

  lemma {:induction false} AllIndented(sub: seq<RawLine>, i: nat, n: nat)
    requires i <= |sub| && forall x :: i <= x < |sub| ==> sub[x].indent >= n
    ensures BlockEnd(sub, i, n) == |sub|
    decreases |sub| - i
  {
    if i < |sub| {
      AllIndented(sub, i + 1, n);
    }
  }

  /** Once a line is no entry of it, the rest of an inline block is skipped. */
  lemma RestSkipped(sub: seq<RawLine>, i: nat, n: nat)
    requires i <= |sub| && (i < |sub| ==> sub[i].indent != n || IsSeqItem(sub[i].content))
    requires forall x :: 0 <= x < |sub| ==> sub[x].indent >= n
    ensures FirstFault(sub, i, Frame(n, false, true, Ground), false) == None
  {
    AllIndented(sub, i, n);
    if i < |sub| {
      assert FirstFault(sub, |sub|, Ground, false) == None;
    }
  }

  /** An inline block on its own: what it does not take is skipped. */
  lemma {:induction false} BlockScan(sub: seq<RawLine>, n: nat)
    requires forall x :: 0 <= x < |sub| ==> sub[x].indent >= n
    ensures var r := ParseEntries(sub, 0, n, map[]);
            FirstFault(sub, 0, Frame(n, false, true, Ground), false) == if r.Err? then Some(r.error) else None
    decreases Weight(sub, 0), 2
  {
    EntriesScan(sub, 0, n, map[], true, Ground);
    var r := ParseEntries(sub, 0, n, map[]);
    if r.Ok? {
      RestSkipped(sub, r.value.next, n);
    }
  }

  lemma {:induction false} ItemsScan(lines: seq<RawLine>, i: nat, indent: nat, acc: seq<Value>, under: Frames)
    requires i <= |lines|
    ensures FirstFault(lines, i, Frame(indent, true, false, under), false)
         == Going(lines, ParseItems(lines, i, indent, acc), under)
    decreases Weight(lines, i), 1
  {
    hide FirstFault;
    if i < |lines| && lines[i].indent == indent && IsSeqItem(lines[i].content) {
      ItemScan(lines, i, indent, under);
      var r := ParseItem(lines, i, indent);
      if r.Ok? {
        WeightDecreases(lines, i, r.value.next);
        ItemsScan(lines, r.value.next, indent, acc + [r.value.value], under);
      }
    } else {
      Closes(lines, i, indent, true, under);
    }
  }
}
