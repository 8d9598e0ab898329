/**
  Passing listening sockets to a new process: file descriptors in order, and their names in an
  environment variable (internal/restart/restart.go, cmd/lb/main.go).
 */
module Handoff {
  import opened Backend
  import opened Text

  // ---------------------------------------------------------------- decimal numbers

  /** The range of an int. */
  const MAX_INT := 0x7FFF_FFFF_FFFF_FFFF

  predicate IsDigit(c: char) {
    '0' <= c <= '9'
  }

  function DigitChar(d: nat): (c: char)
    requires d < 10
    ensures IsDigit(c) && DigitValue(c) == d
  {
    '0' + d as char
  }

  function DigitValue(c: char): (d: nat)
    requires IsDigit(c)
    ensures d < 10
  {
    (c - '0') as int
  }

  /** strconv.Itoa for a number that is not negative. */
  function Itoa(n: nat): (s: string)
    ensures s != []
  {
    if n < 10 then [DigitChar(n)] else Itoa(n / 10) + [DigitChar(n % 10)]
  }

  predicate Digits(s: string) {
    forall i :: 0 <= i < |s| ==> IsDigit(s[i])
  }

  function Value(s: string): nat
    requires Digits(s)
  {
    if s == [] then 0 else 10 * Value(s[..|s| - 1]) + DigitValue(s[|s| - 1])
  }

  /** strconv.Atoi: an optional sign and digits, within the range of an int. */
  function Atoi(s: string): Option<int> {
    var rest := if s != [] && (s[0] == '-' || s[0] == '+') then s[1..] else s;
    if rest == [] || !Digits(rest) then None
    else
      var v: int := Value(rest);
      if s[0] == '-' then (if v > MAX_INT + 1 then None else Some(-v))
      else if v > MAX_INT then None else Some(v)
  }

  lemma {:induction false} ItoaDigits(n: nat)
    ensures Digits(Itoa(n)) && Value(Itoa(n)) == n
  {
    var s := Itoa(n);
    if n < 10 {
      assert s[..0] == [];
    } else {
      ItoaDigits(n / 10);
      assert s[..|s| - 1] == Itoa(n / 10);
    }
  }

  /** Numbers are written in the decimal system. */
  lemma ItoaDecimal(n: nat, d: nat)
    requires d < 10
    ensures Itoa(d) == ['0' + d as char]
    ensures n > 0 ==> Itoa(10 * n + d) == Itoa(n) + ['0' + d as char]
  {
    assert (10 * n + d) / 10 == n && (10 * n + d) % 10 == d;
  }

  lemma AtoiItoa(n: nat)
    requires n <= MAX_INT
    ensures Atoi(Itoa(n)) == Some(n)
  {
    ItoaDigits(n);
    assert IsDigit(Itoa(n)[0]);
  }

  lemma ItoaPlain(n: nat, c: char)
    requires !IsDigit(c)
    ensures c !in Itoa(n)
  {
    ItoaDigits(n);
  }

  // ---------------------------------------------------------------- the parent's side

  /** A listener to hand over, and its socket. */
  datatype Desc = Desc(name: string, socket: nat)

  function Pair(name: string, i: nat): string {
    name + ":" + Itoa(i)
  }

  function Pairs(ds: seq<Desc>): (r: seq<string>)
    ensures |r| == |ds|
  {
    seq(|ds|, i requires 0 <= i < |ds| => Pair(ds[i].name, i))
  }

  function Sockets(ds: seq<Desc>): (r: seq<nat>)
    ensures |r| == |ds|
  {
    seq(|ds|, i requires 0 <= i < |ds| => ds[i].socket)
  }

  // ---------------------------------------------------------------- in the order of their names

  /** The order of strings, character by character. */
  predicate Precedes(a: string, b: string) {
    a == [] || (b != [] && (a[0] < b[0] || (a[0] == b[0] && Precedes(a[1..], b[1..]))))
  }

  /** The first k characters agree, and the next is smaller. */
  ghost predicate SmallerAt(a: string, b: string, k: nat) {
    k < |a| && k < |b| && a[..k] == b[..k] && a[k] < b[k]
  }

  /** A prefix comes first; otherwise the first character in which two names differ decides. */
  lemma {:induction false} PrecedesIff(a: string, b: string)
    ensures Precedes(a, b) <==> a <= b || exists k: nat :: SmallerAt(a, b, k)
  {
    if a != [] && b != [] {
      if a[0] == b[0] {
        PrecedesIff(a[1..], b[1..]);
        assert a == [a[0]] + a[1..] && b == [b[0]] + b[1..];
        forall k: nat | SmallerAt(a[1..], b[1..], k)
          ensures SmallerAt(a, b, k + 1)
        {
          assert a[..k + 1] == [a[0]] + a[1..][..k] && b[..k + 1] == [b[0]] + b[1..][..k];
        }
        forall k: nat | SmallerAt(a, b, k)
          ensures k > 0 && SmallerAt(a[1..], b[1..], k - 1)
        {
          assert a[1..][..k - 1] == a[..k][1..] && b[1..][..k - 1] == b[..k][1..];
        }
      } else {
        assert a[0] < b[0] ==> SmallerAt(a, b, 0);
        assert forall k: nat :: SmallerAt(a, b, k) && k > 0 ==> a[..k][0] == b[..k][0];
      }
    }
  }

  function InsertByName(d: Desc, ds: seq<Desc>): seq<Desc> {
    if ds == [] || Precedes(d.name, ds[0].name) then [d] + ds else [ds[0]] + InsertByName(d, ds[1..])
  }

  function SortByName(ds: seq<Desc>): seq<Desc> {
    if ds == [] then [] else InsertByName(ds[0], SortByName(ds[1..]))
  }

  lemma {:induction false} InsertSame(d: Desc, ds: seq<Desc>)
    ensures multiset(InsertByName(d, ds)) == multiset(ds) + multiset{d}
  {
    if ds != [] && !Precedes(d.name, ds[0].name) {
      InsertSame(d, ds[1..]);
      assert ds == [ds[0]] + ds[1..];
    }
  }

  /** Sorting loses no listener and invents none. */
  lemma {:induction false} SortSame(ds: seq<Desc>)
    ensures multiset(SortByName(ds)) == multiset(ds) && |SortByName(ds)| == |ds|
  {
    if ds != [] {
      SortSame(ds[1..]);
      InsertSame(ds[0], SortByName(ds[1..]));
      assert ds == [ds[0]] + ds[1..];
      assert |SortByName(ds)| == |multiset(SortByName(ds))|;
    }
  }

  lemma {:induction false} Total(a: string, b: string)
    ensures Precedes(a, b) || Precedes(b, a)
  {
    if a != [] && b != [] {
      Total(a[1..], b[1..]);
    }
  }

  ghost predicate InOrder(ds: seq<Desc>) {
    forall i :: 0 < i < |ds| ==> Precedes(ds[i - 1].name, ds[i].name)
  }

  lemma {:induction false} InsertInOrder(d: Desc, ds: seq<Desc>)
    requires InOrder(ds)
    ensures InOrder(InsertByName(d, ds))
    ensures ds != [] && !Precedes(d.name, ds[0].name) ==> InsertByName(d, ds)[0] == ds[0]
  {
    if ds != [] && !Precedes(d.name, ds[0].name) {
      Total(d.name, ds[0].name);
      InsertInOrder(d, ds[1..]);
    }
  }

  lemma {:induction false} SortInOrder(ds: seq<Desc>)
    ensures InOrder(SortByName(ds))
  {
    if ds != [] {
      SortInOrder(ds[1..]);
      InsertInOrder(ds[0], SortByName(ds[1..]));
    }
  }

  /** Inherited descriptors start after the three standard ones; the readiness pipe comes last. */
  const FIRST_FD := 3

  /** What a descriptor number means in the child: 0, 1 and 2 are standard, the files given follow. */
  function Inherited(files: seq<nat>, fd: int): Option<nat> {
    if 3 <= fd < 3 + |files| then Some(files[fd - 3]) else None
  }

  /** The variables and files a child is given. */
  datatype Given = Given(fdMap: string, files: seq<nat>, readyFd: string)

  /** The sockets in the order of the listeners' names, and the pipe; without listeners, nothing to hand over. */
  method Export(listeners: seq<Desc>, readyPipe: nat) returns (r: Option<Given>)
    ensures r.None? <==> listeners == []
    ensures r.Some? ==>
              var sorted := SortByName(listeners);
              && sorted != [] && r.value.fdMap == Join(Pairs(sorted), ',')
              && r.value.files == Sockets(sorted) + [readyPipe] && r.value.readyFd == Itoa(|sorted| + FIRST_FD)
  {
    if |listeners| == 0 {
      return None;
    }
    SortSame(listeners);
    var sorted := SortByName(listeners);
    var extraFiles := new nat[|sorted|](i => 0);
    for i := 0 to |sorted|
      invariant extraFiles[..i] == Sockets(sorted)[..i]
    {
      extraFiles[i] := sorted[i].socket;
    }
    var files := extraFiles[..] + [readyPipe];
    var fdPairs := NamePairs(sorted);
    r := Some(Given(Join(fdPairs, ','), files, Itoa(|files| - 1 + FIRST_FD)));
  }

  method NamePairs(sorted: seq<Desc>) returns (pairs: seq<string>)
    ensures pairs == Pairs(sorted)
  {
    var fdPairs := new string[|sorted|](i => "");
    for i := 0 to |sorted|
      invariant fdPairs[..i] == Pairs(sorted)[..i]
    {
      fdPairs[i] := sorted[i].name + ":" + Itoa(i);
    }
    pairs := fdPairs[..];
  }

  // ---------------------------------------------------------------- the child's side

  datatype Entry = Entry(name: string, fd: int)

  /** Anything that is not a name, a colon and a number is skipped. */
  function ParsePair(pair: string): Option<Entry> {
    var i := IndexOf(pair, ':');
    if i == -1 then None
    else
      var n := Atoi(pair[i + 1..]);
      if n.None? || n.value + FIRST_FD < 0 then None else Some(Entry(pair[..i], n.value + FIRST_FD))
  }

  /** The values that are there, in order. */
  function Present<T>(os: seq<Option<T>>): seq<T> {
    if os == [] then []
    else
      var last, front := os[|os| - 1], Present(os[..|os| - 1]);
      if last.None? then front else front + [last.value]
  }

  function EachPair(pairs: seq<string>): (r: seq<Option<Entry>>)
    ensures |r| == |pairs|
  {
    seq(|pairs|, i requires 0 <= i < |pairs| => ParsePair(pairs[i]))
  }

  function Reconstructed(fdMap: string): seq<Entry> {
    if fdMap == "" then [] else Present(EachPair(Split(fdMap, ',')))
  }

  /** The child's environment; without the handoff mark it is no child. */
  datatype Env = Env(handoff: bool, fdMap: string, readyFd: string)

  predicate IsChild(env: Env) {
    env.handoff && env.fdMap != "" && Atoi(env.readyFd).Some?
  }

  /** The listeners that parse, and the descriptor of the readiness pipe. */
  method ReconstructListeners(env: Env) returns (descs: seq<Entry>, ready: Option<int>)
    ensures ready == if IsChild(env) then Atoi(env.readyFd) else None
    ensures descs == if IsChild(env) then Reconstructed(env.fdMap) else []
  {
    if !env.handoff {
      return [], None;
    }
    var fdMap := env.fdMap;
    if fdMap == "" {
      return [], None;
    }
    ready := Atoi(env.readyFd);
    if ready.None? {
      return [], None;
    }
    descs := ReadPairs(fdMap);
  }

  method ReadPairs(fdMap: string) returns (descs: seq<Entry>)
    requires fdMap != ""
    ensures descs == Reconstructed(fdMap)
  {
    var pairs := Split(fdMap, ',');
    descs := [];
    for k := 0 to |pairs|
      invariant descs == Present(EachPair(pairs)[..k])
    {
      assert EachPair(pairs)[..k + 1][..k] == EachPair(pairs)[..k];
      var pair := pairs[k];
      var i := IndexOf(pair, ':');
      if i == -1 {
        continue;
      }
      var fdIdx := Atoi(pair[i + 1..]);
      if fdIdx.None? {
        continue;
      }
      var fdNum := fdIdx.value + FIRST_FD;
      if fdNum < 0 {
        continue;
      }
      descs := descs + [Entry(pair[..i], fdNum)];
    }
    assert EachPair(pairs)[..|pairs|] == EachPair(pairs);
  }

  /** The child looks listeners up by name; a later entry replaces an earlier one. */
  function ByName(es: seq<Entry>): map<string, int> {
    if es == [] then map[] else ByName(es[..|es| - 1])[es[|es| - 1].name := es[|es| - 1].fd]
  }

  // ---------------------------------------------------------------- what arrives

  predicate Clean(name: string) {
    ',' !in name && ':' !in name
  }

  ghost predicate AllClean(ds: seq<Desc>) {
    forall i :: 0 <= i < |ds| ==> Clean(ds[i].name)
  }

  ghost predicate UniqueNames(ds: seq<Desc>) {
    forall i, j :: 0 <= i < j < |ds| ==> ds[i].name != ds[j].name
  }

  /** In the child, every listener's name stands for the very socket the parent had. */
  ghost predicate AllRecovered(ds: seq<Desc>, sorted: seq<Desc>, readyPipe: nat)
    requires sorted != []
  {
    var m := ByName(Reconstructed(Join(Pairs(sorted), ',')));
    forall d :: d in ds ==> d.name in m && Inherited(Sockets(sorted) + [readyPipe], m[d.name]) == Some(d.socket)
  }

  lemma ParseClean(name: string, i: nat)
    requires Clean(name) && i + FIRST_FD <= MAX_INT
    ensures ParsePair(Pair(name, i)) == Some(Entry(name, i + FIRST_FD))
    ensures ',' !in Pair(name, i)
  {
    var s := Pair(name, i);
    assert s == name + [':'] + Itoa(i);
    IndexOfAfter(name, ':', Itoa(i));
    assert s[..|name|] == name && s[|name| + 1..] == Itoa(i);
    AtoiItoa(i);
    ItoaPlain(i, ',');
  }

  function Entries(ds: seq<Desc>): (r: seq<Entry>)
    ensures |r| == |ds|
  {
    seq(|ds|, i requires 0 <= i < |ds| => Entry(ds[i].name, i + FIRST_FD))
  }

  lemma {:induction false} AllPresent<T>(os: seq<Option<T>>, xs: seq<T>)
    requires |os| == |xs| && forall i :: 0 <= i < |os| ==> os[i] == Some(xs[i])
    ensures Present(os) == xs
  {
    if os != [] {
      var n := |os| - 1;
      AllPresent(os[..n], xs[..n]);
      assert xs == xs[..n] + [xs[n]];
    }
  }

  lemma PairsParse(ds: seq<Desc>)
    requires AllClean(ds) && |ds| + FIRST_FD <= MAX_INT
    ensures Present(EachPair(Pairs(ds))) == Entries(ds)
  {
    var os, es := EachPair(Pairs(ds)), Entries(ds);
    forall k | 0 <= k < |ds|
      ensures os[k] == Some(es[k])
    {
      ParseClean(ds[k].name, k);
    }
    AllPresent(os, es);
  }

  lemma PairsSplit(ds: seq<Desc>)
    requires ds != [] && AllClean(ds) && |ds| + FIRST_FD <= MAX_INT
    ensures Split(Join(Pairs(ds), ','), ',') == Pairs(ds)
  {
    var ps := Pairs(ds);
    forall k | 0 <= k < |ps|
      ensures ',' !in ps[k]
    {
      ParseClean(ds[k].name, k);
    }
    SplitJoin(ps, ',');
  }

  /** The child reads back exactly the list the parent wrote. */
  lemma ListRecovered(ds: seq<Desc>)
    requires ds != [] && AllClean(ds) && |ds| + FIRST_FD <= MAX_INT
    ensures Reconstructed(Join(Pairs(ds), ',')) == Entries(ds)
  {
    PairsSplit(ds);
    JoinNotEmpty(Pairs(ds));
    PairsParse(ds);
  }

  lemma JoinNotEmpty(ps: seq<string>)
    requires |ps| > 0 && ps[0] != ""
    ensures Join(ps, ',') != ""
  {
  }

  lemma {:induction false} ByNameAt(ds: seq<Desc>, k: nat, i: nat)
    requires UniqueNames(ds) && i < k <= |ds|
    ensures ds[i].name in ByName(Entries(ds)[..k]) && ByName(Entries(ds)[..k])[ds[i].name] == i + FIRST_FD
    decreases k
  {
    var es := Entries(ds)[..k];
    assert es[..k - 1] == Entries(ds)[..k - 1];
    if i < k - 1 {
      ByNameAt(ds, k - 1, i);
    }
  }

  lemma {:induction false} NameComesFrom(os: seq<Option<Entry>>, name: string) returns (k: nat)
    requires name in ByName(Present(os))
    ensures k < |os| && os[k].Some? && os[k].value.name == name
  {
    var n := |os| - 1;
    var front := Present(os[..n]);
    if os[n].Some? && os[n].value.name == name {
      k := n;
    } else {
      if os[n].Some? {
        var es := front + [os[n].value];
        assert es[..|es| - 1] == front;
      }
      k := NameComesFrom(os[..n], name);
    }
  }

  /** Names in the child never contain a comma or a colon. */
  lemma NamesClean(text: string, name: string)
    requires name in ByName(Reconstructed(text))
    ensures Clean(name)
  {
    var pairs := Split(text, ',');
    var k := NameComesFrom(EachPair(pairs), name);
    SplitClean(text, ',', k);
    assert ParsePair(pairs[k]).value.name == name;
  }

  lemma RecoveredClean(ds: seq<Desc>, sorted: seq<Desc>, readyPipe: nat)
    requires sorted != [] && AllRecovered(ds, sorted, readyPipe)
    ensures AllClean(ds)
  {
    forall i | 0 <= i < |ds|
      ensures Clean(ds[i].name)
    {
      assert ds[i] in ds;
      NamesClean(Join(Pairs(sorted), ','), ds[i].name);
    }
  }

  lemma CleanRecovered(sorted: seq<Desc>, readyPipe: nat, d: Desc)
    requires sorted != [] && UniqueNames(sorted) && AllClean(sorted) && |sorted| + FIRST_FD <= MAX_INT && d in sorted
    ensures var m := ByName(Entries(sorted));
            d.name in m && Inherited(Sockets(sorted) + [readyPipe], m[d.name]) == Some(d.socket)
  {
    var i :| 0 <= i < |sorted| && sorted[i] == d;
    ByNameAt(sorted, |sorted|, i);
    assert Entries(sorted)[..|sorted|] == Entries(sorted);
  }

  lemma CleanReordered(ds: seq<Desc>, sorted: seq<Desc>)
    requires multiset(ds) == multiset(sorted) && AllClean(ds)
    ensures AllClean(sorted)
  {
    forall i | 0 <= i < |sorted|
      ensures Clean(sorted[i].name)
    {
      assert sorted[i] in multiset(ds);
    }
  }

  /**
    Whatever the order they are exported in, listeners of different names all arrive with their
    own sockets if and only if no name contains a comma or a colon.
   */
  lemma RecoveredIff(ds: seq<Desc>, sorted: seq<Desc>, readyPipe: nat)
    requires sorted != [] && UniqueNames(sorted) && multiset(ds) == multiset(sorted) && |sorted| + FIRST_FD <= MAX_INT
    ensures AllRecovered(ds, sorted, readyPipe) <==> AllClean(ds)
  {
    if AllRecovered(ds, sorted, readyPipe) {
      RecoveredClean(ds, sorted, readyPipe);
    }
    if AllClean(ds) {
      CleanReordered(ds, sorted);
      ListRecovered(sorted);
      forall d | d in ds
        ensures var m := ByName(Entries(sorted));
                d.name in m && Inherited(Sockets(sorted) + [readyPipe], m[d.name]) == Some(d.socket)
      {
        assert d in multiset(sorted);
        CleanRecovered(sorted, readyPipe, d);
      }
    }
  }

  lemma SortedUnique(ds: seq<Desc>, sorted: seq<Desc>)
    requires UniqueNames(ds) && multiset(ds) == multiset(sorted)
    ensures UniqueNames(sorted)
  {
    forall i, j | 0 <= i < j < |sorted|
      ensures sorted[i].name != sorted[j].name
    {
      assert sorted[i] in multiset(ds) && sorted[j] in multiset(ds);
      var x :| 0 <= x < |ds| && ds[x] == sorted[i];
      var y :| 0 <= y < |ds| && ds[y] == sorted[j];
      if sorted[i].name == sorted[j].name {
        assert x == y;
        OnlyOnce(ds, x);
        Twice(sorted, i, j);
      }
    }
  }

  lemma {:induction false} OnlyOnce(ds: seq<Desc>, x: nat)
    requires UniqueNames(ds) && x < |ds|
    ensures multiset(ds)[ds[x]] == 1
  {
    assert ds == ds[..x] + [ds[x]] + ds[x + 1..];
    assert ds[x] !in ds[..x] && ds[x] !in ds[x + 1..];
  }

  lemma Twice(ds: seq<Desc>, i: nat, j: nat)
    requires i < j < |ds| && ds[i] == ds[j]
    ensures multiset(ds)[ds[i]] >= 2
  {
    assert ds == ds[..j] + [ds[j]] + ds[j + 1..];
    assert ds[..j][i] == ds[i];
    assert ds[i] in multiset(ds[..j]);
  }

  /** The environment the parent makes for a child. */
  function ChildEnv(given: Given): Env {
    Env(true, given.fdMap, given.readyFd)
  }

  /** The process started with these is a child, and the readiness pipe arrives at the descriptor it is told. */
  lemma PipeArrives(sorted: seq<Desc>, readyPipe: nat)
    requires sorted != [] && |sorted| + FIRST_FD <= MAX_INT
    ensures var given := Given(Join(Pairs(sorted), ','), Sockets(sorted) + [readyPipe], Itoa(|sorted| + FIRST_FD));
            && IsChild(ChildEnv(given))
            && Inherited(given.files, Atoi(given.readyFd).value) == Some(readyPipe)
  {
    AtoiItoa(|sorted| + FIRST_FD);
    assert Pairs(sorted)[0] == sorted[0].name + ":" + Itoa(0);
    JoinNotEmpty(Pairs(sorted));
  }

  /**
    Listeners of different names, handed over as the parent exports them, all arrive with their own
    sockets if and only if no name contains a comma or a colon.
   */
  lemma HandedOver(ds: seq<Desc>, sorted: seq<Desc>, readyPipe: nat)
    requires ds != [] && UniqueNames(ds) && |ds| + FIRST_FD <= MAX_INT && sorted == SortByName(ds)
    ensures sorted != [] && (AllRecovered(ds, sorted, readyPipe) <==> AllClean(ds))
  {
    SortSame(ds);
    SortedUnique(ds, sorted);
    RecoveredIff(ds, sorted, readyPipe);
  }
}
