/**
  The listener fingerprints a reload must not change (internal/runtime/snapshot.go,
  internal/reload/watcher.go).
 */
module Listeners {
  import opened Backend

  datatype Listener = Listener(name: string, address: string, protocol: string, tlsMode: Option<string>)

  datatype Fingerprint = Fingerprint(name: string, address: string, protocol: string, tlsMode: string)

  function FingerprintOf(l: Listener): Fingerprint {
    Fingerprint(l.name, l.address, l.protocol, if l.tlsMode.Some? then l.tlsMode.value else "")
  }

  function Fingerprints(ls: seq<Listener>): (r: seq<Fingerprint>)
    ensures |r| == |ls|
  {
    seq(|ls|, i requires 0 <= i < |ls| => FingerprintOf(ls[i]))
  }

  method BuildFingerprints(ls: seq<Listener>) returns (fp: array<Fingerprint>)
    ensures fp[..] == Fingerprints(ls)
  {
    fp := new Fingerprint[|ls|](i => Fingerprint("", "", "", ""));
    for i := 0 to |ls|
      invariant fp[..i] == Fingerprints(ls)[..i]
    {
      var l := ls[i];
      var tlsMode := "";
      if l.tlsMode.Some? {
        tlsMode := l.tlsMode.value;
      }
      fp[i] := Fingerprint(l.name, l.address, l.protocol, tlsMode);
    }
  }

  // ---------------------------------------------------------------- the diff

  predicate Named(fs: seq<Fingerprint>, name: string) {
    exists i :: 0 <= i < |fs| && fs[i].name == name
  }

  /** The last entry of that name. */
  function Last(fs: seq<Fingerprint>, name: string): (f: Fingerprint)
    requires Named(fs, name)
    ensures f.name == name && f in fs
  {
    var n := |fs| - 1;
    if fs[n].name == name then fs[n]
    else
      assert forall i :: 0 <= i < n ==> fs[..n][i] == fs[i];
      Last(fs[..n], name)
  }

  /** Each new entry is the old one of its name. */
  ghost predicate AllKnown(was: seq<Fingerprint>, now: seq<Fingerprint>) {
    forall f :: f in now ==> Named(was, f.name) && Last(was, f.name) == f
  }

  /** No old name is missing. */
  ghost predicate AllKept(was: seq<Fingerprint>, now: seq<Fingerprint>) {
    forall f :: f in was ==> Named(now, f.name)
  }

  ghost predicate Accepts(was: seq<Fingerprint>, now: seq<Fingerprint>) {
    |was| == |now| && AllKnown(was, now) && AllKept(was, now)
  }

  lemma LastAppend(fs: seq<Fingerprint>, f: Fingerprint, name: string)
    requires Named(fs + [f], name)
    ensures f.name != name ==> Named(fs, name)
    ensures Last(fs + [f], name) == if f.name == name then f else Last(fs, name)
  {
    var all := fs + [f];
    assert all[..|fs|] == fs;
    if f.name != name {
      var i :| 0 <= i < |all| && all[i].name == name;
      assert fs[i].name == name;
    }
  }

  /** The index by name holds the last entry of each name. */
  ghost predicate Indexed(byName: map<string, Fingerprint>, fs: seq<Fingerprint>) {
    && (forall n :: n in byName <==> Named(fs, n))
    && (forall n :: n in byName ==> byName[n] == Last(fs, n))
  }

  lemma IndexAppend(byName: map<string, Fingerprint>, fs: seq<Fingerprint>, f: Fingerprint)
    requires Indexed(byName, fs)
    ensures Indexed(byName[f.name := f], fs + [f])
  {
    var all, m := fs + [f], byName[f.name := f];
    forall n
      ensures n in m <==> Named(all, n)
      ensures n in m ==> m[n] == Last(all, n)
    {
      if Named(fs, n) {
        var i :| 0 <= i < |fs| && fs[i].name == n;
        assert all[i].name == n;
      }
      if n == f.name {
        assert all[|fs|].name == n;
      }
      if Named(all, n) {
        LastAppend(fs, f, n);
      }
    }
  }

  method IndexByName(fs: seq<Fingerprint>) returns (byName: map<string, Fingerprint>)
    ensures Indexed(byName, fs)
  {
    byName := map[];
    for i := 0 to |fs|
      invariant Indexed(byName, fs[..i])
    {
      IndexAppend(byName, fs[..i], fs[i]);
      assert fs[..i + 1] == fs[..i] + [fs[i]];
      byName := byName[fs[i].name := fs[i]];
    }
    assert fs[..|fs|] == fs;
  }

  datatype Field = Address | Protocol | TlsMode

  datatype Diff =
    | Same
    | CountChanged
    | Added(name: string)
    | Changed(name: string, field: Field)
    | Removed(name: string)

  /** The field in which two listeners of one name differ first. */
  function FirstField(was: Fingerprint, now: Fingerprint): Field {
    if was.address != now.address then Address else if was.protocol != now.protocol then Protocol else TlsMode
  }

  /** The i-th new entry is the first that is not the old one of its name. */
  ghost predicate FirstUnknown(was: seq<Fingerprint>, now: seq<Fingerprint>, i: nat) {
    i < |now| && AllKnown(was, now[..i]) && !(Named(was, now[i].name) && Last(was, now[i].name) == now[i])
  }

  /** The i-th old entry is the first whose name is gone. */
  ghost predicate FirstGone(was: seq<Fingerprint>, now: seq<Fingerprint>, i: nat) {
    i < |was| && AllKept(was[..i], now) && !Named(now, was[i].name)
  }

  /** What is reported: the first new entry that is unknown, or else the first old one that is gone. */
  ghost predicate Reports(was: seq<Fingerprint>, now: seq<Fingerprint>, d: Diff) {
    match d
    case Same => Accepts(was, now)
    case CountChanged => |was| != |now|
    case Added(n) => exists i: nat :: FirstUnknown(was, now, i) && now[i].name == n && !Named(was, n)
    case Changed(n, field) =>
      exists i: nat ::
        && FirstUnknown(was, now, i) && now[i].name == n && Named(was, n)
        && field == FirstField(Last(was, n), now[i])
    case Removed(n) => AllKnown(was, now) && exists i: nat :: FirstGone(was, now, i) && was[i].name == n
  }

  method DiffListeners(was: seq<Fingerprint>, now: seq<Fingerprint>) returns (d: Diff)
    ensures d.Same? <==> Accepts(was, now)
    ensures Reports(was, now, d) && (|was| != |now| ==> d.CountChanged?)
  {
    if |was| != |now| {
      return CountChanged;
    }
    var oldByName := IndexByName(was);
    var seen;
    d, seen := DiffNew(was, now, oldByName);
    if d.Same? {
      d := DiffRemoved(was, now, seen);
    }
  }

  method DiffNew(ghost was: seq<Fingerprint>, now: seq<Fingerprint>, oldByName: map<string, Fingerprint>)
    returns (d: Diff, seen: set<string>)
    requires Indexed(oldByName, was)
    ensures d.Same? <==> AllKnown(was, now)
    ensures d.Same? ==> forall n :: n in seen <==> Named(now, n)
    ensures !d.Same? ==> (d.Added? || d.Changed?) && Reports(was, now, d)
  {
    seen := {};
    for i := 0 to |now|
      invariant AllKnown(was, now[..i])
      invariant forall n :: n in seen <==> Named(now[..i], n)
    {
      var nf := now[i];
      assert nf in now;
      if nf.name !in oldByName {
        assert FirstUnknown(was, now, i);
        return Added(nf.name), seen;
      }
      var of := oldByName[nf.name];
      NamedAppend(now, i);
      seen := seen + {nf.name};
      if of != nf {
        assert FirstUnknown(was, now, i);
      }
      if of.address != nf.address {
        return Changed(nf.name, Address), seen;
      }
      if of.protocol != nf.protocol {
        return Changed(nf.name, Protocol), seen;
      }
      if of.tlsMode != nf.tlsMode {
        return Changed(nf.name, TlsMode), seen;
      }
    }
    assert now[..|now|] == now;
    d := Same;
  }

  method DiffRemoved(was: seq<Fingerprint>, ghost now: seq<Fingerprint>, seen: set<string>) returns (d: Diff)
    requires forall n :: n in seen <==> Named(now, n)
    ensures d.Same? <==> AllKept(was, now)
    ensures !d.Same? ==> d.Removed? && exists i: nat :: FirstGone(was, now, i) && was[i].name == d.name
  {
    for i := 0 to |was|
      invariant AllKept(was[..i], now)
    {
      if was[i].name !in seen {
        assert was[i] in was && FirstGone(was, now, i);
        return Removed(was[i].name);
      }
    }
    assert was[..|was|] == was;
    d := Same;
  }

  lemma NamedAppend(fs: seq<Fingerprint>, i: nat)
    requires i < |fs|
    ensures forall n :: Named(fs[..i + 1], n) <==> Named(fs[..i], n) || n == fs[i].name
  {
    forall n
      ensures Named(fs[..i + 1], n) <==> Named(fs[..i], n) || n == fs[i].name
    {
      if Named(fs[..i], n) {
        var k :| 0 <= k < i && fs[..i][k].name == n;
        assert fs[..i + 1][k].name == n;
      }
      if n == fs[i].name {
        assert fs[..i + 1][i].name == n;
      }
      if Named(fs[..i + 1], n) && n != fs[i].name {
        var k :| 0 <= k < i + 1 && fs[..i + 1][k].name == n;
        assert fs[..i][k].name == n;
      }
    }
  }

  // ---------------------------------------------------------------- what the diff decides

  ghost predicate UniqueNames(fs: seq<Fingerprint>) {
    forall i, j :: 0 <= i < j < |fs| ==> fs[i].name != fs[j].name
  }

  lemma {:induction false} LastOfUnique(fs: seq<Fingerprint>, k: nat)
    requires UniqueNames(fs) && k < |fs|
    ensures Named(fs, fs[k].name) && Last(fs, fs[k].name) == fs[k]
  {
    var n := |fs| - 1;
    if k < n {
      LastOfUnique(fs[..n], k);
    }
  }

  lemma {:induction false} Distinct(fs: seq<Fingerprint>, f: Fingerprint)
    requires UniqueNames(fs)
    ensures multiset(fs)[f] <= 1
  {
    if fs != [] {
      var n := |fs| - 1;
      Distinct(fs[..n], f);
      assert fs == fs[..n] + [fs[n]];
      assert fs[n] !in fs[..n];
    }
  }

  lemma EqualBySize<T>(a: multiset<T>, b: multiset<T>)
    requires a <= b && |a| == |b|
    ensures a == b
  {
    assert |b - a| == 0;
    assert b == a + (b - a);
  }

  /** From unique names, the diff accepts exactly the same listeners in any order. */
  lemma AcceptsReorderings(was: seq<Fingerprint>, now: seq<Fingerprint>)
    requires UniqueNames(was)
    ensures Accepts(was, now) <==> multiset(was) == multiset(now)
  {
    if Accepts(was, now) {
      forall f | f in multiset(was)
        ensures multiset(was)[f] <= multiset(now)[f]
      {
        var k :| 0 <= k < |was| && was[k] == f;
        LastOfUnique(was, k);
        var i :| 0 <= i < |now| && now[i].name == f.name;
        assert now[i] in now && now[i] == f;
        Distinct(was, f);
      }
      assert multiset(was) <= multiset(now);
      EqualBySize(multiset(was), multiset(now));
    }
    if multiset(was) == multiset(now) {
      SameElements(was, now);
      assert |was| == |multiset(was)| == |multiset(now)| == |now|;
    }
  }

  lemma SameElements(was: seq<Fingerprint>, now: seq<Fingerprint>)
    requires UniqueNames(was) && multiset(was) == multiset(now)
    ensures AllKnown(was, now) && AllKept(was, now)
  {
    forall f | f in now
      ensures Named(was, f.name) && Last(was, f.name) == f
    {
      assert f in multiset(was);
      var k :| 0 <= k < |was| && was[k] == f;
      LastOfUnique(was, k);
    }
    forall f | f in was
      ensures Named(now, f.name)
    {
      assert f in multiset(now);
      var i :| 0 <= i < |now| && now[i] == f;
      assert now[i].name == f.name;
    }
  }

  // ---------------------------------------------------------------- when names repeat

  ghost predicate AllEqual(fs: seq<Fingerprint>) {
    forall i, j :: 0 <= i < |fs| && 0 <= j < |fs| ==> fs[i] == fs[j]
  }

  /** The diff tells any change of these listeners from none. */
  ghost predicate DiffExact(was: seq<Fingerprint>) {
    forall now :: Accepts(was, now) <==> multiset(was) == multiset(now)
  }

  /** Two different listeners of one name pass for two equal ones. */
  lemma RepeatedNamesConfused(f: Fingerprint, address: string)
    requires f.address != address
    ensures var g := f.(address := address); Accepts([f, g], [g, g]) && multiset([f, g]) != multiset([g, g])
  {
    var g := f.(address := address);
    assert [f, g][1].name == g.name;
    assert Named([f, g], g.name) && Last([f, g], g.name) == g;
    assert [g, g][0].name == f.name;
    assert multiset([f, g])[f] == 1 && multiset([g, g])[f] == 0;
  }

  function Collapsed(fs: seq<Fingerprint>): (r: seq<Fingerprint>)
    ensures |r| == |fs|
  {
    seq(|fs|, i requires 0 <= i < |fs| => assert Named(fs, fs[i].name); Last(fs, fs[i].name))
  }

  /** If an entry is hidden behind a later one of its name, replacing it is not noticed. */
  lemma HiddenEntry(fs: seq<Fingerprint>, k: nat)
    requires k < |fs| && Named(fs, fs[k].name) && Last(fs, fs[k].name) != fs[k]
    ensures !DiffExact(fs)
  {
    var now := Collapsed(fs);
    forall f | f in now
      ensures Named(fs, f.name) && Last(fs, f.name) == f
    {
      var i :| 0 <= i < |now| && now[i] == f;
      assert Named(fs, fs[i].name) && f == Last(fs, fs[i].name);
    }
    forall f | f in fs
      ensures Named(now, f.name)
    {
      var i :| 0 <= i < |fs| && fs[i] == f;
      assert now[i].name == f.name;
    }
    assert Accepts(fs, now);
    assert fs[k] !in now;
    assert fs[k] in multiset(fs) && fs[k] !in multiset(now);
  }

  /** If an entry is there twice, one of the two can become another listener. */
  lemma DoubledEntry(fs: seq<Fingerprint>, i: nat, j: nat, h: Fingerprint)
    requires i < |fs| && j < |fs| && i != j && fs[i] == fs[j] && h in fs && h != fs[i]
    requires forall f :: f in fs ==> Named(fs, f.name) && Last(fs, f.name) == f
    ensures !DiffExact(fs)
  {
    var now := fs[i := h];
    forall f | f in now
      ensures f in fs
    {
    }
    forall f | f in fs
      ensures Named(now, f.name)
    {
      var k :| 0 <= k < |fs| && fs[k] == f;
      assert now[if k == i then j else k].name == f.name;
    }
    assert Accepts(fs, now);
    Replaced(fs, i, h);
  }

  lemma Replaced(fs: seq<Fingerprint>, i: nat, h: Fingerprint)
    requires i < |fs| && h != fs[i]
    ensures multiset(fs[i := h])[h] == multiset(fs)[h] + 1
  {
    assert multiset(fs[i := h]) == multiset(fs) - multiset{fs[i]} + multiset{h};
  }

  /** The diff is exact for a list of listeners if and only if no name repeats, or they are all the same one. */
  lemma DiffExactIff(was: seq<Fingerprint>)
    ensures DiffExact(was) <==> UniqueNames(was) || AllEqual(was)
  {
    if UniqueNames(was) {
      forall now
        ensures Accepts(was, now) <==> multiset(was) == multiset(now)
      {
        AcceptsReorderings(was, now);
      }
    } else if AllEqual(was) {
      DiffExactAllEqual(was);
    } else {
      var i, j :| 0 <= i < j < |was| && was[i].name == was[j].name;
      assert Named(was, was[i].name);
      if k :| 0 <= k < |was| && Named(was, was[k].name) && Last(was, was[k].name) != was[k] {
        HiddenEntry(was, k);
      } else {
        forall f | f in was
          ensures Named(was, f.name) && Last(was, f.name) == f
        {
          var k :| 0 <= k < |was| && was[k] == f;
          assert Named(was, was[k].name);
        }
        assert was[i] in was && was[j] in was;
        var h := Different(was, was[i]);
        DoubledEntry(was, i, j, h);
      }
    }
  }

  lemma Different(fs: seq<Fingerprint>, f: Fingerprint) returns (h: Fingerprint)
    requires !AllEqual(fs)
    ensures h in fs && h != f
  {
    var i, j :| 0 <= i < |fs| && 0 <= j < |fs| && fs[i] != fs[j];
    h := if fs[i] == f then fs[j] else fs[i];
  }

  lemma SameBySize(a: seq<Fingerprint>, b: seq<Fingerprint>, f: Fingerprint)
    requires |a| == |b| && (forall x :: x in a ==> x == f) && (forall x :: x in b ==> x == f)
    ensures a == b
  {
    forall i | 0 <= i < |a|
      ensures a[i] == b[i]
    {
      assert a[i] in a && b[i] in b;
    }
  }

  lemma DiffExactAllEqual(was: seq<Fingerprint>)
    requires AllEqual(was)
    ensures DiffExact(was)
  {
    forall now
      ensures Accepts(was, now) <==> multiset(was) == multiset(now)
    {
      if was == [] {
        assert |now| == |multiset(now)|;
        assert multiset(was) == multiset(now) ==> now == [];
      } else {
        var f := was[0];
        assert forall x :: x in was ==> x == f;
        if Accepts(was, now) {
          SameBySize(was, now, f);
        }
        if multiset(was) == multiset(now) {
          forall x | x in now
            ensures x == f
          {
            assert x in multiset(was);
          }
          assert |was| == |multiset(was)| == |now|;
          SameBySize(was, now, f);
          forall x | x in was
            ensures Named(was, x.name) && Last(was, x.name) == x
          {
            assert was[0].name == x.name;
          }
        }
      }
    }
  }
}
