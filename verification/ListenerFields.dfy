/**
  What the diff of fingerprints means for the listeners themselves: their name, address, protocol and
  TLS mode, where no mode counts as the empty one.
 */
module ListenerFields {
  import opened Backend
  import opened Listeners

  predicate SameMode(a: Option<string>, b: Option<string>) {
    a == b || (a.None? && b == Some("")) || (a == Some("") && b.None?)
  }

  predicate SameFields(a: Listener, b: Listener) {
    a.name == b.name && a.address == b.address && a.protocol == b.protocol && SameMode(a.tlsMode, b.tlsMode)
  }

  ghost predicate UniqueListeners(ls: seq<Listener>) {
    forall i, j :: 0 <= i < j < |ls| ==> ls[i].name != ls[j].name
  }

  /** One of the listeners agrees with l in all four fields. */
  ghost predicate Matched(ls: seq<Listener>, l: Listener) {
    exists i :: 0 <= i < |ls| && SameFields(ls[i], l)
  }

  ghost predicate AllMatched(was: seq<Listener>, now: seq<Listener>) {
    forall i :: 0 <= i < |now| ==> Matched(was, now[i])
  }

  /** The same listeners, in any order. */
  ghost predicate Reordered(was: seq<Listener>, now: seq<Listener>) {
    |was| == |now| && AllMatched(was, now) && AllMatched(now, was)
  }

  ghost predicate HasName(ls: seq<Listener>, name: string) {
    exists i :: 0 <= i < |ls| && ls[i].name == name
  }

  lemma SameFingerprint(a: Listener, b: Listener)
    ensures FingerprintOf(a) == FingerprintOf(b) <==> SameFields(a, b)
    ensures FingerprintOf(a).name == a.name
  {
  }

  lemma NamesOf(ls: seq<Listener>)
    ensures UniqueNames(Fingerprints(ls)) <==> UniqueListeners(ls)
    ensures forall n :: Named(Fingerprints(ls), n) <==> HasName(ls, n)
  {
    var fs := Fingerprints(ls);
    assert forall i :: 0 <= i < |ls| ==> fs[i] == FingerprintOf(ls[i]) && fs[i].name == ls[i].name;
  }

  /** The old fingerprint of a name is that of the new listener exactly if one of the old listeners matches it. */
  lemma KnownIff(was: seq<Listener>, l: Listener)
    requires UniqueListeners(was)
    ensures var fs, f := Fingerprints(was), FingerprintOf(l);
            Matched(was, l) <==> Named(fs, f.name) && Last(fs, f.name) == f
  {
    var fs, f := Fingerprints(was), FingerprintOf(l);
    NamesOf(was);
    if Matched(was, l) {
      var i :| 0 <= i < |was| && SameFields(was[i], l);
      SameFingerprint(was[i], l);
      LastOfUnique(fs, i);
    } else if Named(fs, f.name) {
      var i :| 0 <= i < |was| && fs[i].name == f.name;
      LastOfUnique(fs, i);
      SameFingerprint(was[i], l);
    }
  }

  lemma AllKnownIff(was: seq<Listener>, now: seq<Listener>)
    requires UniqueListeners(was)
    ensures AllKnown(Fingerprints(was), Fingerprints(now)) <==> AllMatched(was, now)
  {
    var fs := Fingerprints(now);
    forall i | 0 <= i < |now|
      ensures Matched(was, now[i]) <==>
              Named(Fingerprints(was), fs[i].name) && Last(Fingerprints(was), fs[i].name) == fs[i]
    {
      KnownIff(was, now[i]);
    }
    assert forall i :: 0 <= i < |now| ==> fs[i] in fs;
  }

  /** Among matched listeners, none of the old is missing exactly if each is matched in turn. */
  lemma KeptIff(was: seq<Listener>, now: seq<Listener>)
    requires UniqueListeners(was) && AllMatched(was, now)
    ensures AllKept(Fingerprints(was), Fingerprints(now)) <==> AllMatched(now, was)
  {
    hide Matched, HasName, Named, UniqueListeners;
    NamesOf(now);
    var fs := Fingerprints(was);
    assert forall i :: 0 <= i < |was| ==> fs[i] in fs && fs[i].name == was[i].name;
    forall i | 0 <= i < |was|
      ensures HasName(now, was[i].name) <==> Matched(now, was[i])
    {
      MatchedByName(was, now, i);
    }
  }

  lemma MatchedByName(was: seq<Listener>, now: seq<Listener>, i: nat)
    requires UniqueListeners(was) && AllMatched(was, now) && i < |was|
    ensures HasName(now, was[i].name) <==> Matched(now, was[i])
  {
    if HasName(now, was[i].name) {
      var j :| 0 <= j < |now| && now[j].name == was[i].name;
      assert Matched(was, now[j]);
      var k :| 0 <= k < |was| && SameFields(was[k], now[j]);
      assert k == i;
      assert SameFields(now[j], was[i]);
    }
  }

  /** From unique names, the diff accepts exactly the same listeners in any order. */
  lemma AcceptsIff(was: seq<Listener>, now: seq<Listener>)
    requires UniqueListeners(was)
    ensures Accepts(Fingerprints(was), Fingerprints(now)) <==> Reordered(was, now)
  {
    hide Reordered, AllKnown, AllKept, AllMatched;
    AllKnownIff(was, now);
    if AllMatched(was, now) {
      KeptIff(was, now);
    }
    Definition(was, now);
  }

  lemma Definition(was: seq<Listener>, now: seq<Listener>)
    ensures Reordered(was, now) <==> |was| == |now| && AllMatched(was, now) && AllMatched(now, was)
  {
  }

  lemma ReorderedSelf(ls: seq<Listener>)
    ensures Reordered(ls, ls)
  {
    forall i | 0 <= i < |ls|
      ensures Matched(ls, ls[i])
    {
      assert SameFields(ls[i], ls[i]);
    }
  }

  lemma MatchedThrough(a: seq<Listener>, b: seq<Listener>, l: Listener)
    requires AllMatched(a, b) && Matched(b, l)
    ensures Matched(a, l)
  {
    var j :| 0 <= j < |b| && SameFields(b[j], l);
    assert Matched(a, b[j]);
    var i :| 0 <= i < |a| && SameFields(a[i], b[j]);
    assert SameFields(a[i], l);
  }

  lemma Reordering(a: seq<Listener>, b: seq<Listener>, c: seq<Listener>)
    requires Reordered(a, b) && Reordered(b, c)
    ensures Reordered(a, c)
  {
    hide Matched;
    forall i | 0 <= i < |c|
      ensures Matched(a, c[i])
    {
      MatchedThrough(a, b, c[i]);
    }
    forall i | 0 <= i < |a|
      ensures Matched(c, a[i])
    {
      MatchedThrough(c, b, a[i]);
    }
  }

  // ---------------------------------------------------------------- what a rejection says

  /** The first of the new listeners that matches none of the old. */
  ghost predicate FirstUnmatched(was: seq<Listener>, now: seq<Listener>, i: nat) {
    i < |now| && !Matched(was, now[i]) && AllMatched(was, now[..i])
  }

  /** The first of address, protocol and mode in which two listeners differ. */
  ghost predicate DifferFirst(a: Listener, b: Listener, field: Field) {
    match field
    case Address => a.address != b.address
    case Protocol => a.address == b.address && a.protocol != b.protocol
    case TlsMode => a.address == b.address && a.protocol == b.protocol && !SameMode(a.tlsMode, b.tlsMode)
  }

  /** Why the new listeners are not the old ones. */
  ghost predicate Explains(was: seq<Listener>, now: seq<Listener>, d: Diff) {
    match d
    case Same => false
    case CountChanged => |was| != |now|
    case Added(n) => exists i: nat :: FirstUnmatched(was, now, i) && now[i].name == n && !HasName(was, n)
    case Changed(n, field) =>
      exists i: nat, j: nat ::
        && FirstUnmatched(was, now, i) && j < |was| && now[i].name == was[j].name == n
        && DifferFirst(was[j], now[i], field)
    case Removed(n) => AllMatched(was, now) && HasName(was, n) && !HasName(now, n)
  }

  lemma FirstUnknownIs(was: seq<Listener>, now: seq<Listener>, i: nat)
    requires UniqueListeners(was) && FirstUnknown(Fingerprints(was), Fingerprints(now), i)
    ensures FirstUnmatched(was, now, i)
  {
    KnownIff(was, now[i]);
    assert Fingerprints(now)[..i] == Fingerprints(now[..i]);
    AllKnownIff(was, now[..i]);
  }

  lemma FieldIs(was: seq<Listener>, j: nat, l: Listener)
    requires UniqueListeners(was) && j < |was| && was[j].name == l.name && !SameFields(was[j], l)
    ensures Named(Fingerprints(was), l.name)
    ensures DifferFirst(was[j], l, FirstField(Last(Fingerprints(was), l.name), FingerprintOf(l)))
  {
    NamesOf(was);
    LastOfUnique(Fingerprints(was), j);
  }

  lemma ReportExplains(was: seq<Listener>, now: seq<Listener>, d: Diff)
    requires UniqueListeners(was) && !d.Same? && Reports(Fingerprints(was), Fingerprints(now), d)
    ensures Explains(was, now, d)
  {
    var fs, gs := Fingerprints(was), Fingerprints(now);
    NamesOf(was);
    NamesOf(now);
    match d
    case CountChanged =>
    case Added(n) =>
      var i: nat :| FirstUnknown(fs, gs, i) && gs[i].name == n && !Named(fs, n);
      FirstUnknownIs(was, now, i);
    case Changed(n, field) =>
      var i: nat :| && FirstUnknown(fs, gs, i) && gs[i].name == n && Named(fs, n)
                    && field == FirstField(Last(fs, n), gs[i]);
      FirstUnknownIs(was, now, i);
      var j: nat :| j < |was| && was[j].name == n;
      assert !SameFields(was[j], now[i]);
      FieldIs(was, j, now[i]);
    case Removed(n) =>
      AllKnownIff(was, now);
      var i: nat :| FirstGone(fs, gs, i) && fs[i].name == n;
      assert was[i].name == n;
  }
}
