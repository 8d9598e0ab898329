/** The size of a configuration tree: how many entries and items there are in it, at any depth. */
module YamlNodes {
  import opened Yaml

  // ---------------------------------------------------------------- sums

  ghost function MapSum(m: map<string, nat>): nat {
    if m == map[] then 0
    else
      var k :| k in m;
      m[k] + MapSum(m - {k})
  }

  lemma {:induction false} MapSumTake(m: map<string, nat>, k: string)
    requires k in m
    ensures MapSum(m) == m[k] + MapSum(m - {k})
    decreases |m|
  {
    var j :| j in m && MapSum(m) == m[j] + MapSum(m - {j});
    if j != k {
      assert |m - {j}| < |m| && |m - {k}| < |m| by {
        SmallerMap(m, j);
        SmallerMap(m, k);
      }
      MapSumTake(m - {j}, k);
      MapSumTake(m - {k}, j);
      assert m - {j} - {k} == m - {k} - {j};
    }
  }

  lemma SmallerMap(m: map<string, nat>, k: string)
    requires k in m
    ensures |m - {k}| < |m|
  {
    assert (m - {k}).Keys == m.Keys - {k};
    assert |m.Keys| == |m| && |(m - {k}).Keys| == |m - {k}|;
  }

  lemma MapSumPut(m: map<string, nat>, k: string, n: nat)
    ensures MapSum(m[k := n]) == n + MapSum(m - {k})
  {
    MapSumTake(m[k := n], k);
    assert m[k := n] - {k} == m - {k};
  }

  ghost function SeqSum(s: seq<nat>): nat {
    if s == [] then 0 else SeqSum(s[..|s| - 1]) + s[|s| - 1]
  }

  // ---------------------------------------------------------------- nodes

  /** All entries of mappings and all items of sequences in a tree. */
  ghost function Nodes(v: Value): nat {
    match v
    case Mapping(m) => MapSum(map k | k in m :: 1 + Nodes(m[k]))
    case Sequence(items) => SeqSum(seq(|items|, i requires 0 <= i < |items| => 1 + Nodes(items[i])))
    case _ => 0
  }

  /** One more than f for every entry. */
  ghost function Sizes(m: map<string, Value>, f: Value -> nat): map<string, nat> {
    map k | k in m :: 1 + f(m[k])
  }

  lemma SizesPut(m: map<string, Value>, f: Value -> nat, k: string, v: Value)
    ensures Sizes(m[k := v], f) == Sizes(m, f)[k := 1 + f(v)]
  {
  }

  lemma NodesOfMapping(m: map<string, Value>)
    ensures Nodes(Mapping(m)) == MapSum(Sizes(m, Nodes))
  {
    assert (map k | k in m :: 1 + Nodes(m[k])) == Sizes(m, Nodes);
  }

  lemma NodesEmpty()
    ensures Nodes(Mapping(map[])) == 0 && Nodes(Sequence([])) == 0
  {
    NodesOfMapping(map[]);
  }

  lemma MapSumGrows(m: map<string, nat>, k: string, n: nat)
    requires n > 0 && (k in m ==> m[k] > 0)
    ensures k !in m ==> MapSum(m[k := n]) == MapSum(m) + n
    ensures k in m ==> MapSum(m[k := n]) < MapSum(m) + n
  {
    MapSumPut(m, k, n);
    if k in m {
      MapSumTake(m, k);
    } else {
      assert m - {k} == m;
    }
  }

  lemma SizesGrow(m: map<string, Value>, f: Value -> nat, k: string, v: Value)
    ensures k !in m ==> MapSum(Sizes(m[k := v], f)) == MapSum(Sizes(m, f)) + 1 + f(v)
    ensures k in m ==> MapSum(Sizes(m[k := v], f)) < MapSum(Sizes(m, f)) + 1 + f(v)
  {
    SizesPut(m, f, k, v);
    MapSumGrows(Sizes(m, f), k, 1 + f(v));
  }

  /** An entry under a new key adds itself and its value; under an old one it adds less. */
  lemma NodesPut(m: map<string, Value>, k: string, v: Value)
    ensures k !in m ==> Nodes(Mapping(m[k := v])) == Nodes(Mapping(m)) + 1 + Nodes(v)
    ensures k in m ==> Nodes(Mapping(m[k := v])) < Nodes(Mapping(m)) + 1 + Nodes(v)
  {
    NodesOfMapping(m);
    NodesOfMapping(m[k := v]);
    SizesGrow(m, Nodes, k, v);
  }

  /** One more item. */
  lemma NodesAppend(items: seq<Value>, v: Value)
    ensures Nodes(Sequence(items + [v])) == Nodes(Sequence(items)) + 1 + Nodes(v)
  {
    var was := seq(|items|, i requires 0 <= i < |items| => 1 + Nodes(items[i]));
    var all := items + [v];
    var now := seq(|all|, i requires 0 <= i < |all| => 1 + Nodes(all[i]));
    assert now[..|items|] == was && now[|items|] == 1 + Nodes(v);
    assert Nodes(Sequence(all)) == SeqSum(now);
  }
}
