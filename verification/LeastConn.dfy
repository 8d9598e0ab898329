/** The least-connections balancer (internal/balancer/lc.go). */
module LeastConn {
  import opened Backend

  /** Connections per address; an address that is missing has none. */
  type Counts = map<string, int>

  function Count(m: Counts, a: string): int {
    if a in m then m[a] else 0
  }

  function Acquired(m: Counts, a: string): (r: Counts)
    ensures forall x :: Count(r, x) == Count(m, x) + if x == a then 1 else 0
  {
    m[a := Count(m, a) + 1]
  }

  /** Clamped at zero. */
  function Released(m: Counts, a: string): (r: Counts)
    ensures forall x :: Count(r, x) == Count(m, x) - if x == a && Count(m, a) > 0 then 1 else 0
  {
    if Count(m, a) > 0 then m[a := Count(m, a) - 1] else m
  }

  /** What Pick looks at in one backend. */
  datatype Candidate = Candidate(selectable: bool, address: string, weight: int)

  /** Backend i comes before j: fewer connections, then more weight, then earlier in the list. */
  predicate Before(cs: seq<Candidate>, load: string -> int, i: nat, j: nat)
    requires i < |cs| && j < |cs|
  {
    var x, y := load(cs[i].address), load(cs[j].address);
    x < y || (x == y && (cs[i].weight > cs[j].weight || (cs[i].weight == cs[j].weight && i <= j)))
  }

  /** Backend i is selectable and comes before every other selectable one. */
  ghost predicate IsBest(cs: seq<Candidate>, load: string -> int, i: nat) {
    && i < |cs| && cs[i].selectable
    && forall j: nat :: j < |cs| && cs[j].selectable ==> Before(cs, load, i, j)
  }

  /** There is one best backend. */
  lemma BestUnique(cs: seq<Candidate>, load: string -> int, i: nat, j: nat)
    requires IsBest(cs, load, i) && IsBest(cs, load, j)
    ensures i == j
  {
    assert Before(cs, load, i, j) && Before(cs, load, j, i);
  }

  class LeastConnections {
    var backends: seq<Server>
    var conns: Counts

    constructor (backends: seq<Server>)
      ensures this.backends == backends && conns == map[]
    {
      this.backends, conns := backends, map[];
    }

    function CandidateAt(i: nat): Candidate
      requires i < |backends|
      reads this, backends
    {
      Candidate(backends[i].healthy && !backends[i].draining && !backends[i].circuitOpen,
                backends[i].address, backends[i].weight)
    }

    ghost function Candidates(): (r: seq<Candidate>)
      reads this, backends
      ensures |r| == |backends|
      ensures forall i :: 0 <= i < |r| ==> r[i] == CandidateAt(i)
    {
      seq(|backends|, i requires 0 <= i < |backends| reads this, backends => CandidateAt(i))
    }

    ghost function Load(): string -> int
      reads this
    {
      var m := conns;
      a => Count(m, a)
    }

    /** The index of the chosen backend. */
    method Pick() returns (r: Option<nat>)
      ensures r.None? <==> forall b :: b in backends ==> !b.healthy || b.draining || b.circuitOpen
      ensures r.Some? ==> IsBest(Candidates(), Load(), r.value)
      ensures r.Some? ==>
                var b := backends[r.value];
                b.healthy && !b.draining && !b.circuitOpen
    {
      var best, bestConns, bestWeight, first := 0, 0, 0, true;
      ghost var cs, load := Candidates(), Load();
      for i := 0 to |backends|
        invariant first <==> forall j: nat :: j < i ==> !cs[j].selectable
        invariant first ==>
                    forall j: nat :: j < i ==> !backends[j].healthy || backends[j].draining || backends[j].circuitOpen
        invariant !first ==> best < i && cs[best].selectable
        invariant !first ==> bestConns == load(cs[best].address) && bestWeight == cs[best].weight
        invariant !first ==> forall j: nat :: j < i && cs[j].selectable ==> Before(cs, load, best, j)
      {
        var b := backends[i];
        assert cs[i] == CandidateAt(i);
        if b.Selectable() {
          var c := Count(conns, b.address);
          assert c == load(cs[i].address);
          if first || c < bestConns || (c == bestConns && b.weight > bestWeight) {
            best, bestConns, bestWeight, first := i, c, b.weight, false;
          }
        }
      }
      assert !first ==> backends[best] in backends && cs[best] == CandidateAt(best);
      return if first then None else Some(best);
    }

    method Acquire(address: string)
      modifies this`conns
      ensures conns == Acquired(old(conns), address)
    {
      conns := conns[address := Count(conns, address) + 1];
    }

    method Release(address: string)
      modifies this`conns
      ensures conns == Released(old(conns), address)
    {
      if Count(conns, address) > 0 {
        conns := conns[address := Count(conns, address) - 1];
      }
    }
  }
}
