/** Building the address graph from event endpoints: `AddressGraph::build`. */
module AddressGraph {
  import opened Sorting
  import opened Text
  import opened Digraph
  import opened Tarjan
  import opened TarjanEmit

  type Pair = (nat, nat)

  /** Lexicographic order on addresses, by code point. */
  predicate StringLeq(x: string, y: string) {
    if x == [] then true
    else if y == [] then false
    else if x[0] != y[0] then x[0] < y[0]
    else StringLeq(x[1..], y[1..])
  }

  lemma {:induction false} StringLeqTotal(x: string, y: string)
    ensures StringLeq(x, y) || StringLeq(y, x)
    ensures StringLeq(x, y) && StringLeq(y, x) ==> x == y
  {
    if x != [] && y != [] && x[0] == y[0] {
      StringLeqTotal(x[1..], y[1..]);
      assert x == [x[0]] + x[1..] && y == [y[0]] + y[1..];
    }
  }

  lemma {:induction false} StringLeqTransitive(x: string, y: string, z: string)
    requires StringLeq(x, y) && StringLeq(y, z)
    ensures StringLeq(x, z)
  {
    if x != [] && y != [] && z != [] && x[0] == y[0] == z[0] {
      StringLeqTransitive(x[1..], y[1..], z[1..]);
    }
  }

  lemma StringOrder()
    ensures TotalOrder(StringLeq)
  {
    forall x, y
      ensures StringLeq(x, y) || StringLeq(y, x)
      ensures StringLeq(x, y) && StringLeq(y, x) ==> x == y
    {
      StringLeqTotal(x, y);
    }
    forall x, y, z | StringLeq(x, y) && StringLeq(y, z) ensures StringLeq(x, z) {
      StringLeqTransitive(x, y, z);
    }
  }

  /** It is the order of texts. */
  lemma {:induction false} StringLeqMeans(x: string, y: string)
    ensures StringLeq(x, y) <==> x == y || Before(x, y)
  {
    hide Before;
    if x != [] && y != [] && x[0] == y[0] {
      StringLeqMeans(x[1..], y[1..]);
      BeforeTail(x, y);
      assert x == [x[0]] + x[1..] && y == [y[0]] + y[1..];
    } else {
      BeforeHead(x, y);
    }
  }

  /** The endpoints of the pairs. */
  function Endpoints(pairs: seq<(string, string)>): set<string> {
    (set p | p in pairs :: p.0) + (set p | p in pairs :: p.1)
  }

  /** The graph of `pairs`: its vertices are the endpoints in order, and each row lists
      its vertex's distinct targets in order. */
  ghost predicate GraphOf(pairs: seq<(string, string)>, g: Graph) {
    && g.Valid()
    && Distinct(g.addresses)
    && (forall i, j :: 0 <= i < j < |g.addresses| ==> Before(g.addresses[i], g.addresses[j]))
    && (forall a :: a in g.addresses <==> exists p :: p in pairs && (a == p.0 || a == p.1))
    && (forall u: nat, v: nat :: u < g.Size() && v < g.Size() ==>
          (g.Edge(u, v) <==> (g.addresses[u], g.addresses[v]) in pairs))
    && (forall u: nat, k: nat, l: nat :: g.InRow(u, k) && g.InRow(u, l) && k < l ==> g.edges[k] < g.edges[l])
  }

  /** Position of an address in a sorted, duplicate-free table. */
  function IndexOf(addresses: seq<string>, a: string): (i: nat)
    requires a in addresses
    ensures i < |addresses| && addresses[i] == a
  {
    if addresses[0] == a then 0 else 1 + IndexOf(addresses[1..], a)
  }

  // ----- where the rows of a sorted edge list begin

  /** How many pairs leave a vertex below `u`. */
  function RowStart(ps: seq<Pair>, u: nat): (r: nat)
    ensures r <= |ps|
  {
    if ps == [] then 0
    else RowStart(ps[..|ps| - 1], u) + if ps[|ps| - 1].0 < u then 1 else 0
  }

  function RowLength(ps: seq<Pair>, u: nat): nat {
    if ps == [] then 0
    else RowLength(ps[..|ps| - 1], u) + if ps[|ps| - 1].0 == u then 1 else 0
  }

  lemma {:induction false} RowStartStep(ps: seq<Pair>, u: nat)
    ensures RowStart(ps, u + 1) == RowStart(ps, u) + RowLength(ps, u)
    ensures RowStart(ps, 0) == 0
  {
    if ps != [] {
      RowStartStep(ps[..|ps| - 1], u);
    }
  }

  lemma {:induction false} RowStartAll(ps: seq<Pair>, n: nat)
    requires forall p :: p in ps ==> p.0 < n
    ensures RowStart(ps, n) == |ps|
  {
    if ps != [] {
      RowStartAll(ps[..|ps| - 1], n);
      assert ps[|ps| - 1] in ps;
    }
  }

  lemma {:induction false} RowStartMonotone(ps: seq<Pair>, u: nat, v: nat)
    requires u <= v
    ensures RowStart(ps, u) <= RowStart(ps, v)
  {
    if ps != [] {
      RowStartMonotone(ps[..|ps| - 1], u, v);
    }
  }

  /** In a sorted list the pairs below `u` are exactly the first ones. */
  lemma {:induction false} RowStartCuts(ps: seq<Pair>, u: nat, k: nat)
    requires Ordered(PairLeq, ps) && k < |ps|
    ensures ps[k].0 < u <==> k < RowStart(ps, u)
  {
    var m := |ps| - 1;
    var q := ps[..m];
    forall i, j | 0 <= i < j < m ensures PairLeq(q[i], q[j]) {
      assert PairLeq(ps[i], ps[j]);
    }
    if k < m {
      assert PairLeq(ps[k], ps[m]);
      RowStartCuts(q, u, k);
      assert q[k] == ps[k];
    }
    if ps[m].0 < u {
      RowStartFull(q, u, ps[m].0);
    }
  }

  lemma {:induction false} RowStartFull(ps: seq<Pair>, u: nat, b: nat)
    requires b < u && forall i :: 0 <= i < |ps| ==> ps[i].0 <= b
    ensures RowStart(ps, u) == |ps|
  {
    if ps != [] {
      RowStartFull(ps[..|ps| - 1], u, b);
    }
  }

  // ----- from the sorted edge list to the graph

  /** Row `u` is where the pairs leaving `u` are. */
  ghost predicate Compressed(ps: seq<Pair>, g: Graph) {
    && Ordered(PairLeq, ps) && Distinct(ps)
    && (forall p :: p in ps ==> p.0 < g.Size() && p.1 < g.Size())
    && |g.edges| == |ps| && (forall k :: 0 <= k < |ps| ==> g.edges[k] == ps[k].1)
    && |g.offsets| == g.Size() + 1
    && (forall u :: 0 <= u <= g.Size() ==> g.offsets[u] == RowStart(ps, u))
  }

  lemma RowHolds(ps: seq<Pair>, g: Graph, u: nat, k: nat)
    requires Compressed(ps, g) && u < g.Size()
    ensures g.InRow(u, k) <==> k < |ps| && ps[k].0 == u
  {
    if k < |ps| {
      RowStartCuts(ps, u, k);
      RowStartCuts(ps, u + 1, k);
    }
  }

  lemma CompressedValid(ps: seq<Pair>, g: Graph)
    requires Compressed(ps, g)
    ensures g.Valid()
  {
    RowStartStep(ps, 0);
    RowStartAll(ps, g.Size());
    forall u, v | 0 <= u <= v <= g.Size() ensures g.offsets[u] <= g.offsets[v] {
      RowStartMonotone(ps, u, v);
    }
    forall k | 0 <= k < |g.edges| ensures g.edges[k] < g.Size() {
      assert ps[k] in ps;
    }
  }

  lemma CompressedEdges(ps: seq<Pair>, g: Graph, u: nat, v: nat)
    requires Compressed(ps, g) && u < g.Size()
    ensures g.Edge(u, v) <==> (u, v) in ps
  {
    if (u, v) in ps {
      var k :| 0 <= k < |ps| && ps[k] == (u, v);
      RowHolds(ps, g, u, k);
    }
    if g.Edge(u, v) {
      var k: nat :| g.InRow(u, k) && g.edges[k] == v;
      RowHolds(ps, g, u, k);
      assert ps[k] == (u, v);
    }
  }

  lemma CompressedRowsRise(ps: seq<Pair>, g: Graph, u: nat, k: nat, l: nat)
    requires Compressed(ps, g) && g.InRow(u, k) && g.InRow(u, l) && k < l
    ensures g.edges[k] < g.edges[l]
  {
    RowHolds(ps, g, u, k);
    RowHolds(ps, g, u, l);
    assert PairLeq(ps[k], ps[l]) && ps[k] != ps[l];
  }

  /** The pairs, with each endpoint replaced by its position. */
  ghost predicate Indexed(pairs: seq<(string, string)>, addresses: seq<string>, ps: seq<Pair>) {
    forall u: nat, v: nat :: (u, v) in ps <==>
      u < |addresses| && v < |addresses| && (addresses[u], addresses[v]) in pairs
  }

  lemma CompressedIsGraph(pairs: seq<(string, string)>, ps: seq<Pair>, g: Graph)
    requires Compressed(ps, g) && Indexed(pairs, g.addresses, ps)
    requires Ordered(StringLeq, g.addresses) && Distinct(g.addresses)
    requires forall a :: a in g.addresses <==> a in Endpoints(pairs)
    ensures GraphOf(pairs, g)
  {
    hide StringLeq, Before;
    CompressedValid(ps, g);
    forall i, j | 0 <= i < j < |g.addresses| ensures Before(g.addresses[i], g.addresses[j]) {
      assert StringLeq(g.addresses[i], g.addresses[j]);
      StringLeqMeans(g.addresses[i], g.addresses[j]);
    }
    forall u: nat, v: nat | u < g.Size() && v < g.Size()
      ensures g.Edge(u, v) <==> (g.addresses[u], g.addresses[v]) in pairs
    {
      CompressedEdges(ps, g, u, v);
    }
    forall u: nat, k: nat, l: nat | g.InRow(u, k) && g.InRow(u, l) && k < l
      ensures g.edges[k] < g.edges[l]
    {
      CompressedRowsRise(ps, g, u, k, l);
    }
  }

  // ----- the code

  /** Row offsets: count the pairs of each row, then add the counts up. */
  method RowOffsets(ps: seq<Pair>, n: nat) returns (offsets: seq<nat>)
    requires forall p :: p in ps ==> p.0 < n
    ensures |offsets| == n + 1 && forall u :: 0 <= u <= n ==> offsets[u] == RowStart(ps, u)
  {
    var table := new nat[n + 1](_ => 0);
    var k := 0;
    while k < |ps|
      invariant 0 <= k <= |ps| && table[0] == 0
      invariant forall u :: 0 <= u < n ==> table[u + 1] == RowLength(ps[..k], u)
    {
      assert ps[k] in ps && ps[..k + 1][..k] == ps[..k];
      table[ps[k].0 + 1] := table[ps[k].0 + 1] + 1;
      k := k + 1;
    }
    assert ps[..k] == ps;
    RowStartStep(ps, 0);
    var vertex := 0;
    while vertex < n
      invariant 0 <= vertex <= n
      invariant forall u :: 0 <= u <= vertex ==> table[u] == RowStart(ps, u)
      invariant forall u :: vertex <= u < n ==> table[u + 1] == RowLength(ps, u)
    {
      RowStartStep(ps, vertex);
      table[vertex + 1] := table[vertex + 1] + table[vertex];
      vertex := vertex + 1;
    }
    offsets := table[..];
  }

  ghost predicate Mapped(pairs: seq<(string, string)>, addresses: seq<string>, q: Pair)
    requires forall p :: p in pairs ==> p.0 in addresses && p.1 in addresses
  {
    exists i :: 0 <= i < |pairs|
      && q == (IndexOf(addresses, pairs[i].0), IndexOf(addresses, pairs[i].1))
  }

  lemma IndexPairs(pairs: seq<(string, string)>, addresses: seq<string>, ps: seq<Pair>)
    requires Distinct(addresses) && forall p :: p in pairs ==> p.0 in addresses && p.1 in addresses
    requires forall q :: q in ps <==> Mapped(pairs, addresses, q)
    ensures Indexed(pairs, addresses, ps)
  {}

  lemma MappedNext(pairs: seq<(string, string)>, addresses: seq<string>, i: nat)
    requires forall p :: p in pairs ==> p.0 in addresses && p.1 in addresses
    requires i < |pairs|
    ensures forall q :: Mapped(pairs[..i + 1], addresses, q) <==>
              Mapped(pairs[..i], addresses, q)
              || q == (IndexOf(addresses, pairs[i].0), IndexOf(addresses, pairs[i].1))
  {}

  method Build(pairs: seq<(string, string)>) returns (g: Graph)
    ensures GraphOf(pairs, g)
  {
    hide Sort, Dedup, Ordered, Distinct, StringLeq, PairLeq, RowStart;
    var unique := {};
    var i := 0;
    while i < |pairs|
      invariant 0 <= i <= |pairs| && unique == Endpoints(pairs[..i])
    {
      assert pairs[..i + 1] == pairs[..i] + [pairs[i]];
      unique := unique + {pairs[i].0, pairs[i].1};
      i := i + 1;
    }
    assert pairs[..i] == pairs;
    StringOrder();
    var addresses := SortSetBy(StringLeq, unique);
    var edgePairs: seq<Pair> := [];
    i := 0;
    while i < |pairs|
      invariant 0 <= i <= |pairs|
      invariant forall q :: q in edgePairs <==> Mapped(pairs[..i], addresses, q)
    {
      MappedNext(pairs, addresses, i);
      edgePairs := edgePairs + [(IndexOf(addresses, pairs[i].0), IndexOf(addresses, pairs[i].1))];
      i := i + 1;
    }
    assert pairs[..i] == pairs;
    IndexPairs(pairs, addresses, edgePairs);
    var sorted := Sort(PairLeq, edgePairs);
    PairOrder();
    SortOrdered(PairLeq, edgePairs);
    PermutationMembers(sorted, edgePairs);
    DedupOrdered(PairLeq, sorted);
    edgePairs := Dedup(sorted);
    var offsets := RowOffsets(edgePairs, |addresses|);
    g := Graph(addresses, offsets, seq(|edgePairs|, k requires 0 <= k < |edgePairs| => edgePairs[k].1));
    assert Compressed(edgePairs, g);
    CompressedIsGraph(pairs, edgePairs, g);
  }

  /** The events an address graph is built from: those between two distinct, known
      addresses. */
  function Hops(events: seq<(string, string)>): (r: seq<(string, string)>)
    ensures forall p :: p in r <==> p in events && p.0 != "" && p.1 != "" && p.0 != p.1
  {
    if events == [] then []
    else
      var last := events[|events| - 1];
      var rest := Hops(events[..|events| - 1]);
      assert events == events[..|events| - 1] + [last];
      if last.0 == "" || last.1 == "" || last.0 == last.1 then rest else rest + [last]
  }

  /** `from_transfers` and `from_sales`, then the components. */
  method ComponentsOfEvents(events: seq<(string, string)>)
    returns (g: Graph, components: seq<seq<nat>>)
    ensures GraphOf(Hops(events), g) && SccDecomposition(g, components) && StartsInOrder(g, components, g.Size())
    ensures forall u: nat :: u < g.Size() ==> !g.Edge(u, u)
  {
    g := Build(Hops(events));
    components := StronglyConnectedComponents(g);
  }
}
