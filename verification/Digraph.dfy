/** The compressed sparse row digraph of `AddressGraph`, and reachability in it. */
module Digraph {

  datatype Graph = Graph(addresses: seq<string>, offsets: seq<nat>, edges: seq<nat>) {

    function Size(): nat {
      |addresses|
    }

    /** Row `u` of the edge array is `edges[offsets[u]..offsets[u + 1]]`. */
    ghost predicate Valid() {
      && |offsets| == Size() + 1
      && offsets[0] == 0
      && offsets[Size()] == |edges|
      && (forall u, v :: 0 <= u <= v <= Size() ==> offsets[u] <= offsets[v])
      && (forall k :: 0 <= k < |edges| ==> edges[k] < Size())
    }

    ghost predicate InRow(u: nat, k: nat) {
      u < Size() && |offsets| == Size() + 1 && offsets[u] <= k < offsets[u + 1] && k < |edges|
    }

    ghost predicate Edge(u: nat, v: nat) {
      exists k: nat :: InRow(u, k) && edges[k] == v
    }

    ghost predicate IsPath(p: seq<nat>) {
      |p| > 0 && forall i, j :: 0 <= i < |p| && 0 <= j < |p| && j == i + 1 ==> Edge(p[i], p[j])
    }

    ghost predicate Reach(u: nat, v: nat) {
      exists p :: IsPath(p) && p[0] == u && p[|p| - 1] == v
    }
  }

  lemma ReachRefl(g: Graph, u: nat)
    ensures g.Reach(u, u)
  {
    assert g.IsPath([u]);
  }

  lemma ReachEdge(g: Graph, u: nat, v: nat)
    requires g.Edge(u, v)
    ensures g.Reach(u, v)
  {
    var p := [u, v];
    assert g.IsPath(p) && p[0] == u && p[|p| - 1] == v;
  }

  lemma ReachTrans(g: Graph, u: nat, v: nat, w: nat)
    requires g.Reach(u, v) && g.Reach(v, w)
    ensures g.Reach(u, w)
  {
    var p :| g.IsPath(p) && p[0] == u && p[|p| - 1] == v;
    var q :| g.IsPath(q) && q[0] == v && q[|q| - 1] == w;
    var r := p + q[1..];
    forall i, j | 0 <= i < |r| && 0 <= j < |r| && j == i + 1 ensures g.Edge(r[i], r[j]) {
      if i < |p| - 1 {
        assert g.Edge(p[i], p[j]);
      } else {
        var m := i - (|p| - 1);
        assert r[i] == q[m] && r[j] == q[m + 1];
        assert g.Edge(q[m], q[m + 1]);
      }
    }
    assert g.IsPath(r) && r[0] == u && r[|r| - 1] == w;
  }

  ghost predicate ClosedUnder(g: Graph, s: set<nat>) {
    forall u, v :: u in s && g.Edge(u, v) ==> v in s
  }

  lemma {:induction false} PathStays(g: Graph, s: set<nat>, p: seq<nat>)
    requires ClosedUnder(g, s) && g.IsPath(p) && p[0] in s
    ensures p[|p| - 1] in s
  {
    if |p| > 1 {
      var t := p[1..];
      assert g.Edge(p[0], p[1]);
      forall i, j | 0 <= i < |t| && 0 <= j < |t| && j == i + 1 ensures g.Edge(t[i], t[j]) {
        assert g.Edge(p[i + 1], p[j + 1]);
      }
      PathStays(g, s, t);
    }
  }

  /** A set that no edge leaves contains everything its members reach. */
  lemma ReachStays(g: Graph, s: set<nat>, u: nat, v: nat)
    requires ClosedUnder(g, s) && u in s && g.Reach(u, v)
    ensures v in s
  {
    var p :| g.IsPath(p) && p[0] == u && p[|p| - 1] == v;
    PathStays(g, s, p);
  }
}
