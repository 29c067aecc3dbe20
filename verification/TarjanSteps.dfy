/** Tarjan's strongly-connected-components search as a state machine: the state its
    fields hold, the invariant tying that state to the graph, and one lemma per step.
    The search itself is `Tarjan.Search`, whose methods take these steps. */
module TarjanSteps {
  import opened Wrappers
  import opened Sorting
  import opened Digraph

  datatype Frame = Frame(vertex: nat, nextEdge: nat, parent: Option<nat>)

  /** A snapshot of the search's fields. */
  datatype State = State(
    next: nat,
    index: seq<Option<nat>>,
    low: seq<nat>,
    stack: seq<nat>,
    onStack: seq<bool>,
    components: seq<seq<nat>>)
  {
    ghost predicate Visited(v: nat) {
      v < |index| && index[v].Some?
    }

    /** Discovery number of a visited vertex. */
    ghost function Rank(v: nat): nat {
      if v < |index| && index[v].Some? then index[v].value else 0
    }

    ghost function Low(v: nat): nat {
      if v < |low| then low[v] else 0
    }
  }

  // ----- the invariant, one aspect at a time

  ghost predicate Shape(g: Graph, s: State) {
    && |s.index| == |s.low| == |s.onStack| == g.Size()
    && forall v: nat :: s.Visited(v) ==> s.Rank(v) < s.next
  }

  ghost predicate StackOk(g: Graph, s: State) {
    && (forall v: nat :: v in s.stack ==> v < g.Size() && s.Visited(v))
    && (forall i, j :: 0 <= i < j < |s.stack| ==> s.Rank(s.stack[i]) < s.Rank(s.stack[j]))
    && (forall v :: 0 <= v < |s.onStack| ==> (s.onStack[v] <==> v in s.stack))
  }

  ghost predicate InComponents(c: seq<seq<nat>>, v: nat) {
    exists j :: 0 <= j < |c| && v in c[j]
  }

  /** Every visited vertex waits on the stack or is in exactly one component. */
  ghost predicate Placed(g: Graph, s: State) {
    && (forall v: nat :: v < g.Size() && s.Visited(v) ==> v in s.stack || InComponents(s.components, v))
    && (forall j, v: nat {:trigger v in s.components[j]} :: 0 <= j < |s.components| && v in s.components[j] ==>
          v < g.Size() && s.Visited(v) && v !in s.stack)
    && Apart(s.components)
    && (forall j :: 0 <= j < |s.components| ==> s.components[j] != [] && Increasing(s.components[j]))
  }

  ghost predicate Apart(c: seq<seq<nat>>) {
    forall i, j, v: nat :: 0 <= i < j < |c| && v in c[i] ==> v !in c[j]
  }

  ghost predicate InEarlier(c: seq<seq<nat>>, j: int, v: nat) {
    exists i :: 0 <= i <= j && i < |c| && v in c[i]
  }

  /** Components are strongly connected, and their edges lead to no later component. */
  ghost predicate Finished(g: Graph, c: seq<seq<nat>>) {
    && (forall j, u: nat, v: nat :: 0 <= j < |c| && u in c[j] && v in c[j] ==> g.Reach(u, v))
    && (forall j, u: nat, v: nat :: 0 <= j < |c| && u in c[j] && g.Edge(u, v) ==> InEarlier(c, j, v))
  }

  /** The frames are the current tree path, from the bottom of the stack upwards. */
  ghost predicate FramesOk(g: Graph, s: State, fr: seq<Frame>) {
    && |g.offsets| == g.Size() + 1
    && (forall i :: 0 <= i < |fr| ==>
          && fr[i].vertex in s.stack
          && fr[i].vertex < g.Size()
          && g.offsets[fr[i].vertex] <= fr[i].nextEdge <= g.offsets[fr[i].vertex + 1])
    && RanksRise(s, fr)
    && (forall i, j :: 0 <= i < |fr| && 0 <= j < |fr| && j == i + 1 ==>
          fr[j].parent == Some(fr[i].vertex) && g.Edge(fr[i].vertex, fr[j].vertex))
    && (fr == [] ==> s.stack == [])
    && (fr != [] ==> fr[0].parent == None && s.stack != [] && s.stack[0] == fr[0].vertex)
  }

  ghost predicate RanksRise(s: State, fr: seq<Frame>) {
    forall i, j :: 0 <= i < j < |fr| ==> s.Rank(fr[i].vertex) < s.Rank(fr[j].vertex)
  }

  ghost predicate Active(fr: seq<Frame>, v: nat) {
    exists i :: 0 <= i < |fr| && fr[i].vertex == v
  }

  /** Edge slot `k` of `v` has been looked at. */
  ghost predicate Done(g: Graph, fr: seq<Frame>, v: nat, k: nat) {
    g.InRow(v, k) && forall i :: 0 <= i < |fr| && fr[i].vertex == v ==> k < fr[i].nextEdge
  }

  ghost predicate Explored(g: Graph, s: State, fr: seq<Frame>) {
    forall v: nat, k: nat :: v in s.stack && Done(g, fr, v, k) ==> s.Visited(g.edges[k])
  }

  ghost predicate LowWitness(g: Graph, s: State, v: nat, u: nat) {
    u in s.stack && s.Rank(u) == s.Low(v) && g.Reach(v, u)
  }

  /** A low link is the rank of a stacked vertex that can be reached. */
  ghost predicate LowSound(g: Graph, s: State) {
    forall v: nat {:trigger s.Low(v)} ::
      v in s.stack ==> s.Low(v) <= s.Rank(v) && exists u: nat :: LowWitness(g, s, v, u)
  }

  ghost predicate Waiting(s: State, fr: seq<Frame>) {
    forall v: nat {:trigger s.Low(v)} :: v in s.stack && !Active(fr, v) ==> s.Low(v) < s.Rank(v)
  }

  /** An active vertex reaches everything stacked above it. */
  ghost predicate Spans(g: Graph, s: State, fr: seq<Frame>) {
    forall i, x: nat :: 0 <= i < |fr| && x in s.stack && s.Rank(fr[i].vertex) <= s.Rank(x) ==>
                     g.Reach(fr[i].vertex, x)
  }

  /** `y` is stacked from frame `i`'s vertex up to, and without, the next frame's. */
  ghost predicate InSegment(s: State, fr: seq<Frame>, i: int, y: nat) {
    && 0 <= i < |fr|
    && y in s.stack
    && s.Rank(fr[i].vertex) <= s.Rank(y)
    && (i + 1 < |fr| ==> s.Rank(y) < s.Rank(fr[i + 1].vertex))
  }

  /** A frame's low link bounds every stacked target seen from its segment. */
  ghost predicate LowComplete(g: Graph, s: State, fr: seq<Frame>) {
    forall i, y: nat, k: nat :: InSegment(s, fr, i, y) && Done(g, fr, y, k) && g.edges[k] in s.stack ==>
                        s.Low(fr[i].vertex) <= s.Rank(g.edges[k])
  }

  ghost predicate Inv(g: Graph, s: State, fr: seq<Frame>) {
    && g.Valid() && Shape(g, s) && StackOk(g, s) && Placed(g, s) && Finished(g, s.components)
    && FramesOk(g, s, fr) && Explored(g, s, fr) && LowSound(g, s) && Waiting(s, fr)
    && Spans(g, s, fr) && LowComplete(g, s, fr)
  }

  // ----- small facts

  lemma RankInjective(g: Graph, s: State, u: nat, v: nat)
    requires StackOk(g, s) && u in s.stack && v in s.stack && s.Rank(u) == s.Rank(v)
    ensures u == v
  {
    var i :| 0 <= i < |s.stack| && s.stack[i] == u;
    var j :| 0 <= j < |s.stack| && s.stack[j] == v;
  }

  function Min(a: nat, b: nat): nat {
    if a <= b then a else b
  }

  // ----- discovering a vertex

  function Discovered(s: State, v: nat): State
    requires v < |s.index| && v < |s.low| && v < |s.onStack|
  {
    State(s.next + 1, s.index[v := Some(s.next)], s.low[v := s.next], s.stack + [v],
          s.onStack[v := true], s.components)
  }

  function Advanced(fr: seq<Frame>): seq<Frame> {
    if fr == [] then []
    else
      var top := fr[|fr| - 1];
      fr[|fr| - 1 := top.(nextEdge := top.nextEdge + 1)]
  }

  /** The frames after following the top frame's next edge to the new vertex `w`. */
  function Entered(g: Graph, fr: seq<Frame>, w: nat): seq<Frame>
    requires w < |g.offsets|
  {
    Advanced(fr)
    + [Frame(w, g.offsets[w], if fr == [] then None else Some(fr[|fr| - 1].vertex))]
  }

  /** The top frame's next edge exists and leads to `w`. */
  ghost predicate LeadsTo(g: Graph, fr: seq<Frame>, w: nat) {
    fr != [] ==>
      var top := fr[|fr| - 1];
      g.InRow(top.vertex, top.nextEdge) && g.edges[top.nextEdge] == w
  }

  /** What discovering `w` changes, vertex by vertex. */
  ghost predicate Discovers(s: State, s': State, w: nat) {
    && (forall v: nat :: v != w ==>
          && s'.Visited(v) == s.Visited(v) && s'.Rank(v) == s.Rank(v) && s'.Low(v) == s.Low(v)
          && (v in s'.stack <==> v in s.stack))
    && w in s'.stack && w !in s.stack
    && s'.Visited(w) && s'.Rank(w) == s'.Low(w) == s.next
    && (forall v: nat :: v in s.stack ==> s.Rank(v) < s.next)
    && s'.components == s.components
  }

  /** What following an edge to `w` changes, frame by frame. */
  ghost predicate Enters(g: Graph, fr: seq<Frame>, fr': seq<Frame>, w: nat) {
    && w < g.Size() && |g.offsets| == g.Size() + 1
    && |fr'| == |fr| + 1
    && (forall i :: 0 <= i < |fr| ==> fr'[i].vertex == fr[i].vertex && fr'[i].parent == fr[i].parent)
    && (forall i :: 0 <= i < |fr| - 1 ==> fr'[i].nextEdge == fr[i].nextEdge)
    && (fr != [] ==> fr'[|fr| - 1].nextEdge == fr[|fr| - 1].nextEdge + 1)
    && fr'[|fr|] == Frame(w, g.offsets[w], if fr == [] then None else Some(fr[|fr| - 1].vertex))
    && LeadsTo(g, fr, w)
  }

  lemma DiscoverShape(g: Graph, s: State, w: nat)
    requires Shape(g, s) && StackOk(g, s) && w < g.Size() && !s.Visited(w)
    ensures var s' := Discovered(s, w); Discovers(s, s', w) && Shape(g, s') && StackOk(g, s')
  {
    var s' := Discovered(s, w);
    assert s'.stack[|s.stack|] == w;
    forall v: nat | v != w ensures v in s'.stack <==> v in s.stack {
      if v in s.stack {
        var i :| 0 <= i < |s.stack| && s.stack[i] == v;
        assert s'.stack[i] == v;
      }
    }
  }

  lemma DiscoverPlaced(g: Graph, s: State, s': State, w: nat)
    requires Discovers(s, s', w) && !s.Visited(w) && Placed(g, s)
    ensures Placed(g, s')
  {}

  lemma DiscoverFrames(g: Graph, s: State, s': State, fr: seq<Frame>, fr': seq<Frame>, w: nat)
    requires FramesOk(g, s, fr) && Enters(g, fr, fr', w)
    requires Discovers(s, s', w) && s'.stack == s.stack + [w] && g.offsets[w] <= g.offsets[w + 1]
    ensures FramesOk(g, s', fr')
  {
    var n := |fr|;
    forall i | 0 <= i < n + 1
      ensures fr'[i].vertex in s'.stack && fr'[i].vertex < g.Size()
      ensures g.offsets[fr'[i].vertex] <= fr'[i].nextEdge <= g.offsets[fr'[i].vertex + 1]
    {
      assert i < n ==> fr[i].vertex in s.stack;
    }
    forall i, j | 0 <= i < j < n + 1 ensures s'.Rank(fr'[i].vertex) < s'.Rank(fr'[j].vertex) {
      assert fr[i].vertex in s.stack;
      assert j < n ==> fr[j].vertex in s.stack;
    }
    DiscoverLinks(g, s, fr, fr', w);
    assert fr' != [] && fr'[0].parent == None && s'.stack != [] && s'.stack[0] == fr'[0].vertex;
  }

  lemma DiscoverLinks(g: Graph, s: State, fr: seq<Frame>, fr': seq<Frame>, w: nat)
    requires FramesOk(g, s, fr) && Enters(g, fr, fr', w)
    ensures forall i, j :: 0 <= i < |fr'| && 0 <= j < |fr'| && j == i + 1 ==>
              fr'[j].parent == Some(fr'[i].vertex) && g.Edge(fr'[i].vertex, fr'[j].vertex)
  {
    forall i, j | 0 <= i < |fr'| && 0 <= j < |fr'| && j == i + 1
      ensures fr'[j].parent == Some(fr'[i].vertex) && g.Edge(fr'[i].vertex, fr'[j].vertex)
    {
      if j < |fr| {
        assert g.Edge(fr[i].vertex, fr[j].vertex);
      }
    }
  }

  lemma DiscoverDone(g: Graph, fr: seq<Frame>, fr': seq<Frame>, w: nat, v: nat, k: nat)
    requires Enters(g, fr, fr', w) && Done(g, fr', v, k)
    ensures v != w
    ensures Done(g, fr, v, k) || g.edges[k] == w
  {
    assert fr'[|fr|].vertex == w;
    if g.edges[k] != w {
      forall i | 0 <= i < |fr| && fr[i].vertex == v ensures k < fr[i].nextEdge {
        assert fr'[i].vertex == v;
      }
    }
  }

  lemma DiscoverExplored(g: Graph, s: State, s': State, fr: seq<Frame>, fr': seq<Frame>, w: nat)
    requires Discovers(s, s', w) && Enters(g, fr, fr', w) && Explored(g, s, fr)
    ensures Explored(g, s', fr')
  {
    forall v: nat, k: nat | v in s'.stack && Done(g, fr', v, k) ensures s'.Visited(g.edges[k]) {
      DiscoverDone(g, fr, fr', w, v, k);
    }
  }

  lemma DiscoverLow(g: Graph, s: State, s': State, w: nat)
    requires Discovers(s, s', w) && LowSound(g, s)
    ensures LowSound(g, s')
  {
    forall v: nat | v in s'.stack
      ensures s'.Low(v) <= s'.Rank(v) && exists u: nat :: LowWitness(g, s', v, u)
    {
      if v == w {
        ReachRefl(g, w);
        assert LowWitness(g, s', w, w);
      } else {
        var u: nat :| LowWitness(g, s, v, u);
        assert LowWitness(g, s', v, u);
      }
    }
  }

  lemma DiscoverWaiting(g: Graph, s: State, s': State, fr: seq<Frame>, fr': seq<Frame>, w: nat)
    requires Discovers(s, s', w) && Enters(g, fr, fr', w) && Waiting(s, fr)
    ensures Waiting(s', fr')
  {
    assert fr'[|fr|].vertex == w;
    forall v: nat | v in s'.stack && !Active(fr', v) ensures s'.Low(v) < s'.Rank(v) {
      assert forall i :: 0 <= i < |fr| ==> fr[i].vertex == fr'[i].vertex != v;
    }
  }

  /** Each active vertex reaches the top one, and so the vertex the top one leads to. */
  lemma ActiveReachesNext(g: Graph, s: State, fr: seq<Frame>, i: int, w: nat)
    requires FramesOk(g, s, fr) && Spans(g, s, fr) && LeadsTo(g, fr, w) && 0 <= i < |fr|
    ensures g.Reach(fr[i].vertex, w)
  {
    var top := fr[|fr| - 1];
    assert i == |fr| - 1 || s.Rank(fr[i].vertex) < s.Rank(top.vertex);
    assert g.Reach(fr[i].vertex, top.vertex);
    assert g.Edge(top.vertex, w);
    ReachEdge(g, top.vertex, w);
    ReachTrans(g, fr[i].vertex, top.vertex, w);
  }

  lemma DiscoverSpans(g: Graph, s: State, s': State, fr: seq<Frame>, fr': seq<Frame>, w: nat)
    requires Discovers(s, s', w) && Enters(g, fr, fr', w)
    requires FramesOk(g, s, fr) && Spans(g, s, fr)
    ensures Spans(g, s', fr')
  {
    forall i, x: nat | 0 <= i < |fr'| && x in s'.stack && s'.Rank(fr'[i].vertex) <= s'.Rank(x)
      ensures g.Reach(fr'[i].vertex, x)
    {
      if i == |fr| {
        ReachRefl(g, w);
      } else if x == w {
        ActiveReachesNext(g, s, fr, i, w);
      } else {
        assert fr[i].vertex in s.stack;
      }
    }
  }

  lemma DiscoverLowComplete(g: Graph, s: State, s': State, fr: seq<Frame>, fr': seq<Frame>, w: nat)
    requires Discovers(s, s', w) && Enters(g, fr, fr', w)
    requires FramesOk(g, s, fr) && LowSound(g, s) && LowComplete(g, s, fr)
    ensures LowComplete(g, s', fr')
  {
    forall i, y: nat, k: nat
      | InSegment(s', fr', i, y) && Done(g, fr', y, k) && g.edges[k] in s'.stack
      ensures s'.Low(fr'[i].vertex) <= s'.Rank(g.edges[k])
    {
      DiscoverDone(g, fr, fr', w, y, k);
      assert i < |fr|;
      assert fr[i].vertex in s.stack;
      if g.edges[k] != w {
        assert i + 1 < |fr| ==> fr[i + 1].vertex in s.stack && fr'[i + 1].vertex == fr[i + 1].vertex;
        assert InSegment(s, fr, i, y);
      }
    }
  }

  lemma EnteredEnters(g: Graph, fr: seq<Frame>, w: nat)
    requires w < g.Size() && |g.offsets| == g.Size() + 1 && LeadsTo(g, fr, w)
    ensures Enters(g, fr, Entered(g, fr, w), w)
  {}

  lemma DiscoverStep(g: Graph, s: State, fr: seq<Frame>, w: nat)
    requires Inv(g, s, fr) && w < g.Size() && !s.Visited(w) && LeadsTo(g, fr, w)
    ensures Inv(g, Discovered(s, w), Entered(g, fr, w))
  {
    var s', fr' := Discovered(s, w), Entered(g, fr, w);
    DiscoverShape(g, s, w);
    EnteredEnters(g, fr, w);
    DiscoverPlaced(g, s, s', w);
    DiscoverFrames(g, s, s', fr, fr', w);
    DiscoverExplored(g, s, s', fr, fr', w);
    DiscoverLow(g, s, s', w);
    DiscoverWaiting(g, s, s', fr, fr', w);
    DiscoverSpans(g, s, s', fr, fr', w);
    DiscoverLowComplete(g, s, s', fr, fr', w);
  }

  // ----- following an edge to a vertex seen before

  /** Only the low link of `v` changes, to the smaller of itself and `x`. */
  ghost predicate Lowers(s: State, s': State, v: nat, x: nat) {
    && s'.next == s.next && s'.index == s.index && s'.stack == s.stack
    && s'.onStack == s.onStack && s'.components == s.components && |s'.low| == |s.low|
    && (forall u: nat {:trigger s'.Low(u)} :: u != v ==> s'.Low(u) == s.Low(u))
    && s'.Low(v) == Min(s.Low(v), x)
  }

  ghost predicate Advances(fr: seq<Frame>, fr': seq<Frame>) {
    && |fr'| == |fr| > 0
    && (forall i :: 0 <= i < |fr| ==> fr'[i].vertex == fr[i].vertex && fr'[i].parent == fr[i].parent)
    && (forall i :: 0 <= i < |fr| - 1 ==> fr'[i].nextEdge == fr[i].nextEdge)
    && fr'[|fr| - 1].nextEdge == fr[|fr| - 1].nextEdge + 1
  }

  /** The low link after looking at a visited `w`: lowered only if `w` is stacked. */
  ghost predicate SeenLow(s: State, s': State, v: nat, w: nat) {
    Lowers(s, s', v, if w in s.stack then s.Rank(w) else s.Low(v))
  }

  lemma SeenDone(g: Graph, fr: seq<Frame>, fr': seq<Frame>, w: nat, v: nat, k: nat)
    requires Advances(fr, fr') && LeadsTo(g, fr, w) && Done(g, fr', v, k)
    ensures Done(g, fr, v, k) || (g.edges[k] == w && v == fr[|fr| - 1].vertex)
  {
    var n := |fr| - 1;
    assert fr'[n].vertex == fr[n].vertex;
    if v == fr[n].vertex && k == fr[n].nextEdge {
    } else {
      forall i | 0 <= i < |fr| && fr[i].vertex == v ensures k < fr[i].nextEdge {
        assert fr'[i].vertex == v;
      }
    }
  }

  lemma SeenFrames(g: Graph, s: State, s': State, fr: seq<Frame>, fr': seq<Frame>, w: nat)
    requires FramesOk(g, s, fr) && Advances(fr, fr') && LeadsTo(g, fr, w)
    requires s'.stack == s.stack && s'.index == s.index
    ensures FramesOk(g, s', fr')
  {
    forall i | 0 <= i < |fr'|
      ensures fr'[i].vertex in s'.stack && fr'[i].vertex < g.Size()
      ensures g.offsets[fr'[i].vertex] <= fr'[i].nextEdge <= g.offsets[fr'[i].vertex + 1]
    {
      assert fr[i].vertex in s.stack;
    }
    forall i, j | 0 <= i < |fr'| && 0 <= j < |fr'| && j == i + 1
      ensures fr'[j].parent == Some(fr'[i].vertex) && g.Edge(fr'[i].vertex, fr'[j].vertex)
    {
      assert g.Edge(fr[i].vertex, fr[j].vertex);
    }
  }

  lemma SeenExplored(g: Graph, s: State, s': State, fr: seq<Frame>, fr': seq<Frame>, w: nat)
    requires Explored(g, s, fr) && Advances(fr, fr') && LeadsTo(g, fr, w) && s.Visited(w)
    requires s'.stack == s.stack && s'.index == s.index
    ensures Explored(g, s', fr')
  {
    forall v: nat, k: nat | v in s'.stack && Done(g, fr', v, k) ensures s'.Visited(g.edges[k]) {
      SeenDone(g, fr, fr', w, v, k);
    }
  }

  lemma SeenLowSound(g: Graph, s: State, s': State, v: nat, w: nat)
    requires LowSound(g, s) && SeenLow(s, s', v, w) && v in s.stack && g.Edge(v, w)
    ensures LowSound(g, s')
  {
    forall x: nat | x in s'.stack
      ensures s'.Low(x) <= s'.Rank(x) && exists u: nat :: LowWitness(g, s', x, u)
    {
      assert s.Low(x) <= s.Rank(x);
      var u: nat :| LowWitness(g, s, x, u);
      if s'.Low(x) == s.Low(x) {
        assert LowWitness(g, s', x, u);
      } else {
        ReachEdge(g, v, w);
        assert LowWitness(g, s', v, w);
      }
    }
  }

  lemma SeenWaitingSpans(g: Graph, s: State, s': State, fr: seq<Frame>, fr': seq<Frame>, w: nat)
    requires Waiting(s, fr) && Spans(g, s, fr) && Advances(fr, fr')
    requires SeenLow(s, s', fr[|fr| - 1].vertex, w)
    ensures Waiting(s', fr') && Spans(g, s', fr')
  {
    forall v: nat | v in s'.stack && !Active(fr', v) ensures s'.Low(v) < s'.Rank(v) {
      assert forall i :: 0 <= i < |fr| ==> fr[i].vertex == fr'[i].vertex != v;
      assert s.Low(v) < s.Rank(v);
    }
    forall i, x: nat | 0 <= i < |fr'| && x in s'.stack && s'.Rank(fr'[i].vertex) <= s'.Rank(x)
      ensures g.Reach(fr'[i].vertex, x)
    {
      assert s.Rank(fr[i].vertex) <= s.Rank(x);
    }
  }

  lemma SeenLowComplete(g: Graph, s: State, s': State, fr: seq<Frame>, fr': seq<Frame>, w: nat)
    requires RanksRise(s, fr) && LowComplete(g, s, fr) && Advances(fr, fr') && LeadsTo(g, fr, w)
    requires SeenLow(s, s', fr[|fr| - 1].vertex, w)
    ensures LowComplete(g, s', fr')
  {
    var n := |fr| - 1;
    forall i, y: nat, k: nat
      | InSegment(s', fr', i, y) && Done(g, fr', y, k) && g.edges[k] in s'.stack
      ensures s'.Low(fr'[i].vertex) <= s'.Rank(g.edges[k])
    {
      assert InSegment(s, fr, i, y);
      SeenDone(g, fr, fr', w, y, k);
      if !Done(g, fr, y, k) {
        assert i == n;
      }
    }
  }

  /** Low links play no part in where vertices are placed. */
  lemma SamePlaces(g: Graph, s: State, s': State, v: nat, x: nat)
    requires Shape(g, s) && StackOk(g, s) && Placed(g, s) && Finished(g, s.components)
    requires Lowers(s, s', v, x)
    ensures Shape(g, s') && StackOk(g, s') && Placed(g, s') && Finished(g, s'.components)
  {
    assert forall u: nat :: s'.Visited(u) == s.Visited(u) && s'.Rank(u) == s.Rank(u);
  }

  lemma TopEdge(g: Graph, s: State, fr: seq<Frame>, w: nat)
    requires FramesOk(g, s, fr) && fr != [] && LeadsTo(g, fr, w)
    ensures fr[|fr| - 1].vertex in s.stack && g.Edge(fr[|fr| - 1].vertex, w)
  {
    var top := fr[|fr| - 1];
    assert g.InRow(top.vertex, top.nextEdge) && g.edges[top.nextEdge] == w;
  }

  lemma AdvancedAdvances(fr: seq<Frame>)
    requires fr != []
    ensures Advances(fr, Advanced(fr))
  {}

  lemma SeenStep(g: Graph, s: State, s': State, fr: seq<Frame>, w: nat)
    requires Inv(g, s, fr) && fr != [] && LeadsTo(g, fr, w) && s.Visited(w)
    requires SeenLow(s, s', fr[|fr| - 1].vertex, w)
    ensures Inv(g, s', Advanced(fr))
  {
    var fr' := Advanced(fr);
    var v := fr[|fr| - 1].vertex;
    TopEdge(g, s, fr, w);
    AdvancedAdvances(fr);
    SamePlaces(g, s, s', v, if w in s.stack then s.Rank(w) else s.Low(v));
    SeenFrames(g, s, s', fr, fr', w);
    SeenExplored(g, s, s', fr, fr', w);
    SeenLowSound(g, s, s', v, w);
    SeenWaitingSpans(g, s, s', fr, fr', w);
    SeenLowComplete(g, s, s', fr, fr', w);
  }

  // ----- leaving a vertex that is not the root of a component

  /** The top frame has no edge left. */
  ghost predicate Exhausted(g: Graph, fr: seq<Frame>) {
    fr != [] &&
    var top := fr[|fr| - 1];
    top.vertex < g.Size() && |g.offsets| == g.Size() + 1 && top.nextEdge == g.offsets[top.vertex + 1]
  }

  lemma LeaveDone(g: Graph, fr: seq<Frame>, v: nat, k: nat)
    requires Exhausted(g, fr) && Done(g, fr[..|fr| - 1], v, k)
    ensures Done(g, fr, v, k)
  {
    forall i | 0 <= i < |fr| && fr[i].vertex == v ensures k < fr[i].nextEdge {
      if i < |fr| - 1 {
        assert fr[..|fr| - 1][i].vertex == v;
      }
    }
  }

  lemma LeaveFrames(g: Graph, s: State, s': State, fr: seq<Frame>)
    requires FramesOk(g, s, fr) && |fr| > 1 && s'.stack == s.stack && s'.index == s.index
    ensures FramesOk(g, s', fr[..|fr| - 1])
  {
    var fr' := fr[..|fr| - 1];
    assert forall i :: 0 <= i < |fr'| ==> fr'[i] == fr[i];
  }

  lemma LeaveLowSound(g: Graph, s: State, s': State, p: nat, v: nat)
    requires LowSound(g, s) && Lowers(s, s', p, s.Low(v)) && p in s.stack && v in s.stack
    requires g.Edge(p, v)
    ensures LowSound(g, s')
  {
    forall x: nat | x in s'.stack
      ensures s'.Low(x) <= s'.Rank(x) && exists u: nat :: LowWitness(g, s', x, u)
    {
      assert s.Low(x) <= s.Rank(x) && s.Low(v) <= s.Rank(v);
      var u: nat :| LowWitness(g, s, x, u);
      if s'.Low(x) == s.Low(x) {
        assert LowWitness(g, s', x, u);
      } else {
        var z: nat :| LowWitness(g, s, v, z);
        ReachEdge(g, p, v);
        ReachTrans(g, p, v, z);
        assert LowWitness(g, s', p, z);
      }
    }
  }

  lemma LeaveExploredWaiting(g: Graph, s: State, s': State, fr: seq<Frame>)
    requires Explored(g, s, fr) && Waiting(s, fr) && Exhausted(g, fr) && |fr| > 1
    requires var v := fr[|fr| - 1].vertex;
             s.Low(v) < s.Rank(v) && Lowers(s, s', fr[|fr| - 2].vertex, s.Low(v))
    ensures Explored(g, s', fr[..|fr| - 1]) && Waiting(s', fr[..|fr| - 1])
  {
    var n := |fr| - 1;
    var fr' := fr[..n];
    forall x: nat, k: nat | x in s'.stack && Done(g, fr', x, k) ensures s'.Visited(g.edges[k]) {
      LeaveDone(g, fr, x, k);
    }
    forall x: nat | x in s'.stack && !Active(fr', x) ensures s'.Low(x) < s'.Rank(x) {
      assert forall i :: 0 <= i < n ==> fr[i].vertex == fr'[i].vertex != x;
      if x != fr[n].vertex {
        assert !Active(fr, x);
        assert s.Low(x) < s.Rank(x);
      }
    }
  }

  lemma LeaveSpans(g: Graph, s: State, s': State, fr: seq<Frame>)
    requires Spans(g, s, fr) && fr != [] && s'.index == s.index
    requires forall x: nat :: x in s'.stack ==> x in s.stack
    ensures Spans(g, s', fr[..|fr| - 1])
  {
    var fr' := fr[..|fr| - 1];
    forall i, x: nat | 0 <= i < |fr'| && x in s'.stack && s'.Rank(fr'[i].vertex) <= s'.Rank(x)
      ensures g.Reach(fr'[i].vertex, x)
    {
      assert fr'[i] == fr[i] && s.Rank(fr[i].vertex) <= s.Rank(x);
    }
  }

  lemma LeaveLowComplete(g: Graph, s: State, s': State, fr: seq<Frame>)
    requires FramesOk(g, s, fr) && LowComplete(g, s, fr) && Exhausted(g, fr) && |fr| > 1
    requires Lowers(s, s', fr[|fr| - 2].vertex, s.Low(fr[|fr| - 1].vertex))
    ensures LowComplete(g, s', fr[..|fr| - 1])
  {
    var n := |fr| - 1;
    var fr' := fr[..n];
    forall i, y: nat, k: nat
      | InSegment(s', fr', i, y) && Done(g, fr', y, k) && g.edges[k] in s'.stack
      ensures s'.Low(fr'[i].vertex) <= s'.Rank(g.edges[k])
    {
      LeaveDone(g, fr, y, k);
      assert fr'[i] == fr[i];
      if i + 1 < n {
        assert fr'[i + 1] == fr[i + 1];
        assert InSegment(s, fr, i, y);
      } else if s.Rank(y) < s.Rank(fr[n].vertex) {
        assert InSegment(s, fr, i, y);
      } else {
        assert InSegment(s, fr, n, y);
      }
    }
  }

  lemma TreeEdge(g: Graph, s: State, fr: seq<Frame>)
    requires FramesOk(g, s, fr) && LowSound(g, s) && |fr| > 1
    ensures var p, v := fr[|fr| - 2].vertex, fr[|fr| - 1].vertex;
            && v in s.stack && p in s.stack && g.Edge(p, v)
            && s.Low(p) <= s.Rank(p) < s.Rank(v) && s.Low(v) <= s.Rank(v)
  {}

  lemma LeaveStep(g: Graph, s: State, s': State, fr: seq<Frame>)
    requires Inv(g, s, fr) && Exhausted(g, fr)
    requires var v := fr[|fr| - 1].vertex;
             s.Low(v) != s.Rank(v) && |fr| > 1 && Lowers(s, s', fr[|fr| - 2].vertex, s.Low(v))
    ensures Inv(g, s', fr[..|fr| - 1])
  {
    var p, v := fr[|fr| - 2].vertex, fr[|fr| - 1].vertex;
    TreeEdge(g, s, fr);
    SamePlaces(g, s, s', p, s.Low(v));
    LeaveFrames(g, s, s', fr);
    LeaveLowSound(g, s, s', p, v);
    LeaveExploredWaiting(g, s, s', fr);
    LeaveSpans(g, s, s', fr);
    LeaveLowComplete(g, s, s', fr);
  }
}
