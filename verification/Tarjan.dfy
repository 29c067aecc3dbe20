/** The iterative, explicit-stack search of `Tarjan::visit_iterative`. */
module Tarjan {
  import opened Wrappers
  import opened Sorting
  import opened Digraph
  import opened TarjanSteps
  import opened TarjanEmit

  /** The edges the frames have still to look at. */
  ghost function Work(g: Graph, fr: seq<Frame>): nat {
    if fr == [] then 0
    else
      var top := fr[|fr| - 1];
      var end := if top.vertex + 1 < |g.offsets| then g.offsets[top.vertex + 1] else 0;
      Work(g, fr[..|fr| - 1]) + 1 + if top.nextEdge <= end then end - top.nextEdge else 0
  }

  ghost function Unvisited(g: Graph, s: State): set<nat> {
    set v: nat | v < g.Size() && !s.Visited(v)
  }

  lemma WorkAdvanced(g: Graph, s: State, fr: seq<Frame>, w: nat)
    requires FramesOk(g, s, fr) && fr != [] && LeadsTo(g, fr, w)
    ensures Work(g, Advanced(fr)) < Work(g, fr)
  {}

  /** What the methods below read off the invariant. */
  lemma TopFrame(g: Graph, s: State, fr: seq<Frame>)
    requires Inv(g, s, fr) && fr != []
    ensures var top := fr[|fr| - 1];
            && |g.offsets| == g.Size() + 1
            && top.vertex < g.Size() && top.vertex in s.stack && s.Visited(top.vertex)
            && top.nextEdge <= g.offsets[top.vertex + 1]
            && (top.nextEdge < g.offsets[top.vertex + 1] ==>
                  top.nextEdge < |g.edges| && g.InRow(top.vertex, top.nextEdge)
                  && g.edges[top.nextEdge] < g.Size())
            && (|fr| == 1 ==> top.parent == None && s.Low(top.vertex) == s.Rank(top.vertex))
            && (|fr| > 1 ==> top.parent == Some(fr[|fr| - 2].vertex)
                             && fr[|fr| - 2].vertex < g.Size()
                             && s.Low(fr[|fr| - 2].vertex) < s.Rank(top.vertex))
            && Work(g, fr[..|fr| - 1]) < Work(g, fr)
  {}

  lemma TopFrameless(g: Graph, s: State)
    requires Inv(g, s, [])
    ensures |g.offsets| == g.Size() + 1
  {}

  /** A step visits a new vertex, or leaves the visited ones and some work done. */
  ghost predicate Progress(g: Graph, s: State, fr: seq<Frame>, s': State, fr': seq<Frame>) {
    && (forall v: nat :: s.Visited(v) ==> s'.Visited(v))
    && ((exists v: nat :: v < g.Size() && s'.Visited(v) && !s.Visited(v))
        || (Work(g, fr') < Work(g, fr) && s'.index == s.index))
  }

  lemma ProgressShrinks(g: Graph, s: State, fr: seq<Frame>, s': State, fr': seq<Frame>)
    requires Progress(g, s, fr, s', fr')
    ensures Unvisited(g, s') < Unvisited(g, s)
            || (Unvisited(g, s') == Unvisited(g, s) && Work(g, fr') < Work(g, fr))
  {
    if v: nat :| v < g.Size() && s'.Visited(v) && !s.Visited(v) {
      assert v in Unvisited(g, s) && v !in Unvisited(g, s');
    } else {
      assert forall v: nat :: s.Visited(v) == s'.Visited(v);
    }
  }

  /** What a step discovers, an edge of the top vertex leads to; and a frame is of a vertex that
      had one or was discovered. */
  ghost predicate FromTop(g: Graph, s: State, fr: seq<Frame>, s': State, fr': seq<Frame>)
    requires fr != []
  {
    && s.components <= s'.components
    && (forall v: nat :: s'.Visited(v) && !s.Visited(v) ==> g.Edge(fr[|fr| - 1].vertex, v))
    && (forall k :: 0 <= k < |fr'| ==>
          (k < |fr| && fr'[k].vertex == fr[k].vertex) || (s'.Visited(fr'[k].vertex) && !s.Visited(fr'[k].vertex)))
  }

  lemma TopDiscovers(g: Graph, s: State, fr: seq<Frame>, s': State, fr': seq<Frame>, next: nat)
    requires fr != [] && g.Edge(fr[|fr| - 1].vertex, next) && s'.components == s.components
    requires s'.Visited(next) && !s.Visited(next) && forall v: nat :: s'.Visited(v) ==> s.Visited(v) || v == next
    requires |fr'| == |fr| + 1 && fr'[|fr|].vertex == next && forall k :: 0 <= k < |fr| ==> fr'[k].vertex == fr[k].vertex
    ensures FromTop(g, s, fr, s', fr')
  {}

  lemma TopStays(g: Graph, s: State, fr: seq<Frame>, s': State, fr': seq<Frame>)
    requires fr != [] && s.components <= s'.components && s'.index == s.index
    requires |fr'| <= |fr| && forall k :: 0 <= k < |fr'| ==> fr'[k].vertex == fr[k].vertex
    ensures FromTop(g, s, fr, s', fr')
  {}

  /** All that was discovered since, and all frames, are reached from the start. */
  ghost predicate FromStart(g: Graph, start: nat, s: State, s': State, fr: seq<Frame>) {
    && s.components <= s'.components
    && (forall v: nat :: s'.Visited(v) && !s.Visited(v) ==> g.Reach(start, v))
    && (forall k :: 0 <= k < |fr| ==> g.Reach(start, fr[k].vertex))
  }

  lemma StillFromStart(g: Graph, start: nat, s: State, s1: State, fr1: seq<Frame>, s2: State, fr2: seq<Frame>)
    requires FromStart(g, start, s, s1, fr1) && fr1 != [] && FromTop(g, s1, fr1, s2, fr2)
    ensures FromStart(g, start, s, s2, fr2)
  {
    var top := fr1[|fr1| - 1].vertex;
    forall v: nat | s2.Visited(v) && !s1.Visited(v) ensures g.Reach(start, v) {
      ReachEdge(g, top, v);
      ReachTrans(g, start, top, v);
    }
  }

  lemma EmitsMore(s: State, s': State, v: nat, comp: seq<nat>)
    requires Emits(s, s', v, comp)
    ensures s.components <= s'.components && s'.index == s.index
  {}

  lemma StackOf(g: Graph, s: State, fr: seq<Frame>)
    requires Inv(g, s, fr)
    ensures FramesOk(g, s, fr) && StackOk(g, s)
    ensures forall v: nat :: v < |s.onStack| ==> (s.onStack[v] <==> v in s.stack)
  {}

  lemma CutMembers(st: seq<nat>, m: nat, x: nat)
    requires m <= |st|
    ensures x in st <==> x in st[..m] || x in st[m..]
  {}

  lemma BelowCut(g: Graph, s: State, m: nat, x: nat)
    requires StackOk(g, s) && m < |s.stack|
    ensures x in s.stack[..m] ==> s.Rank(x) < s.Rank(s.stack[m])
    ensures x in s.stack[m..] ==> s.Rank(s.stack[m]) <= s.Rank(x)
  {}

  /** Where the rank of `root` cuts the stack. */
  lemma CutStack(g: Graph, s: State, root: nat) returns (m: nat)
    requires StackOk(g, s) && root in s.stack && |s.onStack| == g.Size()
    ensures m < |s.stack| && s.stack[m] == root && Distinct(s.stack)
    ensures forall x: nat :: x in s.stack ==> x < |s.onStack|
    ensures forall v: nat :: v < |s.onStack| ==> (s.onStack[v] <==> v in s.stack)
    ensures forall x: nat :: x in s.stack[..m] <==> x in s.stack && s.Rank(x) < s.Rank(root)
    ensures forall x: nat :: x in s.stack[m..] <==> x in s.stack && s.Rank(root) <= s.Rank(x)
  {
    m :| 0 <= m < |s.stack| && s.stack[m] == root;
    forall x: nat
      ensures x in s.stack[..m] <==> x in s.stack && s.Rank(x) < s.Rank(root)
      ensures x in s.stack[m..] <==> x in s.stack && s.Rank(root) <= s.Rank(x)
    {
      CutMembers(s.stack, m, x);
      BelowCut(g, s, m, x);
    }
  }

  lemma PopOne(st: seq<nat>, i: nat)
    requires Distinct(st) && i < |st|
    ensures st[..i + 1][..i] == st[..i] && st[i] in st && st[i] !in st[..i] && st[i] !in st[i + 1..]
    ensures forall x: nat :: x in st[..i + 1] <==> x in st[..i] || x == st[i]
    ensures forall x: nat :: x in st[i..] <==> x in st[i + 1..] || x == st[i]
  {}

  class Search {
    const graph: Graph
    const indices: array<Option<nat>>
    const lowlink: array<nat>
    const onStack: array<bool>
    var nextIndex: nat
    var stack: seq<nat>
    var components: seq<seq<nat>>

    ghost predicate Valid()
      reads this
    {
      && graph.Valid()
      && indices.Length == lowlink.Length == onStack.Length == graph.Size()
      && indices as object != lowlink && indices as object != onStack
      && lowlink as object != onStack
    }

    ghost function Snapshot(): State
      reads this, indices, lowlink, onStack
    {
      State(nextIndex, indices[..], lowlink[..], stack, onStack[..], components)
    }

    constructor (g: Graph)
      requires g.Valid()
      ensures Valid() && graph == g && fresh(indices) && fresh(lowlink) && fresh(onStack)
      ensures Inv(g, Snapshot(), [])
      ensures (forall v: nat :: !Snapshot().Visited(v)) && components == []
    {
      graph := g;
      nextIndex := 0;
      indices := new Option<nat>[|g.addresses|](_ => None);
      lowlink := new nat[|g.addresses|](_ => 0);
      onStack := new bool[|g.addresses|](_ => false);
      stack := [];
      components := [];
    }

    method Discover(vertex: nat)
      requires Valid() && vertex < graph.Size()
      modifies this, indices, lowlink, onStack
      ensures Valid() && Snapshot() == Discovered(old(Snapshot()), vertex)
    {
      var index := nextIndex;
      nextIndex := nextIndex + 1;
      indices[vertex] := Some(index);
      lowlink[vertex] := index;
      stack := stack + [vertex];
      onStack[vertex] := true;
    }

    /** Pops the stack down to the vertex at position `m`. */
    method PopDownTo(root: nat, ghost m: nat) returns (component: seq<nat>)
      requires Valid() && m < |stack| && stack[m] == root && Distinct(stack)
      requires forall v: nat :: v in stack ==> v < onStack.Length
      requires forall v: nat :: v < onStack.Length ==> (onStack[v] <==> v in stack)
      modifies this`stack, onStack
      ensures stack == old(stack)[..m] && Distinct(component)
      ensures forall v: nat :: v in component <==> v in old(stack)[m..]
      ensures forall v: nat :: v < onStack.Length ==> (onStack[v] <==> v in stack)
    {
      ghost var st := stack;
      component := [];
      while true
        invariant m < |stack| <= |st| && stack == st[..|stack|]
        invariant Distinct(component)
        invariant forall v: nat :: v in component <==> v in st[|stack|..]
        invariant forall v: nat :: v < onStack.Length ==> (onStack[v] <==> v in stack)
        decreases |stack|
      {
        var member := stack[|stack| - 1];
        PopOne(st, |stack| - 1);
        stack := stack[..|stack| - 1];
        onStack[member] := false;
        component := component + [member];
        if member == root {
          break;
        }
      }
    }

    /** Makes a component of the vertices stacked from `root` upwards. */
    method CloseComponent(root: nat)
      requires Valid() && StackOk(graph, Snapshot()) && root in stack
      modifies this, onStack
      ensures Valid()
      ensures exists comp :: Emits(old(Snapshot()), Snapshot(), root, comp)
    {
      hide StackOk, Digraph.Graph.Valid, Distinct;
      ghost var s := Snapshot();
      ghost var m := CutStack(graph, s, root);
      var component := PopDownTo(root, m);
      SortSet(component);
      component := Sort(NatLeq, component);
      components := components + [component];
      assert Emits(s, Snapshot(), root, component);
    }

    /** An edge to a visited vertex lowers the low link if the target is still stacked. */
    method LookBack(vertex: nat, next: nat)
      requires Valid() && vertex < graph.Size() && next < graph.Size() && indices[next].Some?
      requires onStack[next] <==> next in stack
      modifies lowlink
      ensures SeenLow(old(Snapshot()), Snapshot(), vertex, next)
    {
      hide Digraph.Graph.Valid;
      if onStack[next] {
        lowlink[vertex] := Min(lowlink[vertex], indices[next].value);
      }
    }

    /** Enters a vertex that the top frame's next edge leads to and that is new. */
    method Enter(frames: seq<Frame>, next: nat) returns (frames': seq<Frame>)
      requires Valid() && Inv(graph, Snapshot(), frames) && frames != []
      requires LeadsTo(graph, frames, next) && next < graph.Size() && indices[next].None?
      requires |graph.offsets| == graph.Size() + 1
      modifies this, indices, lowlink, onStack
      ensures Valid() && Inv(graph, Snapshot(), frames')
      ensures Progress(graph, old(Snapshot()), frames, Snapshot(), frames')
      ensures FromTop(graph, old(Snapshot()), frames, Snapshot(), frames')
    {
      hide Inv, FramesOk, StackOk, Work, Digraph.Graph.Valid, FromTop;
      ghost var s := Snapshot();
      var frame := frames[|frames| - 1];
      assert graph.Edge(frame.vertex, next);
      Discover(next);
      frames' := frames[|frames| - 1 := frame.(nextEdge := frame.nextEdge + 1)]
                 + [Frame(next, graph.offsets[next], Some(frame.vertex))];
      DiscoverStep(graph, s, frames, next);
      assert Snapshot().Visited(next) && !s.Visited(next);
      TopDiscovers(graph, s, frames, Snapshot(), frames', next);
    }

    /** Passes over an edge to a vertex visited before. */
    method PassOver(frames: seq<Frame>, next: nat) returns (frames': seq<Frame>)
      requires Valid() && Inv(graph, Snapshot(), frames) && frames != []
      requires LeadsTo(graph, frames, next) && next < graph.Size() && indices[next].Some?
      requires frames[|frames| - 1].vertex < graph.Size()
      modifies lowlink
      ensures Valid() && Inv(graph, Snapshot(), frames')
      ensures Progress(graph, old(Snapshot()), frames, Snapshot(), frames')
      ensures FromTop(graph, old(Snapshot()), frames, Snapshot(), frames')
    {
      hide Inv, FramesOk, StackOk, Work, Digraph.Graph.Valid, FromTop, LeadsTo;
      ghost var s := Snapshot();
      StackOf(graph, s, frames);
      LookBack(frames[|frames| - 1].vertex, next);
      frames' := frames[|frames| - 1 := frames[|frames| - 1].(nextEdge := frames[|frames| - 1].nextEdge + 1)];
      WorkAdvanced(graph, s, frames, next);
      SeenStep(graph, s, Snapshot(), frames, next);
      TopStays(graph, s, frames, Snapshot(), frames');
    }

    /** Takes the top frame's next edge. */
    method FollowEdge(frames: seq<Frame>) returns (frames': seq<Frame>)
      requires Valid() && Inv(graph, Snapshot(), frames) && frames != []
      requires frames[|frames| - 1].vertex < graph.Size()
      requires frames[|frames| - 1].nextEdge < graph.offsets[frames[|frames| - 1].vertex + 1]
      modifies this, indices, lowlink, onStack
      ensures Valid() && Inv(graph, Snapshot(), frames')
      ensures Progress(graph, old(Snapshot()), frames, Snapshot(), frames')
      ensures FromTop(graph, old(Snapshot()), frames, Snapshot(), frames')
    {
      hide Inv, FramesOk, StackOk, Work, Digraph.Graph.Valid, FromTop, Progress;
      TopFrame(graph, Snapshot(), frames);
      var frame := frames[|frames| - 1];
      var next := graph.edges[frame.nextEdge];
      if indices[next].None? {
        frames' := Enter(frames, next);
      } else {
        frames' := PassOver(frames, next);
      }
    }

    /** Removes an exhausted top frame, closing its component if it is a root. */
    method Complete(frames: seq<Frame>) returns (frames': seq<Frame>)
      requires Valid() && Inv(graph, Snapshot(), frames) && frames != []
      requires frames[|frames| - 1].vertex < graph.Size()
      requires frames[|frames| - 1].nextEdge == graph.offsets[frames[|frames| - 1].vertex + 1]
      modifies this, lowlink, onStack
      ensures Valid() && Inv(graph, Snapshot(), frames')
      ensures Progress(graph, old(Snapshot()), frames, Snapshot(), frames')
      ensures FromTop(graph, old(Snapshot()), frames, Snapshot(), frames')
    {
      hide Inv, FramesOk, StackOk, Emits, Work, Digraph.Graph.Valid, FromTop;
      ghost var s := Snapshot();
      TopFrame(graph, s, frames);
      StackOf(graph, s, frames);
      var completed := frames[|frames| - 1];
      frames' := frames[..|frames| - 1];
      if completed.parent.Some? {
        var parent := completed.parent.value;
        lowlink[parent] := Min(lowlink[parent], lowlink[completed.vertex]);
      }
      var index := indices[completed.vertex].value;
      if lowlink[completed.vertex] == index {
        assert Snapshot() == s;
        CloseComponent(completed.vertex);
        ghost var comp :| Emits(s, Snapshot(), completed.vertex, comp);
        EmitStep(graph, s, Snapshot(), frames, comp);
        EmitsMore(s, Snapshot(), completed.vertex, comp);
      } else {
        LeaveStep(graph, s, Snapshot(), frames);
      }
      TopStays(graph, s, frames, Snapshot(), frames');
    }

    method VisitIterative(start: nat)
      requires Valid() && Inv(graph, Snapshot(), []) && start < graph.Size()
      requires indices[start].None?
      modifies this, indices, lowlink, onStack
      ensures Valid() && Inv(graph, Snapshot(), [])
      ensures Snapshot().Visited(start)
      ensures forall v: nat :: old(Snapshot()).Visited(v) ==> Snapshot().Visited(v)
      ensures FromStart(graph, start, old(Snapshot()), Snapshot(), [])
    {
      hide Inv, Work, Digraph.Graph.Valid, Digraph.Graph.Reach, FromStart, FromTop;
      ghost var s := Snapshot();
      TopFrameless(graph, s);
      DiscoverStep(graph, s, [], start);
      Discover(start);
      var frames := [Frame(start, graph.offsets[start], None)];
      Starting(graph, start, s, Snapshot(), frames[0]);
      assert frames == Entered(graph, [], start);
      while frames != []
        invariant Valid() && Inv(graph, Snapshot(), frames)
        invariant Snapshot().Visited(start)
        invariant forall v: nat :: s.Visited(v) ==> Snapshot().Visited(v)
        invariant FromStart(graph, start, s, Snapshot(), frames)
        decreases Unvisited(graph, Snapshot()), Work(graph, frames)
      {
        ghost var before, trail := Snapshot(), frames;
        TopFrame(graph, before, frames);
        var frame := frames[|frames| - 1];
        if frame.nextEdge < graph.offsets[frame.vertex + 1] {
          frames := FollowEdge(frames);
        } else {
          frames := Complete(frames);
        }
        ProgressShrinks(graph, before, trail, Snapshot(), frames);
        StillFromStart(graph, start, s, before, trail, Snapshot(), frames);
      }
    }
  }

  lemma Starting(g: Graph, start: nat, s: State, s': State, frame: Frame)
    requires s'.components == s.components && forall v: nat :: s'.Visited(v) ==> s.Visited(v) || v == start
    requires frame.vertex == start
    ensures FromStart(g, start, s, s', [frame])
  {
    ReachRefl(g, start);
  }

  /** `strongly_connected_components`: Tarjan's search from every unvisited vertex
      yields exactly the strongly connected components, callees first, and the starts taken
      in order. */
  method StronglyConnectedComponents(graph: Graph) returns (components: seq<seq<nat>>)
    requires graph.Valid()
    ensures SccDecomposition(graph, components)
    ensures StartsInOrder(graph, components, graph.Size())
  {
    hide Inv, SccDecomposition, Partition, Finished, StartsInOrder, ReachedUpTo, FromStart;
    var state := new Search(graph);
    NoStarts(graph, state.Snapshot());
    var vertex: nat := 0;
    while vertex < |graph.addresses|
      invariant 0 <= vertex <= graph.Size()
      invariant state.Valid() && state.graph == graph && Inv(graph, state.Snapshot(), [])
      invariant fresh(state) && fresh(state.indices) && fresh(state.lowlink) && fresh(state.onStack)
      invariant forall v: nat :: v < vertex ==> state.Snapshot().Visited(v)
      invariant forall v: nat :: state.Snapshot().Visited(v) ==> vertex > 0 && ReachedUpTo(graph, vertex - 1, v)
      invariant StartsInOrder(graph, state.components, vertex)
    {
      ghost var s := state.Snapshot();
      if state.indices[vertex].None? {
        state.VisitIterative(vertex);
      } else {
        SameState(graph, vertex, s);
      }
      StartTaken(graph, vertex, s, state.Snapshot());
      vertex := vertex + 1;
    }
    components := state.components;
    AllPlaced(graph, state.Snapshot());
    FinishedIsScc(graph, components);
  }

  lemma NoStarts(g: Graph, s: State)
    requires s.components == []
    ensures StartsInOrder(g, s.components, 0)
  {}

  lemma SameState(g: Graph, start: nat, s: State)
    ensures FromStart(g, start, s, s, [])
  {}

  /** After a start, all that is visited is reached from it or an earlier one. */
  lemma StartTaken(g: Graph, start: nat, s: State, s': State)
    requires Inv(g, s, []) && Inv(g, s', []) && FromStart(g, start, s, s', []) && start < g.Size()
    requires StartsInOrder(g, s.components, start)
    requires forall v: nat :: v < start ==> s.Visited(v)
    requires forall v: nat :: s.Visited(v) ==> start > 0 && ReachedUpTo(g, start - 1, v)
    ensures forall v: nat :: s'.Visited(v) ==> ReachedUpTo(g, start, v)
    ensures StartsInOrder(g, s'.components, start + 1)
  {
    hide Digraph.Graph.Reach;
    forall v: nat | s'.Visited(v) ensures ReachedUpTo(g, start, v) {
      if s.Visited(v) {
        var w: nat :| w <= start - 1 && g.Reach(w, v);
      }
    }
    hide StartsInOrder, ReachedUpTo, Inv;
    Emitted(g, s);
    Emitted(g, s');
    OneMoreStart(g, s.components, s'.components, start);
  }

  /** With no frame open everything visited is in a component. */
  lemma Emitted(g: Graph, s: State)
    requires Inv(g, s, [])
    ensures forall v: nat :: v < g.Size() && s.Visited(v) ==> InComponents(s.components, v)
    ensures forall v: nat :: InComponents(s.components, v) ==> s.Visited(v)
    ensures Apart(s.components)
  {}

  lemma AllPlaced(g: Graph, s: State)
    requires Inv(g, s, []) && forall v: nat :: v < g.Size() ==> s.Visited(v)
    ensures Partition(g.Size(), s.components) && Finished(g, s.components)
  {}
}
