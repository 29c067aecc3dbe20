/** The step of Tarjan's search that closes a component, and what the finished search
    says about the graph. */
module TarjanEmit {
  import opened Sorting
  import opened Digraph
  import opened TarjanSteps

  /** The vertices stacked from `v` upwards leave the stack and become a component. */
  ghost predicate Emits(s: State, s': State, v: nat, comp: seq<nat>) {
    && s'.next == s.next && s'.index == s.index && s'.low == s.low && |s'.onStack| == |s.onStack|
    && s'.components == s.components + [comp]
    && s'.stack <= s.stack
    && (forall x: nat :: x in s'.stack <==> x in s.stack && s.Rank(x) < s.Rank(v))
    && (forall x: nat :: x in comp <==> x in s.stack && s.Rank(v) <= s.Rank(x))
    && (forall x: nat :: x < |s'.onStack| ==> (s'.onStack[x] <==> x in s'.stack))
    && Increasing(comp)
  }

  /** The top frame has looked at all its edges and found none leading below it. */
  ghost predicate AtRoot(g: Graph, s: State, fr: seq<Frame>) {
    && Exhausted(g, fr)
    && fr[|fr| - 1].vertex in s.stack
    && s.Low(fr[|fr| - 1].vertex) == s.Rank(fr[|fr| - 1].vertex)
  }

  lemma EmitShape(g: Graph, s: State, s': State, v: nat, comp: seq<nat>)
    requires Shape(g, s) && StackOk(g, s) && Emits(s, s', v, comp)
    ensures Shape(g, s') && StackOk(g, s')
  {
    assert forall u: nat :: s'.Visited(u) == s.Visited(u) && s'.Rank(u) == s.Rank(u);
    assert forall i :: 0 <= i < |s'.stack| ==> s'.stack[i] == s.stack[i];
  }

  lemma EmitPlaced(g: Graph, s: State, s': State, v: nat, comp: seq<nat>)
    requires StackOk(g, s) && Placed(g, s) && Emits(s, s', v, comp) && v in s.stack
    ensures Placed(g, s')
  {
    var n := |s.components|;
    var c' := s'.components;
    assert c'[n] == comp && forall j :: 0 <= j < n ==> c'[j] == s.components[j];
    assert v in comp;
    forall x: nat | x < g.Size() && s'.Visited(x) ensures x in s'.stack || InComponents(c', x) {
      if x in s.stack && x !in s'.stack {
        assert x in c'[n];
      } else if x !in s.stack {
        var j :| 0 <= j < n && x in s.components[j];
        assert x in c'[j];
      }
    }
    forall i, j, x: nat | 0 <= i < j < |c'| && x in c'[i] ensures x !in c'[j] {
      assert x in s.components[i] && x !in s.stack;
      if j < n {
        assert x !in s.components[j];
      }
    }
  }

  lemma TopSegment(g: Graph, s: State, fr: seq<Frame>, x: nat, k: nat)
    requires StackOk(g, s) && FramesOk(g, s, fr) && AtRoot(g, s, fr) && x in s.stack
    requires s.Rank(fr[|fr| - 1].vertex) <= s.Rank(x) && g.InRow(x, k)
    ensures InSegment(s, fr, |fr| - 1, x) && Done(g, fr, x, k)
  {}

  /** No edge from the new component leads anywhere but to itself or to a component
      closed before it. */
  lemma EmitClosed(g: Graph, s: State, fr: seq<Frame>, x: nat, w: nat)
    requires g.Valid() && StackOk(g, s) && Placed(g, s) && FramesOk(g, s, fr)
    requires Explored(g, s, fr) && LowComplete(g, s, fr) && AtRoot(g, s, fr)
    requires x in s.stack && s.Rank(fr[|fr| - 1].vertex) <= s.Rank(x) && g.Edge(x, w)
    ensures InComponents(s.components, w)
            || (w in s.stack && s.Rank(fr[|fr| - 1].vertex) <= s.Rank(w))
  {
    var k: nat :| g.InRow(x, k) && g.edges[k] == w;
    TopSegment(g, s, fr, x, k);
  }

  /** Everything stacked above the root reaches the root: a vertex whose search has
      ended has a low link below its own rank, and low links never lead under the root. */
  lemma {:induction false} EmitReaches(g: Graph, s: State, fr: seq<Frame>, x: nat)
    requires StackOk(g, s) && FramesOk(g, s, fr) && LowSound(g, s) && Waiting(s, fr)
    requires Placed(g, s) && AtRoot(g, s, fr) && EdgesStay(g, s, fr[|fr| - 1].vertex)
    requires x in s.stack && s.Rank(fr[|fr| - 1].vertex) <= s.Rank(x)
    ensures g.Reach(x, fr[|fr| - 1].vertex)
    decreases s.Rank(x)
  {
    var v := fr[|fr| - 1].vertex;
    if s.Rank(x) == s.Rank(v) {
      RankInjective(g, s, x, v);
      ReachRefl(g, v);
    } else {
      forall i | 0 <= i < |fr| ensures fr[i].vertex != x {
        assert s.Rank(fr[i].vertex) <= s.Rank(v);
      }
      assert s.Low(x) < s.Rank(x);
      var u: nat :| LowWitness(g, s, x, u);
      AboveStays(g, s, v, x, u);
      EmitReaches(g, s, fr, u);
      ReachTrans(g, x, u, v);
    }
  }

  ghost predicate AboveOrClosed(s: State, v: nat, w: nat) {
    InComponents(s.components, w) || (w in s.stack && s.Rank(v) <= s.Rank(w))
  }

  ghost predicate EdgesStay(g: Graph, s: State, v: nat) {
    forall x: nat, w: nat :: AboveOrClosed(s, v, x) && g.Edge(x, w) ==> AboveOrClosed(s, v, w)
  }

  lemma AboveStays(g: Graph, s: State, v: nat, x: nat, u: nat)
    requires Placed(g, s) && StackOk(g, s) && EdgesStay(g, s, v)
    requires x in s.stack && s.Rank(v) <= s.Rank(x) && g.Reach(x, u) && u in s.stack
    ensures s.Rank(v) <= s.Rank(u)
  {
    var region := set w: nat | w < g.Size() && AboveOrClosed(s, v, w);
    forall w: nat | AboveOrClosed(s, v, w) ensures w in region {
      if InComponents(s.components, w) {
        var j :| 0 <= j < |s.components| && w in s.components[j];
      }
    }
    ReachStays(g, region, x, u);
  }

  lemma EmitEdgesStay(g: Graph, s: State, fr: seq<Frame>)
    requires g.Valid() && StackOk(g, s) && Placed(g, s) && FramesOk(g, s, fr)
    requires Explored(g, s, fr) && LowComplete(g, s, fr) && AtRoot(g, s, fr)
    requires Finished(g, s.components)
    ensures EdgesStay(g, s, fr[|fr| - 1].vertex)
  {
    var v := fr[|fr| - 1].vertex;
    forall x: nat, w: nat | AboveOrClosed(s, v, x) && g.Edge(x, w) ensures AboveOrClosed(s, v, w) {
      if InComponents(s.components, x) {
        var j :| 0 <= j < |s.components| && x in s.components[j];
        assert InEarlier(s.components, j, w);
      } else {
        EmitClosed(g, s, fr, x, w);
      }
    }
  }

  lemma EmitStrong(g: Graph, s: State, s': State, fr: seq<Frame>, comp: seq<nat>)
    requires StackOk(g, s) && FramesOk(g, s, fr) && LowSound(g, s) && Waiting(s, fr)
    requires Placed(g, s) && AtRoot(g, s, fr) && EdgesStay(g, s, fr[|fr| - 1].vertex)
    requires Spans(g, s, fr) && Emits(s, s', fr[|fr| - 1].vertex, comp)
    ensures forall x: nat, y: nat :: x in comp && y in comp ==> g.Reach(x, y)
  {
    var v := fr[|fr| - 1].vertex;
    forall x: nat, y: nat | x in comp && y in comp ensures g.Reach(x, y) {
      EmitReaches(g, s, fr, x);
      assert g.Reach(v, y);
      ReachTrans(g, x, v, y);
    }
  }

  lemma EmitFinished(g: Graph, s: State, s': State, v: nat, comp: seq<nat>)
    requires Finished(g, s.components) && EdgesStay(g, s, v) && Emits(s, s', v, comp)
    requires forall x: nat, y: nat :: x in comp && y in comp ==> g.Reach(x, y)
    ensures Finished(g, s'.components)
  {
    var n := |s.components|;
    var c' := s'.components;
    assert c'[n] == comp && forall j :: 0 <= j < n ==> c'[j] == s.components[j];
    forall j, x: nat, w: nat | 0 <= j < |c'| && x in c'[j] && g.Edge(x, w) ensures InEarlier(c', j, w) {
      if j < n {
        assert InEarlier(s.components, j, w);
        var i :| 0 <= i <= j && w in s.components[i];
        assert w in c'[i];
      } else {
        assert AboveOrClosed(s, v, x) && AboveOrClosed(s, v, w);
        if InComponents(s.components, w) {
          var i :| 0 <= i < n && w in s.components[i];
          assert w in c'[i];
        } else {
          assert w in c'[n];
        }
      }
    }
  }

  lemma BottomLowest(g: Graph, s: State)
    requires StackOk(g, s) && s.stack != []
    ensures forall x: nat :: x in s.stack ==> s.Rank(s.stack[0]) <= s.Rank(x)
  {}

  lemma EmitFrames(g: Graph, s: State, s': State, fr: seq<Frame>, comp: seq<nat>)
    requires StackOk(g, s) && FramesOk(g, s, fr) && AtRoot(g, s, fr)
    requires Emits(s, s', fr[|fr| - 1].vertex, comp)
    ensures FramesOk(g, s', fr[..|fr| - 1])
  {
    var n := |fr| - 1;
    var fr' := fr[..n];
    forall i | 0 <= i < n ensures fr'[i] == fr[i] && fr'[i].vertex in s'.stack {
      assert s.Rank(fr[i].vertex) < s.Rank(fr[n].vertex);
    }
    if n == 0 {
      BottomLowest(g, s);
    } else {
      assert fr[0].vertex in s'.stack;
    }
  }

  lemma EmitLowSound(g: Graph, s: State, s': State, v: nat, comp: seq<nat>)
    requires LowSound(g, s) && Emits(s, s', v, comp)
    ensures LowSound(g, s')
  {
    forall x: nat | x in s'.stack
      ensures s'.Low(x) <= s'.Rank(x) && exists u: nat :: LowWitness(g, s', x, u)
    {
      assert s.Low(x) <= s.Rank(x);
      var u: nat :| LowWitness(g, s, x, u);
      assert LowWitness(g, s', x, u);
    }
  }

  lemma EmitWaiting(g: Graph, s: State, s': State, fr: seq<Frame>, comp: seq<nat>)
    requires Waiting(s, fr) && Explored(g, s, fr) && AtRoot(g, s, fr)
    requires Emits(s, s', fr[|fr| - 1].vertex, comp)
    ensures Waiting(s', fr[..|fr| - 1]) && Explored(g, s', fr[..|fr| - 1])
  {
    var n := |fr| - 1;
    var fr' := fr[..n];
    forall x: nat | x in s'.stack && !Active(fr', x) ensures s'.Low(x) < s'.Rank(x) {
      assert forall i :: 0 <= i < n ==> fr[i].vertex == fr'[i].vertex != x;
      assert s.Low(x) < s.Rank(x);
    }
    forall x: nat, k: nat | x in s'.stack && Done(g, fr', x, k) ensures s'.Visited(g.edges[k]) {
      LeaveDone(g, fr, x, k);
    }
  }

  lemma EmitLowComplete(g: Graph, s: State, s': State, fr: seq<Frame>, comp: seq<nat>)
    requires FramesOk(g, s, fr) && LowComplete(g, s, fr) && AtRoot(g, s, fr)
    requires Emits(s, s', fr[|fr| - 1].vertex, comp)
    ensures LowComplete(g, s', fr[..|fr| - 1])
  {
    var n := |fr| - 1;
    var fr' := fr[..n];
    forall i, y: nat, k: nat
      | InSegment(s', fr', i, y) && Done(g, fr', y, k) && g.edges[k] in s'.stack
      ensures s'.Low(fr'[i].vertex) <= s'.Rank(g.edges[k])
    {
      LeaveDone(g, fr, y, k);
      assert fr'[i] == fr[i];
      assert i + 1 < n ==> fr'[i + 1] == fr[i + 1];
      assert InSegment(s, fr, i, y);
    }
  }

  lemma EmitStep(g: Graph, s: State, s': State, fr: seq<Frame>, comp: seq<nat>)
    requires Inv(g, s, fr) && AtRoot(g, s, fr) && Emits(s, s', fr[|fr| - 1].vertex, comp)
    ensures Inv(g, s', fr[..|fr| - 1])
  {
    var v := fr[|fr| - 1].vertex;
    EmitEdgesStay(g, s, fr);
    EmitShape(g, s, s', v, comp);
    EmitPlaced(g, s, s', v, comp);
    EmitStrong(g, s, s', fr, comp);
    EmitFinished(g, s, s', v, comp);
    EmitFrames(g, s, s', fr, comp);
    EmitLowSound(g, s, s', v, comp);
    EmitWaiting(g, s, s', fr, comp);
    LeaveSpans(g, s, s', fr);
    EmitLowComplete(g, s, s', fr, comp);
  }

  // ----- what the component list says once every vertex is placed

  /** The lists partition the vertices, each in increasing order. */
  ghost predicate Partition(n: nat, c: seq<seq<nat>>) {
    && (forall v: nat :: v < n ==> InComponents(c, v))
    && (forall j, v: nat {:trigger v in c[j]} :: 0 <= j < |c| && v in c[j] ==> v < n)
    && Apart(c)
    && (forall j :: 0 <= j < |c| ==> c[j] != [] && Increasing(c[j]))
  }

  /** The strongly connected components, each emitted after every one it leads to. */
  ghost predicate SccDecomposition(g: Graph, c: seq<seq<nat>>) {
    && Partition(g.Size(), c)
    && (forall i, j, u: nat, v: nat :: 0 <= i < |c| && 0 <= j < |c| && u in c[i] && v in c[j] ==>
          (i == j <==> g.Reach(u, v) && g.Reach(v, u)))
    && (forall i, j, u: nat, v: nat ::
          0 <= i < |c| && 0 <= j < |c| && u in c[i] && v in c[j] && g.Edge(u, v) ==> j <= i)
  }

  /** The starts are taken in order: what no vertex up to `u` reaches comes after `u`. */
  ghost predicate StartsInOrder(g: Graph, c: seq<seq<nat>>, n: nat) {
    forall i, j, u: nat, v: nat ::
      0 <= i < |c| && 0 <= j < |c| && u in c[i] && v in c[j] && u < n && !ReachedUpTo(g, u, v) ==> i < j
  }

  ghost predicate ReachedUpTo(g: Graph, u: nat, v: nat) {
    exists w: nat :: w <= u && g.Reach(w, v)
  }

  /** One more start: what it emits comes after all that was there. */
  lemma OneMoreStart(g: Graph, c: seq<seq<nat>>, c': seq<seq<nat>>, n: nat)
    requires StartsInOrder(g, c, n) && c <= c' && Apart(c')
    requires forall u: nat :: u < n ==> InComponents(c, u)
    requires forall v: nat :: InComponents(c', v) ==> ReachedUpTo(g, n, v)
    ensures StartsInOrder(g, c', n + 1)
  {
    hide ReachedUpTo;
    forall i, j, u: nat, v: nat
      | 0 <= i < |c'| && 0 <= j < |c'| && u in c'[i] && v in c'[j] && u < n + 1 && !ReachedUpTo(g, u, v)
      ensures i < j
    {
      assert InComponents(c', v);
      if u < n {
        assert InComponents(c, u);
        var k :| 0 <= k < |c| && u in c[k];
        assert u in c'[k] && k == i;
        if j < |c| {
          assert u in c[i] && v in c[j];
        }
      }
    }
  }

  /** Nothing reaches a later component. */
  lemma ReachGoesEarlier(g: Graph, c: seq<seq<nat>>, i: int, j: int, u: nat, v: nat)
    requires Finished(g, c) && Partition(g.Size(), c)
    requires 0 <= i < |c| && 0 <= j < |c| && u in c[i] && v in c[j] && g.Reach(u, v)
    ensures j <= i
  {
    var region := set w: nat | w < g.Size() && InEarlier(c, i, w);
    forall x: nat, w: nat | x in region && g.Edge(x, w) ensures w in region {
      var m :| 0 <= m <= i && x in c[m];
      assert InEarlier(c, m, w);
      var l :| 0 <= l <= m && w in c[l];
      assert w in c[l] && w < g.Size();
    }
    assert u in c[i] && InEarlier(c, i, u);
    ReachStays(g, region, u, v);
    var l :| 0 <= l <= i && v in c[l];
    assert l == j;
  }

  lemma FinishedIsScc(g: Graph, c: seq<seq<nat>>)
    requires Finished(g, c) && Partition(g.Size(), c)
    ensures SccDecomposition(g, c)
  {
    forall i, j, u: nat, v: nat | 0 <= i < |c| && 0 <= j < |c| && u in c[i] && v in c[j]
      ensures i == j <==> g.Reach(u, v) && g.Reach(v, u)
      ensures g.Edge(u, v) ==> j <= i
    {
      if g.Reach(u, v) {
        ReachGoesEarlier(g, c, i, j, u, v);
      }
      if g.Reach(v, u) {
        ReachGoesEarlier(g, c, j, i, v, u);
      }
      if g.Edge(u, v) {
        ReachEdge(g, u, v);
      }
    }
  }
}
