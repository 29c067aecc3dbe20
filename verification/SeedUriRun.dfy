/** One seed's whole URI query, sequential or in chunks, and what its edges mean. */
module SeedUriRun {
  import opened UriSpec
  import opened SeedUriSpec
  import opened SeedQueries
  import opened SeedUriQuery

  // ----- all chains of one query

  /** The scopes dealt with once the peers below `k` are. */
  predicate Done(seedChain: nat, k: nat, scope: UriScope) {
    scope.Intra? || (scope.peer < k && scope.peer != seedChain)
  }

  /** The buffers have gained the hits of a query in the scopes dealt with. */
  ghost predicate GainedTo(t: Table, seed: nat, q: Query, k: nat, scopes: HitScopes, candidates: HitCandidates,
                           scopes': HitScopes, candidates': HitCandidates)
    requires Seeded(t, seed)
  {
    && (forall s, n: nat {:trigger n in Excluded(candidates', s)} {:trigger n in Excluded(candidates, s)} ::
          n in Excluded(candidates', s) <==>
            n in Excluded(candidates, s) || (Done(t.chainOf[seed], k, s) && Candidate(t, seed, TokenUri, q.0, s, n)))
    && (forall s, n: nat {:trigger s in ScopesOf(scopes', n)} {:trigger s in ScopesOf(scopes, n)} ::
          s in ScopesOf(scopes', n) <==>
            s in ScopesOf(scopes, n) || (Done(t.chainOf[seed], k, s) && n in q.1 && ScopeHit(t, seed, q.0, s)))
  }

  lemma GainedFirst(t: Table, seed: nat, q: Query, scopes: HitScopes, candidates: HitCandidates, scopes': HitScopes,
                    candidates': HitCandidates)
    requires Seeded(t, seed) && GainedScope(t, seed, q, Intra, scopes, candidates, scopes', candidates')
    ensures GainedTo(t, seed, q, 0, scopes, candidates, scopes', candidates')
  {}

  lemma GainedPeer(t: Table, seed: nat, q: Query, k: nat, scopes: HitScopes, candidates: HitCandidates, mid: HitScopes,
                   middle: HitCandidates, scopes': HitScopes, candidates': HitCandidates)
    requires Seeded(t, seed) && GainedTo(t, seed, q, k, scopes, candidates, mid, middle)
    requires if k == t.chainOf[seed] then scopes' == mid && candidates' == middle
             else GainedScope(t, seed, q, Cross(k), mid, middle, scopes', candidates')
    ensures GainedTo(t, seed, q, k + 1, scopes, candidates, scopes', candidates')
  {}

  /** Once all peers are dealt with, the records are those of one more query. */
  lemma GainedQuery(t: Table, seed: nat, qs: seq<Query>, q: Query, scopes: HitScopes, candidates: HitCandidates,
                    scopes': HitScopes, candidates': HitCandidates)
    requires Seeded(t, seed) && Records(t, seed, qs, scopes, candidates)
    requires GainedTo(t, seed, q, t.chainCount, scopes, candidates, scopes', candidates')
    ensures Records(t, seed, qs + [q], scopes', candidates')
  {
    forall s, n: nat | Candidate(t, seed, TokenUri, q.0, s, n) ensures Done(t.chainOf[seed], t.chainCount, s) {
    }
    hide Candidate, Excluded, ScopesOf, HitBy, MatchedBy;
    forall s, n: nat
      ensures HitBy(t, seed, qs + [q], s, n) <==> HitBy(t, seed, qs, s, n) || Candidate(t, seed, TokenUri, q.0, s, n)
      ensures MatchedBy(t, seed, qs + [q], s, n) <==> MatchedBy(t, seed, qs, s, n) || (n in q.1 && ScopeHit(t, seed, q.0, s))
    {
      HitByJoin(t, seed, qs, [q], s, n);
      HitByOne(t, seed, q, s, n);
    }
  }

  lemma HitByOne(t: Table, seed: nat, q: Query, scope: UriScope, n: nat)
    requires Seeded(t, seed)
    ensures HitBy(t, seed, [q], scope, n) <==> Candidate(t, seed, TokenUri, q.0, scope, n)
    ensures MatchedBy(t, seed, [q], scope, n) <==> n in q.1 && ScopeHit(t, seed, q.0, scope)
  {
    hide Candidate, ScopeHit;
    assert [q][0] == q;
  }

  ghost predicate IsQuery(t: Table, seed: nat, d: Dimension, q: Query) {
    q.1 == SeedNfts(t, seed, d, q.0, |t.nfts|) && q.1 != []
  }

  /** `emit_uri_hits`: the seed's own chain, then its peers. */
  method EmitUriHits(t: Table, seed: nat, d: Dimension, q: Query, skip: set<UriScope>, excluded: HitCandidates,
                     graph: HitGraph, out: UriQueryScratch?)
    requires Seeded(t, seed) && Fair(t, seed, excluded) && IsQuery(t, seed, d, q)
    requires out != null ==> d == TokenUri && skip == {} && excluded == map[]
    modifies graph, if out == null then {} else {out}
    ensures graph.edges == old(graph.edges) + UriEdges(t, seed, d, q.0, skip, excluded)
    ensures out != null ==> GainedTo(t, seed, q, t.chainCount, old(out.scopes), old(out.candidates), out.scopes, out.candidates)
  {
    hide ChainEdges, GainedTo, GainedScope, Fair, SeedNfts, Candidate, ScopeHit;
    var seedChain := t.chainOf[seed];
    var byChain := FillByChain(t, d, q.0);
    EmitChain(t, seed, d, q, byChain, seedChain, skip, excluded, graph, out);
    if out != null {
      GainedFirst(t, seed, q, old(out.scopes), old(out.candidates), out.scopes, out.candidates);
    }
    ghost var own := ChainEdges(t, seed, d, q.0, seedChain, skip, excluded);
    for peer: nat := 0 to t.chainCount
      invariant graph.edges == old(graph.edges) + own + PeerEdges(t, seed, d, q.0, peer, skip, excluded)
      invariant out != null ==> GainedTo(t, seed, q, peer, old(out.scopes), old(out.candidates), out.scopes, out.candidates)
    {
      ghost var mid, middle := if out == null then map[] else out.scopes, if out == null then map[] else out.candidates;
      if peer != seedChain {
        EmitChain(t, seed, d, q, byChain, peer, skip, excluded, graph, out);
      }
      if out != null {
        GainedPeer(t, seed, q, peer, old(out.scopes), old(out.candidates), mid, middle, out.scopes, out.candidates);
      }
    }
  }

  // ----- the token queries

  ghost predicate AllQueries(t: Table, seed: nat, d: Dimension, qs: seq<Query>) {
    forall i :: 0 <= i < |qs| ==> IsQuery(t, seed, d, qs[i])
  }

  method TokenQueries(t: Table, seed: nat, qs: seq<Query>, graph: HitGraph, scratch: UriQueryScratch)
    requires Seeded(t, seed) && AllQueries(t, seed, TokenUri, qs) && scratch.scopes == map[] && scratch.candidates == map[]
    modifies graph, scratch
    ensures graph.edges == old(graph.edges) + QueryEdges(t, seed, TokenUri, qs, map[], map[])
    ensures Records(t, seed, qs, scratch.scopes, scratch.candidates)
  {
    hide UriEdges, Records, GainedTo, IsQuery;
    RecordsNothing(t, seed);
    for k := 0 to |qs|
      invariant graph.edges == old(graph.edges) + QueryEdges(t, seed, TokenUri, qs[..k], map[], map[])
      invariant Records(t, seed, qs[..k], scratch.scopes, scratch.candidates)
    {
      assert qs[..k + 1] == qs[..k] + [qs[k]] && qs[..k + 1][..k] == qs[..k];
      ghost var scopes, candidates := scratch.scopes, scratch.candidates;
      NothingBarred(t, seed);
      SkipNothing(qs[k].1);
      EmitUriHits(t, seed, TokenUri, qs[k], {}, map[], graph, scratch);
      GainedQuery(t, seed, qs[..k], qs[k], scopes, candidates, scratch.scopes, scratch.candidates);
    }
    assert qs[..|qs|] == qs;
  }

  lemma NothingBarred(t: Table, seed: nat)
    requires Seeded(t, seed)
    ensures Fair(t, seed, map[])
  {}

  /** The same in chunks: each with buffers of its own, taken in in their order. */
  method TokenQueriesInChunks(t: Table, seed: nat, qs: seq<Query>, graph: HitGraph, scratch: UriQueryScratch)
    requires Seeded(t, seed) && AllQueries(t, seed, TokenUri, qs) && scratch.scopes == map[] && scratch.candidates == map[]
    modifies graph, scratch
    ensures graph.edges == old(graph.edges) + QueryEdges(t, seed, TokenUri, qs, map[], map[])
    ensures Records(t, seed, qs, scratch.scopes, scratch.candidates)
  {
    hide QueryEdges, Records, IsQuery;
    RecordsNothing(t, seed);
    var start := 0;
    NoQueries(t, seed);
    while start < |qs|
      invariant 0 <= start <= |qs|
      invariant graph.edges == old(graph.edges) + QueryEdges(t, seed, TokenUri, qs[..start], map[], map[])
      invariant Records(t, seed, qs[..start], scratch.scopes, scratch.candidates)
    {
      var end := if start + PARALLEL_URI_QUERY_CHUNK < |qs| then start + PARALLEL_URI_QUERY_CHUNK else |qs|;
      var chunkGraph := new HitGraph();
      var chunk := new UriQueryScratch();
      TokenQueries(t, seed, qs[start..end], chunkGraph, chunk);
      QueryEdgesJoin(t, seed, TokenUri, qs[..start], qs[start..end], map[], map[]);
      assert qs[..end] == qs[..start] + qs[start..end];
      graph.Append(chunkGraph);
      ghost var scopes, candidates := scratch.scopes, scratch.candidates;
      scratch.Extend(chunk);
      RecordsJoin(t, seed, qs[..start], qs[start..end], scopes, candidates, chunk.scopes, chunk.candidates,
                  scratch.scopes, scratch.candidates);
      start := end;
    }
    assert qs[..|qs|] == qs;
  }

  lemma NoQueries(t: Table, seed: nat)
    requires Seeded(t, seed)
    ensures forall d, s, c :: QueryEdges(t, seed, d, [], s, c) == []
  {}

  lemma RecordsJoin(t: Table, seed: nat, a: seq<Query>, b: seq<Query>, s: HitScopes, c: HitCandidates, s': HitScopes,
                    c': HitCandidates, scopes: HitScopes, candidates: HitCandidates)
    requires Seeded(t, seed) && Records(t, seed, a, s, c) && Records(t, seed, b, s', c')
    requires forall n :: ScopesOf(scopes, n) == ScopesOf(s, n) + ScopesOf(s', n)
    requires forall scope :: Excluded(candidates, scope) == Excluded(c, scope) + Excluded(c', scope)
    ensures Records(t, seed, a + b, scopes, candidates)
  {
    hide HitBy, MatchedBy, Excluded, ScopesOf;
    forall scope, n: nat
      ensures HitBy(t, seed, a + b, scope, n) <==> HitBy(t, seed, a, scope, n) || HitBy(t, seed, b, scope, n)
      ensures MatchedBy(t, seed, a + b, scope, n) <==> MatchedBy(t, seed, a, scope, n) || MatchedBy(t, seed, b, scope, n)
    {
      HitByJoin(t, seed, a, b, scope, n);
    }
  }

  // ----- the image queries

  /** `intersect_token_hit_scopes` */
  method IntersectTokenHitScopes(nfts: seq<nat>, scopes: HitScopes) returns (output: set<UriScope>)
    ensures output == SkipOf(scopes, nfts)
  {
    output := {};
    if nfts == [] || nfts[0] !in scopes {
      return;
    }
    output := scopes[nfts[0]];
    for k := 1 to |nfts|
      invariant output == set s | s in ScopesOf(scopes, nfts[0]) && forall i :: 0 <= i < k ==> s in ScopesOf(scopes, nfts[i])
    {
      output := output * ScopesOf(scopes, nfts[k]);
      if output == {} {
        assert forall s :: s in SkipOf(scopes, nfts) ==> s in output;
        return;
      }
    }
  }

  method ImageQueries(t: Table, seed: nat, qs: seq<Query>, scopes: HitScopes, candidates: HitCandidates, graph: HitGraph)
    requires Seeded(t, seed) && AllQueries(t, seed, ImageUri, qs) && Fair(t, seed, candidates)
    modifies graph
    ensures graph.edges == old(graph.edges) + QueryEdges(t, seed, ImageUri, qs, scopes, candidates)
  {
    hide UriEdges, IsQuery, Fair, SkipOf;
    for k := 0 to |qs|
      invariant graph.edges == old(graph.edges) + QueryEdges(t, seed, ImageUri, qs[..k], scopes, candidates)
    {
      assert qs[..k + 1] == qs[..k] + [qs[k]] && qs[..k + 1][..k] == qs[..k];
      var skip := IntersectTokenHitScopes(qs[k].1, scopes);
      EmitUriHits(t, seed, ImageUri, qs[k], skip, candidates, graph, null);
    }
    assert qs[..|qs|] == qs;
  }

  method ImageQueriesInChunks(t: Table, seed: nat, qs: seq<Query>, scopes: HitScopes, candidates: HitCandidates, graph: HitGraph)
    requires Seeded(t, seed) && AllQueries(t, seed, ImageUri, qs) && Fair(t, seed, candidates)
    modifies graph
    ensures graph.edges == old(graph.edges) + QueryEdges(t, seed, ImageUri, qs, scopes, candidates)
  {
    hide QueryEdges, IsQuery, Fair;
    var start := 0;
    NoQueries(t, seed);
    while start < |qs|
      invariant 0 <= start <= |qs|
      invariant graph.edges == old(graph.edges) + QueryEdges(t, seed, ImageUri, qs[..start], scopes, candidates)
    {
      var end := if start + PARALLEL_URI_QUERY_CHUNK < |qs| then start + PARALLEL_URI_QUERY_CHUNK else |qs|;
      var chunkGraph := new HitGraph();
      ImageQueries(t, seed, qs[start..end], scopes, candidates, chunkGraph);
      QueryEdgesJoin(t, seed, ImageUri, qs[..start], qs[start..end], scopes, candidates);
      assert qs[..end] == qs[..start] + qs[start..end];
      graph.Append(chunkGraph);
      start := end;
    }
    assert qs[..|qs|] == qs;
  }
}
