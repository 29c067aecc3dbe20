/** The seed-scoped URI query: token URIs first, then image URIs where those left something
    over, query by query or in chunks. */
module SeedUriQuery {
  import opened Wrappers
  import opened Sorting
  import opened UriSpec
  import opened SeedUriSpec
  import opened SeedQueries

  const PARALLEL_URI_QUERY_CHUNK: nat := 16

  class HitGraph {
    var edges: seq<HitEdge>

    constructor ()
      ensures edges == []
    {
      edges := [];
    }

    /** Seed self-hits are left out. */
    method Push(edge: HitEdge) returns (pushed: bool)
      modifies this
      ensures pushed <==> edge.seed != edge.candidate
      ensures edges == if pushed then old(edges) + [edge] else old(edges)
    {
      if edge.seed == edge.candidate {
        return false;
      }
      edges := edges + [edge];
      return true;
    }

    method Append(other: HitGraph)
      requires other != this
      modifies this, other
      ensures edges == old(edges) + old(other.edges) && other.edges == []
    {
      edges, other.edges := edges + other.edges, [];
    }
  }

  /** The buffers that carry token hits over to the image URIs. */
  class UriQueryScratch {
    var scopes: HitScopes
    var candidates: HitCandidates

    constructor ()
      ensures scopes == map[] && candidates == map[]
    {
      scopes, candidates := map[], map[];
    }

    method AddCandidate(scope: UriScope, n: nat)
      modifies this`candidates
      ensures forall s :: Excluded(candidates, s) == Excluded(old(candidates), s) + if s == scope then {n} else {}
    {
      candidates := candidates[scope := Excluded(candidates, scope) + {n}];
    }

    method AddScope(nfts: seq<nat>, scope: UriScope)
      modifies this`scopes
      ensures forall s :: ScopesOf(scopes, s) == ScopesOf(old(scopes), s) + if s in nfts then {scope} else {}
    {
      for k := 0 to |nfts|
        invariant forall s :: ScopesOf(scopes, s) == ScopesOf(old(scopes), s) + if s in nfts[..k] then {scope} else {}
      {
        assert nfts[..k + 1] == nfts[..k] + [nfts[k]];
        scopes := scopes[nfts[k] := ScopesOf(scopes, nfts[k]) + {scope}];
      }
      assert nfts[..|nfts|] == nfts;
    }

    /** Takes in the records of a chunk. */
    method Extend(other: UriQueryScratch)
      requires other != this
      modifies this
      ensures forall s :: ScopesOf(scopes, s) == ScopesOf(old(scopes), s) + ScopesOf(other.scopes, s)
      ensures forall s :: Excluded(candidates, s) == Excluded(old(candidates), s) + Excluded(other.candidates, s)
    {
      var nfts := other.scopes.Keys;
      while nfts != {}
        invariant candidates == old(candidates)
        invariant forall s :: ScopesOf(scopes, s) == ScopesOf(old(scopes), s) + if s in nfts then {} else ScopesOf(other.scopes, s)
      {
        var s :| s in nfts;
        scopes := scopes[s := ScopesOf(scopes, s) + other.scopes[s]];
        nfts := nfts - {s};
      }
      var keys := other.candidates.Keys;
      while keys != {}
        invariant forall s :: ScopesOf(scopes, s) == ScopesOf(old(scopes), s) + ScopesOf(other.scopes, s)
        invariant forall s :: Excluded(candidates, s) == Excluded(old(candidates), s) + if s in keys then {} else Excluded(other.candidates, s)
      {
        var s :| s in keys;
        candidates := candidates[s := Excluded(candidates, s) + other.candidates[s]];
        keys := keys - {s};
      }
    }
  }

  // ----- the guards of the hot path

  /** `has_seed_and_other_contract` */
  method HasSeedAndOtherContract(t: Table, members: seq<nat>, excluded: set<nat>, seed: nat) returns (both: bool)
    requires InTable(t, members)
    ensures both <==>
              && (exists i :: 0 <= i < |members| && members[i] !in excluded && t.nfts[members[i]].contract == seed)
              && (exists i :: 0 <= i < |members| && members[i] !in excluded && t.nfts[members[i]].contract != seed)
  {
    var hasSeed, hasOther := false, false;
    for k := 0 to |members|
      invariant hasSeed <==> exists i :: 0 <= i < k && members[i] !in excluded && t.nfts[members[i]].contract == seed
      invariant hasOther <==> exists i :: 0 <= i < k && members[i] !in excluded && t.nfts[members[i]].contract != seed
      invariant !(hasSeed && hasOther)
    {
      if members[k] in excluded {
        continue;
      }
      if t.nfts[members[k]].contract == seed {
        hasSeed := true;
      } else {
        hasOther := true;
      }
      if hasSeed && hasOther {
        return true;
      }
    }
    return false;
  }

  method AnyLeft(members: seq<nat>, excluded: set<nat>) returns (left: bool)
    ensures left <==> exists i :: 0 <= i < |members| && members[i] !in excluded
  {
    for k := 0 to |members|
      invariant forall i :: 0 <= i < k ==> members[i] in excluded
    {
      if members[k] !in excluded {
        return true;
      }
    }
    return false;
  }

  lemma {:induction false} NoEdges(t: Table, seed: nat, d: Dimension, list: seq<nat>, k: nat, excluded: set<nat>)
    requires Seeded(t, seed) && k <= |list| && InTable(t, list)
    requires forall i :: 0 <= i < k ==> list[i] in excluded || t.nfts[list[i]].contract == seed
    ensures ListEdges(t, seed, d, list, k, excluded) == []
  {
    if k > 0 {
      NoEdges(t, seed, d, list, k - 1, excluded);
    }
  }

  // ----- emitting the edges of one URI

  /** What the buffers gain from the NFTs of a chain. */
  ghost predicate Gained(t: Table, seed: nat, was: HitCandidates, now: HitCandidates, scope: UriScope, list: seq<nat>, k: nat,
                         excluded: set<nat>)
    requires k <= |list| && InTable(t, list)
  {
    forall s, n: nat {:trigger n in Excluded(now, s)} {:trigger n in Excluded(was, s)} :: n in Excluded(now, s) <==>
      n in Excluded(was, s) || (s == scope && Pushed(t, seed, list, k, excluded, n))
  }

  ghost predicate Pushed(t: Table, seed: nat, list: seq<nat>, k: nat, excluded: set<nat>, n: nat)
    requires k <= |list| && InTable(t, list)
  {
    exists i :: 0 <= i < k && list[i] == n && n !in excluded && t.nfts[list[i]].contract != seed
  }

  lemma GainedNone(t: Table, seed: nat, was: HitCandidates, scope: UriScope, list: seq<nat>, excluded: set<nat>)
    requires InTable(t, list)
    ensures Gained(t, seed, was, was, scope, list, 0, excluded)
  {}

  lemma GainedNext(t: Table, seed: nat, was: HitCandidates, mid: HitCandidates, now: HitCandidates, scope: UriScope,
                   list: seq<nat>, k: nat, excluded: set<nat>)
    requires k < |list| && InTable(t, list) && Gained(t, seed, was, mid, scope, list, k, excluded)
    requires var pushed := list[k] !in excluded && t.nfts[list[k]].contract != seed;
             forall s :: Excluded(now, s) == Excluded(mid, s) + if s == scope && pushed then {list[k]} else {}
    ensures Gained(t, seed, was, now, scope, list, k + 1, excluded)
  {}

  /** The inner loop over the NFTs of one chain. */
  method PushMembers(t: Table, seed: nat, d: Dimension, members: seq<nat>, chain: nat, scope: UriScope, excluded: set<nat>,
                     graph: HitGraph, out: UriQueryScratch?)
    returns (any: bool)
    requires Seeded(t, seed) && InTable(t, members) && forall i :: 0 <= i < |members| ==> Chain(t, members[i]) == chain
    modifies graph, if out == null then {} else {out}
    ensures graph.edges == old(graph.edges) + ListEdges(t, seed, d, members, |members|, excluded)
    ensures any <==> ListEdges(t, seed, d, members, |members|, excluded) != []
    ensures out != null ==> out.scopes == old(out.scopes)
                            && Gained(t, seed, old(out.candidates), out.candidates, scope, members, |members|, excluded)
  {
    hide Excluded, Gained;
    any := false;
    if out != null {
      GainedNone(t, seed, out.candidates, scope, members, excluded);
    }
    for k: nat := 0 to |members|
      invariant graph.edges == old(graph.edges) + ListEdges(t, seed, d, members, k, excluded)
      invariant any <==> ListEdges(t, seed, d, members, k, excluded) != []
      invariant out != null ==> out.scopes == old(out.scopes)
                                && Gained(t, seed, old(out.candidates), out.candidates, scope, members, k, excluded)
    {
      var n := members[k];
      ghost var mid := if out == null then map[] else out.candidates;
      if n in excluded || t.nfts[n].contract == seed {
        if out != null {
          GainedNext(t, seed, old(out.candidates), mid, mid, scope, members, k, excluded);
        }
        continue;
      }
      var candidate := t.nfts[n].contract;
      var edge := HitEdge(seed, candidate, Some(n), HitDimensionOf(d), t.chainOf[seed], chain);
      assert edge == EdgeTo(t, seed, d, n);
      var pushed := graph.Push(edge);
      if out != null {
        out.AddCandidate(scope, n);
        GainedNext(t, seed, old(out.candidates), mid, out.candidates, scope, members, k, excluded);
      }
      any := true;
    }
  }

  /** Nothing of the seed is excluded, and exclusions are of NFTs of the scope's own chain. */
  ghost predicate Fair(t: Table, seed: nat, excluded: HitCandidates)
    requires Seeded(t, seed)
  {
    forall scope, n: nat {:trigger n in Excluded(excluded, scope)} :: n in Excluded(excluded, scope) ==>
      0 <= n < |t.nfts| && t.nfts[n].contract != seed && ScopeOf(t.chainOf[seed], Chain(t, n)) == scope
  }

  /** The buffers gain the hits of one query in one scope. */
  ghost predicate GainedScope(t: Table, seed: nat, q: Query, scope: UriScope, scopes: HitScopes, candidates: HitCandidates,
                              scopes': HitScopes, candidates': HitCandidates)
    requires Seeded(t, seed)
  {
    && (forall s, n: nat {:trigger n in Excluded(candidates', s)} {:trigger n in Excluded(candidates, s)} :: n in Excluded(candidates', s) <==>
          n in Excluded(candidates, s) || (s == scope && Candidate(t, seed, TokenUri, q.0, scope, n)))
    && (forall s, n: nat {:trigger s in ScopesOf(scopes', n)} {:trigger s in ScopesOf(scopes, n)} :: s in ScopesOf(scopes', n) <==>
          s in ScopesOf(scopes, n) || (s == scope && n in q.1 && ScopeHit(t, seed, q.0, scope)))
  }

  lemma MemberCandidate(t: Table, seed: nat, uri: nat, chain: nat, n: nat)
    requires Seeded(t, seed) && chain < t.chainCount && InTable(t, Listing(t, TokenUri, uri, chain, |t.nfts|))
    ensures var list := Listing(t, TokenUri, uri, chain, |t.nfts|);
            Pushed(t, seed, list, |list|, {}, n) <==> Candidate(t, seed, TokenUri, uri, ScopeOf(t.chainOf[seed], chain), n)
  {
    ListingMeans(t, TokenUri, uri, chain, |t.nfts|);
    var list := Listing(t, TokenUri, uri, chain, |t.nfts|);
    hide Listing;
    if Candidate(t, seed, TokenUri, uri, ScopeOf(t.chainOf[seed], chain), n) {
      assert n in list;
    }
  }

  lemma PushedSome(t: Table, seed: nat, list: seq<nat>)
    requires Seeded(t, seed) && InTable(t, list) && Increasing(list)
    ensures ListEdges(t, seed, TokenUri, list, |list|, {}) != [] <==> exists n :: Pushed(t, seed, list, |list|, {}, n)
  {
    ListEdgesMean(t, seed, TokenUri, list, |list|, {});
    hide ListEdges, EdgeTo;
    var r := ListEdges(t, seed, TokenUri, list, |list|, {});
    if r != [] {
      assert r[0] in r;
      var i :| 0 <= i < |list| && t.nfts[list[i]].contract != seed && r[0] == EdgeTo(t, seed, TokenUri, list[i]);
      assert Pushed(t, seed, list, |list|, {}, list[i]);
    }
    if n :| Pushed(t, seed, list, |list|, {}, n) {
      var i :| 0 <= i < |list| && list[i] == n && t.nfts[list[i]].contract != seed;
      assert EdgeTo(t, seed, TokenUri, list[i]) in r;
    }
  }

  lemma ListEdgesSome(t: Table, seed: nat, uri: nat, chain: nat)
    requires Seeded(t, seed) && chain < t.chainCount
    ensures var list := Listing(t, TokenUri, uri, chain, |t.nfts|);
            && InTable(t, list)
            && (ListEdges(t, seed, TokenUri, list, |list|, {}) != [] <==> ScopeHit(t, seed, uri, ScopeOf(t.chainOf[seed], chain)))
  {
    ListingMeans(t, TokenUri, uri, chain, |t.nfts|);
    hide ListEdges, Listing, Pushed, Candidate;
    PushedSome(t, seed, Listing(t, TokenUri, uri, chain, |t.nfts|));
    forall n: nat {
      MemberCandidate(t, seed, uri, chain, n);
    }
  }

  /** The guards of a chain; a closed guard means there is nothing to push. */
  method ChainOpen(t: Table, seed: nat, d: Dimension, q: Query, byChain: seq<seq<nat>>, chain: nat, excluded: HitCandidates)
    returns (open: bool)
    requires Seeded(t, seed) && chain < t.chainCount && byChain == FillByChain(t, d, q.0) && Fair(t, seed, excluded)
    requires q.1 == SeedNfts(t, seed, d, q.0, |t.nfts|) && q.1 != []
    ensures InTable(t, byChain[chain])
    ensures !open ==> ListEdges(t, seed, d, byChain[chain], |byChain[chain]|, Excluded(excluded, ScopeOf(t.chainOf[seed], chain))) == []
  {
    var seedChain := t.chainOf[seed];
    var members, gone := byChain[chain], Excluded(excluded, ScopeOf(seedChain, chain));
    ListingMeans(t, d, q.0, chain, |t.nfts|);
    SeedListed(t, seed, d, q, excluded, ScopeOf(seedChain, chain));
    hide Listing, ListEdges, Excluded, SeedNfts, Fair, Chain;
    if chain == seedChain {
      open := HasSeedAndOtherContract(t, members, gone, seed);
    } else {
      var peerAlive := AnyLeft(members, gone);
      var primaryAlive := AnyLeft(byChain[seedChain], gone);
      open := peerAlive && primaryAlive;
    }
    if !open {
      NoEdges(t, seed, d, members, |members|, gone);
    }
  }

  /** The edges of one chain, and the records they leave. */
  method EmitChain(t: Table, seed: nat, d: Dimension, q: Query, byChain: seq<seq<nat>>, chain: nat, skip: set<UriScope>,
                   excluded: HitCandidates, graph: HitGraph, out: UriQueryScratch?)
    requires Seeded(t, seed) && chain < t.chainCount && byChain == FillByChain(t, d, q.0) && Fair(t, seed, excluded)
    requires q.1 == SeedNfts(t, seed, d, q.0, |t.nfts|) && q.1 != []
    requires out != null ==> d == TokenUri && skip == {} && excluded == map[]
    modifies graph, if out == null then {} else {out}
    ensures graph.edges == old(graph.edges) + ChainEdges(t, seed, d, q.0, chain, skip, excluded)
    ensures out != null ==> GainedScope(t, seed, q, ScopeOf(t.chainOf[seed], chain), old(out.scopes), old(out.candidates),
                                        out.scopes, out.candidates)
  {
    hide ListEdges, Listing, Excluded, ScopesOf, SeedNfts, Fair, Chain, Candidate, ScopeHit;
    var scope := ScopeOf(t.chainOf[seed], chain);
    if scope in skip {
      return;
    }
    OnChain(t, d, q.0, chain);
    NothingExcluded(scope);
    var members, gone := byChain[chain], Excluded(excluded, scope);
    var open := ChainOpen(t, seed, d, q, byChain, chain, excluded);
    if !open {
      if out != null {
        NothingGained(t, seed, q, chain, out.scopes, out.candidates);
      }
      return;
    }
    var any := PushMembers(t, seed, d, members, chain, scope, gone, graph, out);
    if out != null {
      GainedMeans(t, seed, q, chain, old(out.scopes), old(out.candidates), out.candidates);
      if any {
        out.AddScope(q.1, scope);
      }
    }
  }

  lemma NothingExcluded(scope: UriScope)
    ensures Excluded(map[], scope) == {}
  {}

  lemma OnChain(t: Table, d: Dimension, uri: nat, chain: nat)
    requires WellFormed(t)
    ensures var list := Listing(t, d, uri, chain, |t.nfts|);
            InTable(t, list) && forall i :: 0 <= i < |list| ==> Chain(t, list[i]) == chain
  {
    ListingMeans(t, d, uri, chain, |t.nfts|);
    var list := Listing(t, d, uri, chain, |t.nfts|);
    forall i | 0 <= i < |list| ensures Chain(t, list[i]) == chain {
      assert list[i] in list;
    }
  }

  /** The seed NFT that asks is listed on the seed's chain and never excluded. */
  lemma SeedListed(t: Table, seed: nat, d: Dimension, q: Query, excluded: HitCandidates, scope: UriScope)
    requires Seeded(t, seed) && Fair(t, seed, excluded) && q.1 == SeedNfts(t, seed, d, q.0, |t.nfts|) && q.1 != []
    ensures var list := Listing(t, d, q.0, t.chainOf[seed], |t.nfts|);
            && InTable(t, list)
            && exists i :: 0 <= i < |list| && list[i] !in Excluded(excluded, scope) && t.nfts[list[i]].contract == seed
  {
    SeedNftsMean(t, seed, d, q.0, |t.nfts|);
    ListingMeans(t, d, q.0, t.chainOf[seed], |t.nfts|);
    var list := Listing(t, d, q.0, t.chainOf[seed], |t.nfts|);
    hide Listing, SeedNfts, Excluded;
    assert q.1[0] in q.1;
    assert q.1[0] in list;
    var i :| 0 <= i < |list| && list[i] == q.1[0];
  }

  lemma NothingGained(t: Table, seed: nat, q: Query, chain: nat, scopes: HitScopes, candidates: HitCandidates)
    requires Seeded(t, seed) && chain < t.chainCount && InTable(t, Listing(t, TokenUri, q.0, chain, |t.nfts|))
    requires ListEdges(t, seed, TokenUri, Listing(t, TokenUri, q.0, chain, |t.nfts|), |Listing(t, TokenUri, q.0, chain, |t.nfts|)|, {}) == []
    ensures GainedScope(t, seed, q, ScopeOf(t.chainOf[seed], chain), scopes, candidates, scopes, candidates)
  {
    ListEdgesSome(t, seed, q.0, chain);
  }

  /** The candidates pushed from a chain's list are those of the query in its scope. */
  lemma GainedMeans(t: Table, seed: nat, q: Query, chain: nat, scopes: HitScopes, was: HitCandidates, now: HitCandidates)
    requires Seeded(t, seed) && chain < t.chainCount && InTable(t, Listing(t, TokenUri, q.0, chain, |t.nfts|))
    requires Gained(t, seed, was, now, ScopeOf(t.chainOf[seed], chain), Listing(t, TokenUri, q.0, chain, |t.nfts|),
                    |Listing(t, TokenUri, q.0, chain, |t.nfts|)|, {})
    ensures forall s, n: nat :: n in Excluded(now, s) <==>
              n in Excluded(was, s) || (s == ScopeOf(t.chainOf[seed], chain) && Candidate(t, seed, TokenUri, q.0, s, n))
    ensures ListEdges(t, seed, TokenUri, Listing(t, TokenUri, q.0, chain, |t.nfts|), |Listing(t, TokenUri, q.0, chain, |t.nfts|)|, {}) != []
            <==> ScopeHit(t, seed, q.0, ScopeOf(t.chainOf[seed], chain))
  {
    ListEdgesSome(t, seed, q.0, chain);
    hide ListEdges, Listing, Candidate, Excluded, Pushed;
    forall s, n: nat
      ensures n in Excluded(now, s) <==>
                n in Excluded(was, s) || (s == ScopeOf(t.chainOf[seed], chain) && Candidate(t, seed, TokenUri, q.0, s, n))
    {
      MemberCandidate(t, seed, q.0, chain, n);
    }
  }
}
