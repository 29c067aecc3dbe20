/** What the edges of a seed's URI query say, and that they do not depend on how it is run. */
module SeedUriMeaning {
  import opened Wrappers
  import opened Sorting
  import opened UriSpec
  import opened SeedUriSpec
  import opened SeedQueries
  import opened SeedUriQuery
  import opened SeedUriRun

  // ----- the queries of a seed

  /** `contract_nft_csr`: the NFTs of a contract, in order. */
  function ContractNfts(t: Table, contract: nat, k: nat): seq<nat>
    requires k <= |t.nfts|
  {
    if k == 0 then [] else ContractNfts(t, contract, k - 1) + if t.nfts[k - 1].contract == contract then [k - 1] else []
  }

  lemma {:induction false} ContractNftsFit(t: Table, contract: nat, k: nat)
    requires k <= |t.nfts|
    ensures InTable(t, ContractNfts(t, contract, k))
  {
    if k > 0 {
      ContractNftsFit(t, contract, k - 1);
    }
  }

  /** The NFTs of a list that have a URI. */
  function WithUri(t: Table, d: Dimension, uri: nat, list: seq<nat>): seq<nat>
    requires InTable(t, list)
  {
    if list == [] then []
    else
      WithUri(t, d, uri, list[..|list| - 1]) +
      if t.nfts[list[|list| - 1]].Uri(d) == Some(uri) then [list[|list| - 1]] else []
  }

  lemma {:induction false} WithUriIs(t: Table, seed: nat, d: Dimension, uri: nat, k: nat)
    requires k <= |t.nfts| && InTable(t, ContractNfts(t, seed, k))
    ensures WithUri(t, d, uri, ContractNfts(t, seed, k)) == SeedNfts(t, seed, d, uri, k)
  {
    if k > 0 {
      ContractNftsFit(t, seed, k - 1);
      WithUriIs(t, seed, d, uri, k - 1);
      var list := ContractNfts(t, seed, k - 1);
      assert (list + [k - 1])[..|list|] == list && list + [] == list;
    }
  }

  /** The seed NFTs by URI. */
  method GroupByUri(t: Table, d: Dimension, nfts: seq<nat>) returns (groups: map<nat, seq<nat>>)
    requires InTable(t, nfts)
    ensures forall uri: nat :: (uri in groups <==> WithUri(t, d, uri, nfts) != [])
    ensures forall uri: nat :: uri in groups ==> groups[uri] == WithUri(t, d, uri, nfts)
  {
    groups := map[];
    for k := 0 to |nfts|
      invariant forall uri: nat :: (uri in groups <==> WithUri(t, d, uri, nfts[..k]) != [])
      invariant forall uri: nat :: uri in groups ==> groups[uri] == WithUri(t, d, uri, nfts[..k])
    {
      assert nfts[..k + 1][..k] == nfts[..k];
      var uri := t.nfts[nfts[k]].Uri(d);
      if uri.Some? {
        groups := groups[uri.value := (if uri.value in groups then groups[uri.value] else []) + [nfts[k]]];
      }
    }
    assert nfts[..|nfts|] == nfts;
  }

  /** The drained groups, sorted by URI. */
  method BuildQueries(t: Table, seed: nat, d: Dimension) returns (qs: seq<Query>)
    requires Seeded(t, seed)
    ensures Queries(t, seed, d, qs) && AllQueries(t, seed, d, qs)
  {
    ContractNftsFit(t, seed, |t.nfts|);
    hide SeedNfts, ContractNfts, WithUri, Queries;
    var groups := GroupByUri(t, d, ContractNfts(t, seed, |t.nfts|));
    forall uri: nat ensures WithUri(t, d, uri, ContractNfts(t, seed, |t.nfts|)) == SeedNfts(t, seed, d, uri, |t.nfts|) {
      WithUriIs(t, seed, d, uri, |t.nfts|);
    }
    var uris := Collect(groups.Keys);
    SortSet(uris);
    var sorted := Sort(NatLeq, uris);
    assert forall i :: 0 <= i < |sorted| ==> sorted[i] in sorted;
    qs := seq(|sorted|, i requires 0 <= i < |sorted| => (sorted[i], groups[sorted[i]]));
    SortedQueries(t, seed, d, groups, sorted, qs);
  }

  lemma SortedQueries(t: Table, seed: nat, d: Dimension, groups: map<nat, seq<nat>>, sorted: seq<nat>, qs: seq<Query>)
    requires Increasing(sorted) && (forall uri :: uri in sorted <==> uri in groups) && |qs| == |sorted|
    requires forall i :: 0 <= i < |sorted| ==> sorted[i] in groups && qs[i] == (sorted[i], groups[sorted[i]])
    requires forall uri: nat :: uri in groups <==> SeedNfts(t, seed, d, uri, |t.nfts|) != []
    requires forall uri: nat :: uri in groups ==> groups[uri] == SeedNfts(t, seed, d, uri, |t.nfts|)
    ensures Queries(t, seed, d, qs) && AllQueries(t, seed, d, qs)
  {
    hide SeedNfts;
    forall uri: nat | SeedUri(t, seed, d, uri) ensures Asked(qs, uri) {
      HasSeedNft(t, seed, d, uri);
      assert uri in sorted;
      var i :| 0 <= i < |sorted| && sorted[i] == uri;
      assert qs[i].0 == uri;
    }
  }

  lemma HasSeedNft(t: Table, seed: nat, d: Dimension, uri: nat)
    requires SeedUri(t, seed, d, uri)
    ensures SeedNfts(t, seed, d, uri, |t.nfts|) != []
  {
    SeedNftsMean(t, seed, d, uri, |t.nfts|);
    var s: nat :| Shares(t, d, uri, s) && t.nfts[s].contract == seed;
    assert s in SeedNfts(t, seed, d, uri, |t.nfts|);
  }

  // ----- what the edges say

  ghost predicate EdgedBy(t: Table, seed: nat, d: Dimension, q: Query, scopes: HitScopes, candidates: HitCandidates, n: nat)
    requires Seeded(t, seed)
  {
    Edged(t, seed, d, q.0, SkipOf(scopes, q.1), candidates, n)
  }

  /** Each NFT that one of the queries hits gets one edge. */
  lemma {:induction false} QueryEdgesMean(t: Table, seed: nat, d: Dimension, qs: seq<Query>, scopes: HitScopes, candidates: HitCandidates)
    requires Seeded(t, seed) && forall i, j :: 0 <= i < j < |qs| ==> qs[i].0 != qs[j].0
    ensures Distinct(QueryEdges(t, seed, d, qs, scopes, candidates))
    ensures forall e :: e in QueryEdges(t, seed, d, qs, scopes, candidates) <==>
              exists i, n: nat :: 0 <= i < |qs| && EdgedBy(t, seed, d, qs[i], scopes, candidates, n) && e == EdgeTo(t, seed, d, n)
  {
    hide UriEdges, SkipOf, Edged, EdgeTo;
    if qs != [] {
      var init, q := qs[..|qs| - 1], qs[|qs| - 1];
      QueryEdgesMean(t, seed, d, init, scopes, candidates);
      UriEdgesMean(t, seed, d, q.0, SkipOf(scopes, q.1), candidates);
      var a := QueryEdges(t, seed, d, init, scopes, candidates);
      var b := UriEdges(t, seed, d, q.0, SkipOf(scopes, q.1), candidates);
      forall e ensures !(e in a && e in b) {
        EdgesApart(t, seed, d, qs, scopes, candidates, e);
      }
      JoinDistinct(a, b);
      assert qs == init + [q];
    }
  }

  /** An edge tells its NFT, and the NFT its URI. */
  lemma EdgesApart(t: Table, seed: nat, d: Dimension, qs: seq<Query>, scopes: HitScopes, candidates: HitCandidates, e: HitEdge)
    requires Seeded(t, seed) && qs != [] && forall i, j :: 0 <= i < j < |qs| ==> qs[i].0 != qs[j].0
    ensures !((exists i, n: nat :: 0 <= i < |qs| - 1 && EdgedBy(t, seed, d, qs[i], scopes, candidates, n) && e == EdgeTo(t, seed, d, n))
              && (exists n: nat :: EdgedBy(t, seed, d, qs[|qs| - 1], scopes, candidates, n) && e == EdgeTo(t, seed, d, n)))
  {}

  /** An NFT is hit by this dimension in the scope of its chain. */
  ghost predicate Hits(t: Table, seed: nat, d: Dimension, n: nat)
    requires Seeded(t, seed)
  {
    && n < |t.nfts|
    && if d == TokenUri then TokenHit(t, seed, ScopeOf(t.chainOf[seed], Chain(t, n)), n)
       else ImageHit(t, seed, ScopeOf(t.chainOf[seed], Chain(t, n)), n)
  }

  lemma TokenEdgedBy(t: Table, seed: nat, qs: seq<Query>, n: nat)
    requires Seeded(t, seed) && Queries(t, seed, TokenUri, qs)
    ensures (exists i :: 0 <= i < |qs| && EdgedBy(t, seed, TokenUri, qs[i], map[], map[], n)) <==> Hits(t, seed, TokenUri, n)
  {
    hide SeedNfts;
    if i :| 0 <= i < |qs| && EdgedBy(t, seed, TokenUri, qs[i], map[], map[], n) {
      AskedIsSeedUri(t, seed, TokenUri, qs, i);
      assert Candidate(t, seed, TokenUri, qs[i].0, ScopeOf(t.chainOf[seed], Chain(t, n)), n);
    }
    if Hits(t, seed, TokenUri, n) {
      var uri: nat :| SeedUri(t, seed, TokenUri, uri) && Candidate(t, seed, TokenUri, uri, ScopeOf(t.chainOf[seed], Chain(t, n)), n);
      assert Asked(qs, uri);
      var i :| 0 <= i < |qs| && qs[i].0 == uri;
      SkipNothing(qs[i].1);
      assert EdgedBy(t, seed, TokenUri, qs[i], map[], map[], n);
    }
  }

  lemma SkipMeans(t: Table, seed: nat, q: Query, scopes: HitScopes, scope: UriScope)
    requires Seeded(t, seed) && q.1 != [] && forall s: nat :: scope in ScopesOf(scopes, s) <==> Matched(t, seed, scope, s)
    requires forall s :: s in q.1 <==> 0 <= s && Shares(t, ImageUri, q.0, s) && t.nfts[s].contract == seed
    ensures scope !in SkipOf(scopes, q.1) <==> ImageCounts(t, seed, q.0, scope)
  {}

  lemma ImageEdgedBy(t: Table, seed: nat, tokens: seq<Query>, qs: seq<Query>, scopes: HitScopes, candidates: HitCandidates, n: nat)
    requires Seeded(t, seed) && Queries(t, seed, TokenUri, tokens) && Queries(t, seed, ImageUri, qs)
    requires Records(t, seed, tokens, scopes, candidates)
    ensures (exists i :: 0 <= i < |qs| && EdgedBy(t, seed, ImageUri, qs[i], scopes, candidates, n)) <==> Hits(t, seed, ImageUri, n)
  {
    hide SeedNfts, Records, SkipOf, Excluded, ScopesOf, TokenHit, Matched, ImageCounts;
    RecordsMean(t, seed, tokens, scopes, candidates);
    if i :| 0 <= i < |qs| && EdgedBy(t, seed, ImageUri, qs[i], scopes, candidates, n) {
      AskedIsSeedUri(t, seed, ImageUri, qs, i);
      var scope := ScopeOf(t.chainOf[seed], Chain(t, n));
      SkipMeans(t, seed, qs[i], scopes, scope);
      assert Candidate(t, seed, ImageUri, qs[i].0, scope, n);
    }
    if Hits(t, seed, ImageUri, n) {
      var scope := ScopeOf(t.chainOf[seed], Chain(t, n));
      var uri: nat :| ImageCounts(t, seed, uri, scope) && Candidate(t, seed, ImageUri, uri, scope, n);
      CountsIsSeedUri(t, seed, uri, scope);
      assert Asked(qs, uri);
      var i :| 0 <= i < |qs| && qs[i].0 == uri;
      AskedIsSeedUri(t, seed, ImageUri, qs, i);
      SkipMeans(t, seed, qs[i], scopes, scope);
      assert EdgedBy(t, seed, ImageUri, qs[i], scopes, candidates, n);
    }
  }

  lemma CountsIsSeedUri(t: Table, seed: nat, uri: nat, scope: UriScope)
    requires Seeded(t, seed) && ImageCounts(t, seed, uri, scope)
    ensures SeedUri(t, seed, ImageUri, uri)
  {}

  /** These are the edges of a seed: its token queries', then its image queries'. */
  ghost predicate SeedEdges(t: Table, seed: nat, edges: seq<HitEdge>)
    requires Seeded(t, seed)
  {
    exists tokens, images, scopes, candidates :: EdgesFrom(t, seed, tokens, images, scopes, candidates, edges)
  }

  ghost predicate EdgesFrom(t: Table, seed: nat, tokens: seq<Query>, images: seq<Query>, scopes: HitScopes,
                            candidates: HitCandidates, edges: seq<HitEdge>)
    requires Seeded(t, seed)
  {
    && Queries(t, seed, TokenUri, tokens) && Queries(t, seed, ImageUri, images)
    && Records(t, seed, tokens, scopes, candidates)
    && edges == QueryEdges(t, seed, TokenUri, tokens, map[], map[]) + QueryEdges(t, seed, ImageUri, images, scopes, candidates)
  }

  /** The edge of a hit. */
  ghost predicate HitEdgeOf(t: Table, seed: nat, d: Dimension, n: nat, e: HitEdge)
    requires Seeded(t, seed)
  {
    Hits(t, seed, d, n) && e == EdgeTo(t, seed, d, n)
  }

  lemma EdgesMeanOne(t: Table, seed: nat, d: Dimension, qs: seq<Query>, scopes: HitScopes, candidates: HitCandidates)
    requires Seeded(t, seed) && Queries(t, seed, d, qs)
    requires forall n: nat :: (exists i :: 0 <= i < |qs| && EdgedBy(t, seed, d, qs[i], scopes, candidates, n)) <==> Hits(t, seed, d, n)
    ensures Distinct(QueryEdges(t, seed, d, qs, scopes, candidates))
    ensures forall e :: e in QueryEdges(t, seed, d, qs, scopes, candidates) <==> exists n: nat :: HitEdgeOf(t, seed, d, n, e)
  {
    QueryEdgesMean(t, seed, d, qs, scopes, candidates);
    forall e
      ensures e in QueryEdges(t, seed, d, qs, scopes, candidates) <==> exists n: nat :: HitEdgeOf(t, seed, d, n, e)
    {
      hide TokenHit, ImageHit, EdgedBy, QueryEdges;
      if e in QueryEdges(t, seed, d, qs, scopes, candidates) {
        var i, n: nat :| 0 <= i < |qs| && EdgedBy(t, seed, d, qs[i], scopes, candidates, n) && e == EdgeTo(t, seed, d, n);
        assert HitEdgeOf(t, seed, d, n, e);
      }
      if n: nat :| HitEdgeOf(t, seed, d, n, e) {
        var i :| 0 <= i < |qs| && EdgedBy(t, seed, d, qs[i], scopes, candidates, n);
      }
    }
  }

  /** Exactly one TokenUri edge for each token hit, exactly one ImageUri edge for each image
      hit, and no other edges. */
  lemma SeedEdgesMean(t: Table, seed: nat, edges: seq<HitEdge>)
    requires Seeded(t, seed) && SeedEdges(t, seed, edges)
    ensures Distinct(edges)
    ensures forall e :: e in edges <==> exists d, n: nat :: HitEdgeOf(t, seed, d, n, e)
  {
    hide Hits, EdgedBy, QueryEdges, Records, Queries, HitEdgeOf;
    var tokens, images, scopes, candidates :| EdgesFrom(t, seed, tokens, images, scopes, candidates, edges);
    forall n: nat
      ensures (exists i :: 0 <= i < |tokens| && EdgedBy(t, seed, TokenUri, tokens[i], map[], map[], n)) <==> Hits(t, seed, TokenUri, n)
      ensures (exists i :: 0 <= i < |images| && EdgedBy(t, seed, ImageUri, images[i], scopes, candidates, n)) <==> Hits(t, seed, ImageUri, n)
    {
      TokenEdgedBy(t, seed, tokens, n);
      ImageEdgedBy(t, seed, tokens, images, scopes, candidates, n);
    }
    EdgesMeanOne(t, seed, TokenUri, tokens, map[], map[]);
    EdgesMeanOne(t, seed, ImageUri, images, scopes, candidates);
    var a, b := QueryEdges(t, seed, TokenUri, tokens, map[], map[]), QueryEdges(t, seed, ImageUri, images, scopes, candidates);
    forall e ensures !(e in a && e in b) {
      DimensionsApart(t, seed, e);
    }
    JoinDistinct(a, b);
    forall e ensures e in edges <==> exists d, n: nat :: HitEdgeOf(t, seed, d, n, e) {
      if d, n: nat :| HitEdgeOf(t, seed, d, n, e) {
        match d
        case TokenUri => assert e in a;
        case ImageUri => assert e in b;
      }
    }
  }

  lemma DimensionsApart(t: Table, seed: nat, e: HitEdge)
    requires Seeded(t, seed)
    ensures !((exists n: nat :: HitEdgeOf(t, seed, TokenUri, n, e)) && exists n: nat :: HitEdgeOf(t, seed, ImageUri, n, e))
  {}

  // ----- the edges on the fields of the NFTs

  /** An NFT of another contract shares a token URI with an NFT of the seed. */
  ghost predicate SharesToken(t: Table, seed: nat, s: nat, n: nat) {
    && s < |t.nfts| && t.nfts[s].contract == seed && n < |t.nfts| && t.nfts[n].contract != seed
    && t.nfts[s].tokenUri.Some? && t.nfts[s].tokenUri == t.nfts[n].tokenUri
  }

  ghost predicate HitByToken(t: Table, seed: nat, n: nat) {
    exists s: nat :: SharesToken(t, seed, s, n)
  }

  /** A seed NFT shares its token URI with some NFT on this chain. */
  ghost predicate TokenMatchOn(t: Table, seed: nat, chain: nat, s: nat)
    requires WellFormed(t)
  {
    exists n: nat :: SharesToken(t, seed, s, n) && t.chainOf[t.nfts[n].contract] == chain
  }

  /** An NFT that no token URI hits shares its image URI with a seed NFT that has no token
      match on its chain. */
  ghost predicate HitByImage(t: Table, seed: nat, n: nat)
    requires WellFormed(t)
  {
    && n < |t.nfts| && t.nfts[n].contract != seed && t.nfts[n].imageUri.Some? && !HitByToken(t, seed, n)
    && exists s: nat :: s < |t.nfts| && t.nfts[s].contract == seed && t.nfts[s].imageUri == t.nfts[n].imageUri
                        && !TokenMatchOn(t, seed, t.chainOf[t.nfts[n].contract], s)
  }

  /** The edge leads from the seed, on its chain, to an NFT of another contract, on its chain,
      and says by which URI it was hit. */
  ghost predicate SeedEdge(t: Table, seed: nat, e: HitEdge)
    requires Seeded(t, seed)
  {
    && e.seed == seed && e.primary == t.chainOf[seed] && e.nft.Some? && e.nft.value < |t.nfts|
    && e.candidate == t.nfts[e.nft.value].contract && e.secondary == t.chainOf[t.nfts[e.nft.value].contract]
    && match e.dimension
       case TokenUriHit => HitByToken(t, seed, e.nft.value)
       case ImageUriHit => HitByImage(t, seed, e.nft.value)
       case NameHit => false
       case MetadataHit => false
  }

  lemma TokenHitOnFields(t: Table, seed: nat, n: nat)
    requires Seeded(t, seed) && n < |t.nfts|
    ensures TokenHit(t, seed, ScopeOf(t.chainOf[seed], Chain(t, n)), n) <==> HitByToken(t, seed, n)
  {
    var scope := ScopeOf(t.chainOf[seed], Chain(t, n));
    if TokenHit(t, seed, scope, n) {
      var uri: nat :| SeedUri(t, seed, TokenUri, uri) && Candidate(t, seed, TokenUri, uri, scope, n);
      var s: nat :| Shares(t, TokenUri, uri, s) && t.nfts[s].contract == seed;
      assert SharesToken(t, seed, s, n);
    }
    if HitByToken(t, seed, n) {
      var s: nat :| SharesToken(t, seed, s, n);
      var uri := t.nfts[s].tokenUri.value;
      assert Shares(t, TokenUri, uri, s) && SeedUri(t, seed, TokenUri, uri) && Candidate(t, seed, TokenUri, uri, scope, n);
    }
  }

  lemma MatchOnFields(t: Table, seed: nat, chain: nat, s: nat)
    requires Seeded(t, seed)
    ensures Matched(t, seed, ScopeOf(t.chainOf[seed], chain), s) <==> TokenMatchOn(t, seed, chain, s)
  {
    var scope := ScopeOf(t.chainOf[seed], chain);
    if Matched(t, seed, scope, s) {
      var uri: nat, n: nat :| Shares(t, TokenUri, uri, s) && t.nfts[s].contract == seed && Candidate(t, seed, TokenUri, uri, scope, n);
      assert SharesToken(t, seed, s, n) && t.chainOf[t.nfts[n].contract] == chain;
    }
    if TokenMatchOn(t, seed, chain, s) {
      var n: nat :| SharesToken(t, seed, s, n) && t.chainOf[t.nfts[n].contract] == chain;
      var uri := t.nfts[s].tokenUri.value;
      assert Shares(t, TokenUri, uri, s) && Candidate(t, seed, TokenUri, uri, scope, n);
    }
  }

  lemma ImageHitOnFields(t: Table, seed: nat, n: nat)
    requires Seeded(t, seed) && n < |t.nfts|
    ensures ImageHit(t, seed, ScopeOf(t.chainOf[seed], Chain(t, n)), n) <==> HitByImage(t, seed, n)
  {
    var chain := t.chainOf[t.nfts[n].contract];
    var scope := ScopeOf(t.chainOf[seed], chain);
    TokenHitOnFields(t, seed, n);
    forall s: nat ensures Matched(t, seed, scope, s) <==> TokenMatchOn(t, seed, chain, s) {
      MatchOnFields(t, seed, chain, s);
    }
    hide TokenHit, HitByToken, Matched, TokenMatchOn;
    if ImageHit(t, seed, scope, n) {
      var uri: nat :| ImageCounts(t, seed, uri, scope) && Candidate(t, seed, ImageUri, uri, scope, n);
      var s: nat :| Shares(t, ImageUri, uri, s) && t.nfts[s].contract == seed && !Matched(t, seed, scope, s);
    }
    if HitByImage(t, seed, n) {
      var s: nat :| s < |t.nfts| && t.nfts[s].contract == seed && t.nfts[s].imageUri == t.nfts[n].imageUri
                    && !TokenMatchOn(t, seed, chain, s);
      var uri := t.nfts[n].imageUri.value;
      assert Shares(t, ImageUri, uri, s) && ImageCounts(t, seed, uri, scope) && Candidate(t, seed, ImageUri, uri, scope, n);
    }
  }

  /** Every edge once, and exactly these. */
  lemma SeedEdgesOnFields(t: Table, seed: nat, edges: seq<HitEdge>)
    requires Seeded(t, seed) && SeedEdges(t, seed, edges)
    ensures Distinct(edges) && forall e :: e in edges <==> SeedEdge(t, seed, e)
  {
    SeedEdgesMean(t, seed, edges);
    hide SeedEdges, TokenHit, ImageHit, HitByToken, HitByImage;
    forall e ensures e in edges <==> SeedEdge(t, seed, e) {
      if d, n: nat :| HitEdgeOf(t, seed, d, n, e) {
        TokenHitOnFields(t, seed, n);
        ImageHitOnFields(t, seed, n);
      }
      if SeedEdge(t, seed, e) {
        TokenHitOnFields(t, seed, e.nft.value);
        ImageHitOnFields(t, seed, e.nft.value);
        assert HitEdgeOf(t, seed, if e.dimension == TokenUriHit then TokenUri else ImageUri, e.nft.value, e);
      }
    }
  }

  // ----- the same list, however it is computed

  lemma {:induction false} SamePeerEdges(t: Table, seed: nat, d: Dimension, uri: nat, k: nat, skip: set<UriScope>, a: HitCandidates, b: HitCandidates)
    requires Seeded(t, seed) && k <= t.chainCount && forall scope :: Excluded(a, scope) == Excluded(b, scope)
    ensures PeerEdges(t, seed, d, uri, k, skip, a) == PeerEdges(t, seed, d, uri, k, skip, b)
  {
    hide ListEdges, Listing;
    if k > 0 {
      SamePeerEdges(t, seed, d, uri, k - 1, skip, a, b);
      assert ChainEdges(t, seed, d, uri, k - 1, skip, a) == ChainEdges(t, seed, d, uri, k - 1, skip, b);
    }
  }

  lemma {:induction false} SameQueryEdges(t: Table, seed: nat, d: Dimension, qs: seq<Query>, s: HitScopes, a: HitCandidates, s': HitScopes,
                       b: HitCandidates)
    requires Seeded(t, seed) && (forall scope :: Excluded(a, scope) == Excluded(b, scope))
    requires forall n :: ScopesOf(s, n) == ScopesOf(s', n)
    ensures QueryEdges(t, seed, d, qs, s, a) == QueryEdges(t, seed, d, qs, s', b)
  {
    hide PeerEdges, ListEdges, Listing, ScopesOf, Excluded;
    if qs != [] {
      SameQueryEdges(t, seed, d, qs[..|qs| - 1], s, a, s', b);
      var q := qs[|qs| - 1];
      assert SkipOf(s, q.1) == SkipOf(s', q.1);
      SamePeerEdges(t, seed, d, q.0, t.chainCount, SkipOf(s, q.1), a, b);
    }
  }

  lemma SameRecords(t: Table, seed: nat, qs: seq<Query>, s: HitScopes, a: HitCandidates, s': HitScopes, b: HitCandidates)
    requires Seeded(t, seed) && Records(t, seed, qs, s, a) && Records(t, seed, qs, s', b)
    ensures forall scope :: Excluded(a, scope) == Excluded(b, scope)
    ensures forall n :: ScopesOf(s, n) == ScopesOf(s', n)
  {}

  /** However a seed is queried, the edge list is the same. */
  lemma SeedEdgesUnique(t: Table, seed: nat, x: seq<HitEdge>, y: seq<HitEdge>)
    requires Seeded(t, seed) && SeedEdges(t, seed, x) && SeedEdges(t, seed, y)
    ensures x == y
  {
    hide Queries, Records, QueryEdges;
    var tokens, images, scopes, candidates :| EdgesFrom(t, seed, tokens, images, scopes, candidates, x);
    var tokens', images', scopes', candidates' :| EdgesFrom(t, seed, tokens', images', scopes', candidates', y);
    SameList(t, seed, TokenUri, tokens, tokens');
    SameList(t, seed, ImageUri, images, images');
    SameRecords(t, seed, tokens, scopes, candidates, scopes', candidates');
    SameQueryEdges(t, seed, ImageUri, images, scopes, candidates, scopes', candidates');
  }

  lemma SameList(t: Table, seed: nat, d: Dimension, a: seq<Query>, b: seq<Query>)
    requires Queries(t, seed, d, a) && Queries(t, seed, d, b)
    ensures a == b
  {
    hide Queries;
    SameQueries(t, seed, d, a, b, |a|);
    SameQueries(t, seed, d, b, a, |b|);
    assert a[..|a|] == a && b[..|b|] == b;
  }

  lemma FairRecords(t: Table, seed: nat, qs: seq<Query>, scopes: HitScopes, candidates: HitCandidates)
    requires Seeded(t, seed) && Records(t, seed, qs, scopes, candidates)
    ensures Fair(t, seed, candidates)
  {}

  /** `query_uri_for_seed`, alone or on many threads; an unknown seed is an error. */
  method QueryUriForSeed(t: Table, seed: nat, graph: HitGraph, parallel: bool) returns (ok: bool)
    requires WellFormed(t)
    modifies graph
    ensures ok <==> seed < |t.chainOf|
    ensures !ok ==> graph.edges == old(graph.edges)
    ensures ok ==> old(graph.edges) <= graph.edges && SeedEdges(t, seed, graph.edges[|old(graph.edges)|..])
    ensures ok ==>
              && Distinct(graph.edges[|old(graph.edges)|..])
              && forall e :: e in graph.edges[|old(graph.edges)|..] <==> SeedEdge(t, seed, e)
  {
    if seed >= |t.chainOf| {
      return false;
    }
    hide Queries, Records, QueryEdges, Fair, SeedEdges, SeedEdge, WellFormed;
    var scratch := new UriQueryScratch();
    ghost var tokens := QueryTokens(t, seed, graph, parallel, scratch);
    FairRecords(t, seed, tokens, scratch.scopes, scratch.candidates);
    ghost var images := QueryImages(t, seed, graph, parallel, scratch.scopes, scratch.candidates);
    HasSeedEdges(t, seed, tokens, images, scratch.scopes, scratch.candidates, old(graph.edges), graph.edges);
    SeedEdgesOnFields(t, seed, graph.edges[|old(graph.edges)|..]);
    return true;
  }

  method QueryTokens(t: Table, seed: nat, graph: HitGraph, parallel: bool, scratch: UriQueryScratch) returns (ghost tokens: seq<Query>)
    requires Seeded(t, seed) && scratch.scopes == map[] && scratch.candidates == map[]
    modifies graph, scratch
    ensures Queries(t, seed, TokenUri, tokens) && Records(t, seed, tokens, scratch.scopes, scratch.candidates)
    ensures graph.edges == old(graph.edges) + QueryEdges(t, seed, TokenUri, tokens, map[], map[])
  {
    hide Queries, Records, QueryEdges, AllQueries;
    var queries := BuildQueries(t, seed, TokenUri);
    if |queries| > PARALLEL_URI_QUERY_CHUNK && parallel {
      TokenQueriesInChunks(t, seed, queries, graph, scratch);
    } else {
      TokenQueries(t, seed, queries, graph, scratch);
    }
    tokens := queries;
  }

  method QueryImages(t: Table, seed: nat, graph: HitGraph, parallel: bool, scopes: HitScopes, candidates: HitCandidates)
    returns (ghost images: seq<Query>)
    requires Seeded(t, seed) && Fair(t, seed, candidates)
    modifies graph
    ensures Queries(t, seed, ImageUri, images)
    ensures graph.edges == old(graph.edges) + QueryEdges(t, seed, ImageUri, images, scopes, candidates)
  {
    hide Queries, QueryEdges, AllQueries, Fair;
    var queries := BuildQueries(t, seed, ImageUri);
    if |queries| > PARALLEL_URI_QUERY_CHUNK && parallel {
      ImageQueriesInChunks(t, seed, queries, scopes, candidates, graph);
    } else {
      ImageQueries(t, seed, queries, scopes, candidates, graph);
    }
    images := queries;
  }

  lemma HasSeedEdges(t: Table, seed: nat, tokens: seq<Query>, images: seq<Query>, scopes: HitScopes, candidates: HitCandidates,
                     was: seq<HitEdge>, now: seq<HitEdge>)
    requires Seeded(t, seed) && Queries(t, seed, TokenUri, tokens) && Queries(t, seed, ImageUri, images)
    requires Records(t, seed, tokens, scopes, candidates)
    requires now == was + QueryEdges(t, seed, TokenUri, tokens, map[], map[])
                    + QueryEdges(t, seed, ImageUri, images, scopes, candidates)
    ensures was <= now && SeedEdges(t, seed, now[|was|..])
  {
    hide Queries, Records, QueryEdges;
    assert EdgesFrom(t, seed, tokens, images, scopes, candidates, now[|was|..]);
  }

  // ----- reading the graph

  datatype ScopeKind = IntraChain | ChainMatrix | CrossChainSummary

  /** `edge_in_scope` */
  predicate EdgeInScope(e: HitEdge, kind: ScopeKind, primary: nat, secondary: Option<nat>) {
    && e.primary == primary
    && match kind
       case IntraChain => e.secondary == primary
       case ChainMatrix => secondary == Some(e.secondary) && e.secondary != primary
       case CrossChainSummary => e.secondary != primary
  }

  /** The edge is one of the seed, of this dimension, and stays on the chain, goes to the one
      other chain, or goes to any other. */
  ghost predicate Reaches(e: HitEdge, seed: nat, d: HitDimension, kind: ScopeKind, primary: nat, secondary: Option<nat>) {
    && e.seed == seed && e.dimension == d && e.primary == primary
    && (kind.IntraChain? ==> e.secondary == primary)
    && (kind.ChainMatrix? ==> secondary.Some? && e.secondary == secondary.value && secondary.value != primary)
    && (kind.CrossChainSummary? ==> e.secondary != primary)
  }

  /** The NFTs that edges of a dimension reach in a scope. */
  ghost function Reached(edges: seq<HitEdge>, seed: nat, d: HitDimension, kind: ScopeKind, primary: nat, secondary: Option<nat>,
                         contractNfts: ContractNfts): set<nat> {
    set e, n | e in edges && Reaches(e, seed, d, kind, primary, secondary) && n in ExpandEdgeNfts(e, contractNfts) :: n
  }

  /** An edge leads to its NFT, or to all NFTs of its contract. */
  ghost predicate LeadsTo(e: HitEdge, contractNfts: ContractNfts, n: nat) {
    e.nft == Some(n) || (e.nft.None? && e.candidate in contractNfts && n in contractNfts[e.candidate])
  }

  ghost predicate ReachedBy(edges: seq<HitEdge>, seed: nat, d: HitDimension, kind: ScopeKind, primary: nat, secondary: Option<nat>,
                            contractNfts: ContractNfts, n: nat) {
    exists e :: e in edges && Reaches(e, seed, d, kind, primary, secondary) && LeadsTo(e, contractNfts, n)
  }

  lemma ReachedMeans(edges: seq<HitEdge>, seed: nat, d: HitDimension, kind: ScopeKind, primary: nat, secondary: Option<nat>,
                     contractNfts: ContractNfts)
    ensures forall n :: n in Reached(edges, seed, d, kind, primary, secondary, contractNfts)
                        <==> n >= 0 && ReachedBy(edges, seed, d, kind, primary, secondary, contractNfts, n)
  {
    hide Reaches;
    forall e, n ensures n in ExpandEdgeNfts(e, contractNfts) <==> n >= 0 && LeadsTo(e, contractNfts, n) {
    }
  }

  lemma ReachedNext(edges: seq<HitEdge>, e: HitEdge, seed: nat, d: HitDimension, kind: ScopeKind, primary: nat,
                    secondary: Option<nat>, contractNfts: ContractNfts)
    ensures Reached(edges + [e], seed, d, kind, primary, secondary, contractNfts) ==
            Reached(edges, seed, d, kind, primary, secondary, contractNfts)
            + if Reaches(e, seed, d, kind, primary, secondary) then set n | n in ExpandEdgeNfts(e, contractNfts) else {}
  {}

  /** `dimension_candidate_nfts`: image hits without the token hits of the scope. */
  method DimensionCandidateNfts(graph: HitGraph, seed: nat, d: HitDimension, kind: ScopeKind, primary: nat, secondary: Option<nat>,
                                contractNfts: ContractNfts)
    returns (out: set<nat>)
    ensures out == Reached(graph.edges, seed, d, kind, primary, secondary, contractNfts)
                   - if d == ImageUriHit then Reached(graph.edges, seed, TokenUriHit, kind, primary, secondary, contractNfts) else {}
    ensures forall n :: n in out <==>
              && n >= 0 && ReachedBy(graph.edges, seed, d, kind, primary, secondary, contractNfts, n)
              && (d == ImageUriHit ==> !ReachedBy(graph.edges, seed, TokenUriHit, kind, primary, secondary, contractNfts, n))
    decreases d == ImageUriHit
  {
    ReachedMeans(graph.edges, seed, d, kind, primary, secondary, contractNfts);
    ReachedMeans(graph.edges, seed, TokenUriHit, kind, primary, secondary, contractNfts);
    hide Reached, ReachedBy;
    out := {};
    NothingReached(seed, d, kind, primary, secondary, contractNfts);
    for k := 0 to |graph.edges|
      invariant out == Reached(graph.edges[..k], seed, d, kind, primary, secondary, contractNfts)
    {
      var e := graph.edges[k];
      assert graph.edges[..k + 1] == graph.edges[..k] + [e];
      ReachedNext(graph.edges[..k], e, seed, d, kind, primary, secondary, contractNfts);
      if e.seed == seed && e.dimension == d && EdgeInScope(e, kind, primary, secondary) {
        out := out + set n | n in ExpandEdgeNfts(e, contractNfts);
      }
    }
    assert graph.edges[..|graph.edges|] == graph.edges;
    if d == ImageUriHit {
      var token := DimensionCandidateNfts(graph, seed, TokenUriHit, kind, primary, secondary, contractNfts);
      out := out - token;
    }
  }

  lemma NothingReached(seed: nat, d: HitDimension, kind: ScopeKind, primary: nat, secondary: Option<nat>,
                       contractNfts: ContractNfts)
    ensures Reached([], seed, d, kind, primary, secondary, contractNfts) == {}
  {}

  /** On the edges of a seed there is nothing to take away. */
  lemma SubtractionIsNoOp(t: Table, seed: nat, edges: seq<HitEdge>, kind: ScopeKind, primary: nat, secondary: Option<nat>,
                          contractNfts: ContractNfts)
    requires Seeded(t, seed) && SeedEdges(t, seed, edges)
    ensures Reached(edges, seed, ImageUriHit, kind, primary, secondary, contractNfts)
            !! Reached(edges, seed, TokenUriHit, kind, primary, secondary, contractNfts)
  {
    SeedEdgesMean(t, seed, edges);
    hide SeedEdges, HitEdgeOf, Hits, Reached;
    forall n: nat
      ensures !(n in Reached(edges, seed, ImageUriHit, kind, primary, secondary, contractNfts)
                && n in Reached(edges, seed, TokenUriHit, kind, primary, secondary, contractNfts))
    {
      NotBoth(t, seed, n);
      ReachedHits(t, seed, edges, ImageUri, kind, primary, secondary, contractNfts, n);
      ReachedHits(t, seed, edges, TokenUri, kind, primary, secondary, contractNfts, n);
    }
  }

  lemma NotBoth(t: Table, seed: nat, n: nat)
    requires Seeded(t, seed)
    ensures !(Hits(t, seed, TokenUri, n) && Hits(t, seed, ImageUri, n))
  {}

  lemma ReachedHits(t: Table, seed: nat, edges: seq<HitEdge>, d: Dimension, kind: ScopeKind, primary: nat, secondary: Option<nat>,
                    contractNfts: ContractNfts, n: nat)
    requires Seeded(t, seed) && forall e :: e in edges ==> exists d, m: nat :: HitEdgeOf(t, seed, d, m, e)
    ensures n in Reached(edges, seed, HitDimensionOf(d), kind, primary, secondary, contractNfts) ==> Hits(t, seed, d, n)
  {}
}
