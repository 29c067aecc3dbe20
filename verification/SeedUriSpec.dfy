/** The URI hits of one seed contract: the edges that are looked for, and the lists they are
    read from. */
module SeedUriSpec {
  import opened Wrappers
  import opened Sorting
  import opened UriSpec

  datatype HitDimension = NameHit | TokenUriHit | ImageUriHit | MetadataHit

  datatype HitEdge = HitEdge(seed: nat, candidate: nat, nft: Option<nat>, dimension: HitDimension,
                             primary: nat, secondary: nat)

  /** The NFTs of each contract. */
  type ContractNfts = map<nat, seq<nat>>

  function ListOf(contractNfts: ContractNfts, contract: nat): seq<nat> {
    if contract in contractNfts then contractNfts[contract] else []
  }

  /** `expand_edge_nfts` */
  function ExpandEdgeNfts(e: HitEdge, contractNfts: ContractNfts): seq<nat> {
    match e.nft
    case Some(n) => [n]
    case None => ListOf(contractNfts, e.candidate)
  }

  datatype UriScope = Intra | Cross(peer: nat)

  function HitDimensionOf(d: Dimension): HitDimension {
    if d == TokenUri then TokenUriHit else ImageUriHit
  }

  /** The scope in which NFTs of a chain are hit. */
  function ScopeOf(seedChain: nat, chain: nat): UriScope {
    if chain == seedChain then Intra else Cross(chain)
  }

  ghost predicate Seeded(t: Table, seed: nat) {
    WellFormed(t) && seed < |t.chainOf|
  }

  predicate Shares(t: Table, d: Dimension, uri: nat, n: nat) {
    n < |t.nfts| && t.nfts[n].Uri(d) == Some(uri)
  }

  /** An NFT of another contract has this URI, in this scope. */
  predicate Candidate(t: Table, seed: nat, d: Dimension, uri: nat, scope: UriScope, n: nat)
    requires WellFormed(t) && seed < |t.chainOf|
  {
    Shares(t, d, uri, n) && t.nfts[n].contract != seed && ScopeOf(t.chainOf[seed], Chain(t, n)) == scope
  }

  /** Some NFT of the seed has this URI. */
  ghost predicate SeedUri(t: Table, seed: nat, d: Dimension, uri: nat) {
    exists s: nat :: Shares(t, d, uri, s) && t.nfts[s].contract == seed
  }

  /** An NFT is hit by a token URI of the seed. */
  ghost predicate TokenHit(t: Table, seed: nat, scope: UriScope, n: nat)
    requires Seeded(t, seed)
  {
    exists uri: nat :: SeedUri(t, seed, TokenUri, uri) && Candidate(t, seed, TokenUri, uri, scope, n)
  }

  /** A seed NFT was matched by its token URI in a scope. */
  ghost predicate Matched(t: Table, seed: nat, scope: UriScope, s: nat)
    requires Seeded(t, seed)
  {
    exists uri: nat, n: nat ::
      Shares(t, TokenUri, uri, s) && t.nfts[s].contract == seed && Candidate(t, seed, TokenUri, uri, scope, n)
  }

  /** An image URI of the seed counts in a scope unless all seed NFTs that have it were
      matched there by token URI. */
  ghost predicate ImageCounts(t: Table, seed: nat, uri: nat, scope: UriScope)
    requires Seeded(t, seed)
  {
    exists s: nat :: Shares(t, ImageUri, uri, s) && t.nfts[s].contract == seed && !Matched(t, seed, scope, s)
  }

  ghost predicate ImageHit(t: Table, seed: nat, scope: UriScope, n: nat)
    requires Seeded(t, seed)
  {
    !TokenHit(t, seed, scope, n)
    && exists uri: nat :: ImageCounts(t, seed, uri, scope) && Candidate(t, seed, ImageUri, uri, scope, n)
  }

  function EdgeTo(t: Table, seed: nat, d: Dimension, n: nat): HitEdge
    requires WellFormed(t) && seed < |t.chainOf| && n < |t.nfts|
  {
    HitEdge(seed, t.nfts[n].contract, Some(n), HitDimensionOf(d), t.chainOf[seed], Chain(t, n))
  }

  // ----- what the CSR postings give

  /** The NFTs below `k` with a URI on a chain, in order of id. */
  function Listing(t: Table, d: Dimension, uri: nat, chain: nat, k: nat): seq<nat>
    requires WellFormed(t) && k <= |t.nfts|
  {
    if k == 0 then []
    else Listing(t, d, uri, chain, k - 1) + if Shares(t, d, uri, k - 1) && Chain(t, k - 1) == chain then [k - 1] else []
  }

  /** `fill_by_chain`: one list for each chain. */
  function FillByChain(t: Table, d: Dimension, uri: nat): seq<seq<nat>>
    requires WellFormed(t)
  {
    seq(t.chainCount, c requires 0 <= c < t.chainCount => Listing(t, d, uri, c, |t.nfts|))
  }

  predicate InTable(t: Table, list: seq<nat>) {
    forall i :: 0 <= i < |list| ==> list[i] < |t.nfts|
  }

  lemma {:induction false} ListingMeans(t: Table, d: Dimension, uri: nat, chain: nat, k: nat)
    requires WellFormed(t) && k <= |t.nfts|
    ensures Increasing(Listing(t, d, uri, chain, k)) && InTable(t, Listing(t, d, uri, chain, k))
    ensures forall n :: n in Listing(t, d, uri, chain, k) <==> 0 <= n < k && Shares(t, d, uri, n) && Chain(t, n) == chain
  {
    if k > 0 {
      ListingMeans(t, d, uri, chain, k - 1);
      var r := Listing(t, d, uri, chain, k - 1);
      assert forall i :: 0 <= i < |r| ==> r[i] in r;
    }
  }

  // ----- the edges of one URI

  /** The edges to the NFTs of a list that are neither the seed's nor excluded. */
  function ListEdges(t: Table, seed: nat, d: Dimension, list: seq<nat>, k: nat, excluded: set<nat>): seq<HitEdge>
    requires Seeded(t, seed) && k <= |list| && InTable(t, list)
  {
    if k == 0 then []
    else
      ListEdges(t, seed, d, list, k - 1, excluded) +
      if list[k - 1] !in excluded && t.nfts[list[k - 1]].contract != seed then [EdgeTo(t, seed, d, list[k - 1])] else []
  }

  lemma {:induction false} ListEdgesMean(t: Table, seed: nat, d: Dimension, list: seq<nat>, k: nat, excluded: set<nat>)
    requires Seeded(t, seed) && k <= |list| && InTable(t, list) && Increasing(list)
    ensures Distinct(ListEdges(t, seed, d, list, k, excluded))
    ensures forall e :: e in ListEdges(t, seed, d, list, k, excluded) <==>
              exists i :: 0 <= i < k && list[i] !in excluded && t.nfts[list[i]].contract != seed && e == EdgeTo(t, seed, d, list[i])
  {
    hide Chain;
    if k > 0 {
      ListEdgesMean(t, seed, d, list, k - 1, excluded);
      var r := ListEdges(t, seed, d, list, k - 1, excluded);
      assert forall i :: 0 <= i < |r| ==> r[i] in r;
    }
  }

  /** What is excluded from a scope. */
  function Excluded(excluded: map<UriScope, set<nat>>, scope: UriScope): set<nat> {
    if scope in excluded then excluded[scope] else {}
  }

  /** The edges of a chain's NFTs with a URI, unless its scope is skipped. */
  function ChainEdges(t: Table, seed: nat, d: Dimension, uri: nat, chain: nat, skip: set<UriScope>,
                      excluded: map<UriScope, set<nat>>): seq<HitEdge>
    requires Seeded(t, seed) && chain < t.chainCount
  {
    var scope := ScopeOf(t.chainOf[seed], chain);
    ListingMeans(t, d, uri, chain, |t.nfts|);
    var list := Listing(t, d, uri, chain, |t.nfts|);
    if scope in skip then [] else ListEdges(t, seed, d, list, |list|, Excluded(excluded, scope))
  }

  /** The edges of the peer chains below `k`. */
  function PeerEdges(t: Table, seed: nat, d: Dimension, uri: nat, k: nat, skip: set<UriScope>,
                     excluded: map<UriScope, set<nat>>): seq<HitEdge>
    requires Seeded(t, seed) && k <= t.chainCount
  {
    if k == 0 then []
    else
      PeerEdges(t, seed, d, uri, k - 1, skip, excluded) +
      if k - 1 == t.chainOf[seed] then [] else ChainEdges(t, seed, d, uri, k - 1, skip, excluded)
  }

  /** The seed's own chain comes first. */
  function UriEdges(t: Table, seed: nat, d: Dimension, uri: nat, skip: set<UriScope>, excluded: map<UriScope, set<nat>>): seq<HitEdge>
    requires Seeded(t, seed)
  {
    ChainEdges(t, seed, d, uri, t.chainOf[seed], skip, excluded) + PeerEdges(t, seed, d, uri, t.chainCount, skip, excluded)
  }

  /** An NFT gets an edge for a URI. */
  ghost predicate Edged(t: Table, seed: nat, d: Dimension, uri: nat, skip: set<UriScope>, excluded: map<UriScope, set<nat>>, n: nat)
    requires Seeded(t, seed)
  {
    && Shares(t, d, uri, n) && t.nfts[n].contract != seed
    && ScopeOf(t.chainOf[seed], Chain(t, n)) !in skip
    && n !in Excluded(excluded, ScopeOf(t.chainOf[seed], Chain(t, n)))
  }

  lemma ChainEdgesMean(t: Table, seed: nat, d: Dimension, uri: nat, chain: nat, skip: set<UriScope>,
                       excluded: map<UriScope, set<nat>>)
    requires Seeded(t, seed) && chain < t.chainCount
    ensures Distinct(ChainEdges(t, seed, d, uri, chain, skip, excluded))
    ensures forall e :: e in ChainEdges(t, seed, d, uri, chain, skip, excluded) <==>
              exists n: nat :: Edged(t, seed, d, uri, skip, excluded, n) && Chain(t, n) == chain && e == EdgeTo(t, seed, d, n)
  {
    var scope := ScopeOf(t.chainOf[seed], chain);
    ListingMeans(t, d, uri, chain, |t.nfts|);
    var list := Listing(t, d, uri, chain, |t.nfts|);
    ListEdgesMean(t, seed, d, list, |list|, Excluded(excluded, scope));
    hide Listing, ListEdges, Chain, Excluded, Increasing, EdgeTo;
    var r := ChainEdges(t, seed, d, uri, chain, skip, excluded);
    forall n ensures n in list && n !in Excluded(excluded, scope) && t.nfts[n].contract != seed && scope !in skip <==>
                     n >= 0 && Edged(t, seed, d, uri, skip, excluded, n) && Chain(t, n) == chain
    {
    }
    hide Edged;
    forall e | e in r
      ensures exists n: nat :: Edged(t, seed, d, uri, skip, excluded, n) && Chain(t, n) == chain && e == EdgeTo(t, seed, d, n)
    {
      var i :| 0 <= i < |list| && list[i] !in Excluded(excluded, scope) && t.nfts[list[i]].contract != seed
               && e == EdgeTo(t, seed, d, list[i]);
      assert list[i] in list;
    }
    forall n: nat | Edged(t, seed, d, uri, skip, excluded, n) && Chain(t, n) == chain ensures EdgeTo(t, seed, d, n) in r {
      assert n in list;
      var i :| 0 <= i < |list| && list[i] == n;
    }
  }

  lemma {:induction false} PeerEdgesMean(t: Table, seed: nat, d: Dimension, uri: nat, k: nat, skip: set<UriScope>,
                                         excluded: map<UriScope, set<nat>>)
    requires Seeded(t, seed) && k <= t.chainCount
    ensures Distinct(PeerEdges(t, seed, d, uri, k, skip, excluded))
    ensures forall e :: e in PeerEdges(t, seed, d, uri, k, skip, excluded) <==>
              exists n: nat :: Edged(t, seed, d, uri, skip, excluded, n) && Chain(t, n) < k && Chain(t, n) != t.chainOf[seed]
                               && e == EdgeTo(t, seed, d, n)
  {
    hide ChainEdges, Edged, Chain;
    if k > 0 {
      PeerEdgesMean(t, seed, d, uri, k - 1, skip, excluded);
      ChainEdgesMean(t, seed, d, uri, k - 1, skip, excluded);
      var p, c := PeerEdges(t, seed, d, uri, k - 1, skip, excluded), ChainEdges(t, seed, d, uri, k - 1, skip, excluded);
      forall e ensures !(e in p && e in c) {
      }
      JoinDistinct(p, c);
    }
  }

  lemma JoinDistinct<T>(a: seq<T>, b: seq<T>)
    requires Distinct(a) && Distinct(b) && forall x :: !(x in a && x in b)
    ensures Distinct(a + b)
  {
    assert forall i :: 0 <= i < |a| ==> a[i] in a;
    assert forall i :: 0 <= i < |b| ==> b[i] in b;
  }

  /** Every NFT to be hit gets one edge, and no other NFT gets any. */
  lemma UriEdgesMean(t: Table, seed: nat, d: Dimension, uri: nat, skip: set<UriScope>, excluded: map<UriScope, set<nat>>)
    requires Seeded(t, seed)
    ensures Distinct(UriEdges(t, seed, d, uri, skip, excluded))
    ensures forall e :: e in UriEdges(t, seed, d, uri, skip, excluded) <==>
              exists n: nat :: Edged(t, seed, d, uri, skip, excluded, n) && e == EdgeTo(t, seed, d, n)
  {
    hide ChainEdges, PeerEdges;
    ChainEdgesMean(t, seed, d, uri, t.chainOf[seed], skip, excluded);
    PeerEdgesMean(t, seed, d, uri, t.chainCount, skip, excluded);
    var c := ChainEdges(t, seed, d, uri, t.chainOf[seed], skip, excluded);
    var p := PeerEdges(t, seed, d, uri, t.chainCount, skip, excluded);
    forall e ensures !(e in c && e in p) {
    }
    JoinDistinct(c, p);
  }
}
