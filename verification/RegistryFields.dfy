/** What a registry says on the fields of its edges. */
module RegistryFields {
  import opened Wrappers
  import opened Sorting
  import opened SeedUriSpec
  import opened Registry

  ghost predicate HasEdge(edges: seq<HitEdge>, seed: nat, candidate: nat) {
    exists e :: e in edges && e.seed == seed && e.candidate == candidate
  }

  ghost predicate HasDimension(edges: seq<HitEdge>, seed: nat, candidate: nat, d: HitDimension) {
    exists e :: e in edges && e.seed == seed && e.candidate == candidate && e.dimension == d
  }

  ghost predicate HasNft(edges: seq<HitEdge>, seed: nat, candidate: nat, nft: Option<nat>) {
    exists e :: e in edges && e.seed == seed && e.candidate == candidate && e.nft == nft
  }

  ghost predicate Rising(s: seq<nat>) {
    forall i, j :: 0 <= i < j < |s| ==> s[i] < s[j]
  }

  /** Names, token URIs, image URIs, metadata: those that are present, in this order. */
  ghost function Present(name: bool, tokenUri: bool, imageUri: bool, metadata: bool): seq<HitDimension> {
    (if name then [NameHit] else []) + (if tokenUri then [TokenUriHit] else [])
    + (if imageUri then [ImageUriHit] else []) + (if metadata then [MetadataHit] else [])
  }

  /** The dimensions of the pair's edges. */
  ghost function Listed(edges: seq<HitEdge>, seed: nat, candidate: nat): seq<HitDimension> {
    Present(HasDimension(edges, seed, candidate, NameHit), HasDimension(edges, seed, candidate, TokenUriHit),
            HasDimension(edges, seed, candidate, ImageUriHit), HasDimension(edges, seed, candidate, MetadataHit))
  }

  /** The NFTs of the pair, in order: all of the contract if an edge means all of it, otherwise
      those that the edges name, each once. */
  ghost predicate NftsListed(edges: seq<HitEdge>, contractNfts: ContractNfts, seed: nat, candidate: nat, nfts: seq<nat>) {
    if HasNft(edges, seed, candidate, None) then
      && (forall i, j :: 0 <= i < j < |nfts| ==> nfts[i] <= nfts[j])
      && multiset(nfts) == if candidate in contractNfts then multiset(contractNfts[candidate]) else multiset{}
    else Rising(nfts) && forall n: nat :: n in nfts <==> HasNft(edges, seed, candidate, Some(n))
  }

  /** One relation for each pair that an edge connects, in order of seed and candidate, and the
      candidates in order. */
  ghost predicate RegistryOnFields(edges: seq<HitEdge>, contractNfts: ContractNfts, r: CandidateRegistry) {
    && Rising(r.candidates)
    && (forall n: nat :: n in r.candidates <==> exists seed: nat :: HasEdge(edges, seed, n))
    && (forall i, j :: 0 <= i < j < |r.relations| ==>
          || r.relations[i].seed < r.relations[j].seed
          || (r.relations[i].seed == r.relations[j].seed && r.relations[i].candidate < r.relations[j].candidate))
    && (forall s: nat, c: nat :: HasEdge(edges, s, c) <==> HasRelation(r.relations, s, c))
    && (forall i :: 0 <= i < |r.relations| ==>
          var x := r.relations[i];
          x.dimensions == Listed(edges, x.seed, x.candidate) && NftsListed(edges, contractNfts, x.seed, x.candidate, x.nfts))
    && IndexOnFields(r.relations, r.bySeed)
  }

  ghost predicate HasRelation(relations: seq<Relation>, seed: nat, candidate: nat) {
    exists i :: 0 <= i < |relations| && relations[i].seed == seed && relations[i].candidate == candidate
  }

  /** A seed is indexed if it has a relation, and then with the places of all of them. */
  ghost predicate IndexOnFields(relations: seq<Relation>, bySeed: map<nat, seq<nat>>) {
    && (forall seed: nat :: seed in bySeed <==> exists candidate: nat :: HasRelation(relations, seed, candidate))
    && (forall seed :: seed in bySeed ==>
          Rising(bySeed[seed]) && forall i: nat :: i in bySeed[seed] <==> i < |relations| && relations[i].seed == seed)
  }

  // ----- from the sets

  lemma SortedRises(s: seq<nat>, members: set<nat>)
    requires SortedOf(NatLeq, s, members)
    ensures Rising(s)
  {
    forall i, j | 0 <= i < j < |s| ensures s[i] < s[j] {
      assert NatLeq(s[i], s[j]);
    }
  }

  lemma ListedIsSorted(edges: seq<HitEdge>, seed: nat, candidate: nat, dimensions: seq<HitDimension>)
    requires SortedOf(DimensionLeq, dimensions, DimensionsOf(edges, (seed, candidate)))
    ensures dimensions == Listed(edges, seed, candidate)
  {
    OrdersAreTotal();
    forall d ensures d in DimensionsOf(edges, (seed, candidate)) <==> HasDimension(edges, seed, candidate, d) {
    }
    hide HasDimension, DimensionsOf, TotalOrder;
    ListedOrdered(edges, seed, candidate);
    SortedUnique(DimensionLeq, dimensions, Listed(edges, seed, candidate), DimensionsOf(edges, (seed, candidate)));
  }

  lemma PresentOrdered(name: bool, tokenUri: bool, imageUri: bool, metadata: bool)
    ensures var s := Present(name, tokenUri, imageUri, metadata);
            && Ordered(DimensionLeq, s) && Distinct(s)
            && (NameHit in s <==> name) && (TokenUriHit in s <==> tokenUri) && (ImageUriHit in s <==> imageUri)
            && (MetadataHit in s <==> metadata)
  {}

  lemma ListedOrdered(edges: seq<HitEdge>, seed: nat, candidate: nat)
    requires forall d :: d in DimensionsOf(edges, (seed, candidate)) <==> HasDimension(edges, seed, candidate, d)
    ensures SortedOf(DimensionLeq, Listed(edges, seed, candidate), DimensionsOf(edges, (seed, candidate)))
  {
    hide HasDimension, DimensionsOf, Present, Ordered, Distinct;
    PresentOrdered(HasDimension(edges, seed, candidate, NameHit), HasDimension(edges, seed, candidate, TokenUriHit),
                   HasDimension(edges, seed, candidate, ImageUriHit), HasDimension(edges, seed, candidate, MetadataHit));
    forall d ensures d in Listed(edges, seed, candidate) <==> HasDimension(edges, seed, candidate, d) {
      match d
      case NameHit =>
      case TokenUriHit =>
      case ImageUriHit =>
      case MetadataHit =>
    }
  }

  lemma NftsAreListed(edges: seq<HitEdge>, contractNfts: ContractNfts, seed: nat, candidate: nat, nfts: seq<nat>)
    requires NftsOk(edges, contractNfts, (seed, candidate), nfts)
    ensures NftsListed(edges, contractNfts, seed, candidate, nfts)
  {
    hide SortedOf;
    assert Whole(edges, (seed, candidate)) <==> HasNft(edges, seed, candidate, None);
    if Whole(edges, (seed, candidate)) {
      var list := ListOf(contractNfts, candidate);
      OrdersAreTotal();
      SortOrdered(NatLeq, list);
      assert multiset(list) == if candidate in contractNfts then multiset(contractNfts[candidate]) else multiset{};
      forall i, j | 0 <= i < j < |nfts| ensures nfts[i] <= nfts[j] {
        assert NatLeq(nfts[i], nfts[j]);
      }
    } else {
      SortedRises(nfts, ExplicitNfts(edges, (seed, candidate)));
      NamedNfts(edges, seed, candidate, nfts);
    }
  }

  lemma NamedNfts(edges: seq<HitEdge>, seed: nat, candidate: nat, nfts: seq<nat>)
    requires SortedOf(NatLeq, nfts, ExplicitNfts(edges, (seed, candidate)))
    ensures forall n: nat :: n in nfts <==> HasNft(edges, seed, candidate, Some(n))
  {
    hide Ordered, Distinct;
  }

  lemma PairsAreRelations(edges: seq<HitEdge>, relations: seq<Relation>)
    requires SortedOf(PairLeq, Keys(relations), PairsOf(edges))
    ensures forall i, j :: 0 <= i < j < |relations| ==>
              || relations[i].seed < relations[j].seed
              || (relations[i].seed == relations[j].seed && relations[i].candidate < relations[j].candidate)
    ensures forall s: nat, c: nat :: HasEdge(edges, s, c) <==> HasRelation(relations, s, c)
  {
    var keys := Keys(relations);
    forall i, j | 0 <= i < j < |relations|
      ensures relations[i].seed < relations[j].seed
              || (relations[i].seed == relations[j].seed && relations[i].candidate < relations[j].candidate)
    {
      assert PairLeq(keys[i], keys[j]) && keys[i] != keys[j];
    }
    forall s: nat, c: nat ensures HasEdge(edges, s, c) <==> HasRelation(relations, s, c) {
      PairIsRelation(edges, relations, s, c);
    }
  }

  lemma PairIsRelation(edges: seq<HitEdge>, relations: seq<Relation>, s: nat, c: nat)
    requires SortedOf(PairLeq, Keys(relations), PairsOf(edges))
    ensures HasEdge(edges, s, c) <==> HasRelation(relations, s, c)
  {
    hide Ordered, Distinct, PairLeq;
    assert (s, c) in PairsOf(edges) <==> HasEdge(edges, s, c);
    assert (s, c) in Keys(relations) <==> (s, c) in PairsOf(edges);
    if HasRelation(relations, s, c) {
      var i :| 0 <= i < |relations| && relations[i].seed == s && relations[i].candidate == c;
      assert Keys(relations)[i] == (s, c);
    }
  }

  lemma CandidatesMean(edges: seq<HitEdge>, candidates: seq<nat>)
    requires SortedOf(NatLeq, candidates, CandidatesOf(edges))
    ensures Rising(candidates) && forall n: nat :: n in candidates <==> exists seed: nat :: HasEdge(edges, seed, n)
  {
    SortedRises(candidates, CandidatesOf(edges));
    forall n: nat ensures n in CandidatesOf(edges) <==> exists seed: nat :: HasEdge(edges, seed, n) {
      if e :| e in edges && e.candidate == n {
        assert HasEdge(edges, e.seed, n);
      }
    }
  }

  lemma IndexMeans(relations: seq<Relation>, bySeed: map<nat, seq<nat>>)
    requires IndexOk(relations, bySeed)
    ensures IndexOnFields(relations, bySeed)
  {
    forall seed: nat ensures seed in bySeed <==> exists candidate: nat :: HasRelation(relations, seed, candidate) {
      if seed in bySeed {
        var i := bySeed[seed][0];
        assert i in bySeed[seed];
        assert HasRelation(relations, seed, relations[i].candidate);
      }
    }
  }

  /** What a registry of some edges says. */
  lemma RegistryMeans(edges: seq<HitEdge>, contractNfts: ContractNfts, r: CandidateRegistry)
    requires RegistryOf(edges, contractNfts, r)
    ensures RegistryOnFields(edges, contractNfts, r)
  {
    hide SortedOf, CandidatesOf, PairsOf, DimensionsOf, NftsOk, IndexOk, HasEdge, Rising, Listed, NftsListed, IndexOnFields;
    CandidatesMean(edges, r.candidates);
    PairsAreRelations(edges, r.relations);
    IndexMeans(r.relations, r.bySeed);
    forall i | 0 <= i < |r.relations|
      ensures r.relations[i].dimensions == Listed(edges, r.relations[i].seed, r.relations[i].candidate)
      ensures NftsListed(edges, contractNfts, r.relations[i].seed, r.relations[i].candidate, r.relations[i].nfts)
    {
      assert RelationOk(edges, contractNfts, r.relations[i]);
      ListedIsSorted(edges, r.relations[i].seed, r.relations[i].candidate, r.relations[i].dimensions);
      NftsAreListed(edges, contractNfts, r.relations[i].seed, r.relations[i].candidate, r.relations[i].nfts);
    }
  }
}
