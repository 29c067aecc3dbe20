/** The candidate registry: one relation for each seed and candidate, merged from hit edges. */
module Registry {
  import opened Wrappers
  import opened Sorting
  import opened SeedUriSpec

  type PairKey = (nat, nat)

  /** `dimension_ord` */
  function DimensionOrd(d: HitDimension): nat {
    match d
    case NameHit => 0
    case TokenUriHit => 1
    case ImageUriHit => 2
    case MetadataHit => 3
  }

  predicate DimensionLeq(x: HitDimension, y: HitDimension) {
    DimensionOrd(x) <= DimensionOrd(y)
  }

  lemma OrdersAreTotal()
    ensures TotalOrder(NatLeq) && TotalOrder(PairLeq) && TotalOrder(DimensionLeq)
  {
    PairOrder();
  }

  // ----- what a registry says

  datatype Relation = Relation(seed: nat, candidate: nat, dimensions: seq<HitDimension>, nfts: seq<nat>)

  datatype CandidateRegistry = CandidateRegistry(candidates: seq<nat>, relations: seq<Relation>, bySeed: map<nat, seq<nat>>)

  const EMPTY_REGISTRY: CandidateRegistry := CandidateRegistry([], [], map[])

  function KeyOf(e: HitEdge): PairKey {
    (e.seed, e.candidate)
  }

  ghost function CandidatesOf(edges: seq<HitEdge>): set<nat> {
    set e | e in edges :: e.candidate
  }

  ghost function PairsOf(edges: seq<HitEdge>): set<PairKey> {
    set e | e in edges :: KeyOf(e)
  }

  ghost function DimensionsOf(edges: seq<HitEdge>, key: PairKey): set<HitDimension> {
    set e | e in edges && KeyOf(e) == key :: e.dimension
  }

  /** Some edge of the pair stands for the whole candidate contract. */
  ghost predicate Whole(edges: seq<HitEdge>, key: PairKey) {
    exists e :: e in edges && KeyOf(e) == key && e.nft.None?
  }

  ghost function ExplicitNfts(edges: seq<HitEdge>, key: PairKey): set<nat> {
    set e | e in edges && KeyOf(e) == key && e.nft.Some? :: e.nft.value
  }

  function WholeList(contractNfts: ContractNfts, candidate: nat): seq<nat> {
    Sort(NatLeq, ListOf(contractNfts, candidate))
  }

  /** The NFTs of a relation: the whole contract's if an edge says so, else the explicit ones. */
  ghost predicate NftsOk(edges: seq<HitEdge>, contractNfts: ContractNfts, key: PairKey, nfts: seq<nat>) {
    if Whole(edges, key) then nfts == WholeList(contractNfts, key.1)
    else SortedOf(NatLeq, nfts, ExplicitNfts(edges, key))
  }

  ghost predicate RelationOk(edges: seq<HitEdge>, contractNfts: ContractNfts, r: Relation) {
    && SortedOf(DimensionLeq, r.dimensions, DimensionsOf(edges, (r.seed, r.candidate)))
    && NftsOk(edges, contractNfts, (r.seed, r.candidate), r.nfts)
  }

  function Keys(relations: seq<Relation>): seq<PairKey> {
    seq(|relations|, i requires 0 <= i < |relations| => (relations[i].seed, relations[i].candidate))
  }

  ghost predicate IndexFor(relations: seq<Relation>, seed: nat, list: seq<nat>) {
    Increasing(list) && forall i :: i in list <==> 0 <= i < |relations| && relations[i].seed == seed
  }

  /** The index lists the relations of each seed, in order. */
  ghost predicate IndexOk(relations: seq<Relation>, bySeed: map<nat, seq<nat>>) {
    && (forall seed :: seed in bySeed ==> bySeed[seed] != [] && IndexFor(relations, seed, bySeed[seed]))
    && (forall i :: 0 <= i < |relations| ==> relations[i].seed in bySeed)
  }

  /** One relation for each pair, in order of the pairs. */
  ghost predicate RegistryOf(edges: seq<HitEdge>, contractNfts: ContractNfts, r: CandidateRegistry) {
    && SortedOf(NatLeq, r.candidates, CandidatesOf(edges))
    && SortedOf(PairLeq, Keys(r.relations), PairsOf(edges))
    && (forall i :: 0 <= i < |r.relations| ==> RelationOk(edges, contractNfts, r.relations[i]))
    && IndexOk(r.relations, r.bySeed)
  }

  /** The relation's NFTs are the union of its expanded edges exactly when, where a whole
      contract is meant, the explicit NFTs belong to that contract. */
  lemma NftsAreUnion(edges: seq<HitEdge>, contractNfts: ContractNfts, key: PairKey, nfts: seq<nat>)
    requires NftsOk(edges, contractNfts, key, nfts)
    ensures (forall n :: n in nfts <==> exists e :: e in edges && KeyOf(e) == key && n in ExpandEdgeNfts(e, contractNfts))
            <==> (Whole(edges, key) ==> ExplicitNfts(edges, key) <= set n | n in ListOf(contractNfts, key.1))
  {
    if Whole(edges, key) {
      var list := ListOf(contractNfts, key.1);
      PermutationMembers(nfts, list);
      var w :| w in edges && KeyOf(w) == key && w.nft.None?;
      assert forall n :: n in list ==> n in ExpandEdgeNfts(w, contractNfts);
      forall n | n in ExplicitNfts(edges, key)
        ensures exists e :: e in edges && KeyOf(e) == key && n in ExpandEdgeNfts(e, contractNfts)
      {
        var e :| e in edges && KeyOf(e) == key && e.nft.Some? && e.nft.value == n;
        assert n in ExpandEdgeNfts(e, contractNfts);
      }
      forall e, n | e in edges && KeyOf(e) == key && n in ExpandEdgeNfts(e, contractNfts)
        ensures n in list || n in ExplicitNfts(edges, key)
      {
      }
    } else {
      forall n ensures n in nfts <==> exists e :: e in edges && KeyOf(e) == key && n in ExpandEdgeNfts(e, contractNfts) {
        if n in nfts {
          var e :| e in edges && KeyOf(e) == key && e.nft.Some? && e.nft.value == n;
          assert n in ExpandEdgeNfts(e, contractNfts);
        }
      }
    }
  }

  /** Contract 2 has NFT 3 alone; the edges mean all of it and NFT 9, which is another's. The
      relation keeps NFT 3 and drops the explicit one. */
  lemma ForeignNftDropped()
    ensures var edges := [HitEdge(1, 2, None, NameHit, 0, 0), HitEdge(1, 2, Some(9), TokenUriHit, 0, 0)];
            && NftsOk(edges, map[2 := [3]], (1, 2), [3])
            && (exists e :: e in edges && KeyOf(e) == (1, 2) && 9 in ExpandEdgeNfts(e, map[2 := [3]]))
  {
    var edges := [HitEdge(1, 2, None, NameHit, 0, 0), HitEdge(1, 2, Some(9), TokenUriHit, 0, 0)];
    assert edges[0] in edges && edges[1] in edges;
    assert Sort(NatLeq, [3]) == [3];
    assert 9 in ExpandEdgeNfts(edges[1], map[2 := [3]]);
  }
}
