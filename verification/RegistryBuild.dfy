/** Building the candidate registry from hit edges, and cutting it down to some candidates. */
module RegistryBuild {
  import opened Wrappers
  import opened Sorting
  import opened SeedUriSpec
  import opened Registry
  import opened RegistryFields

  // ----- aggregation

  datatype PendingNfts = Explicit | ExplicitSet(nfts: set<nat>) | WholeContract

  /** `insert_explicit` */
  function InsertExplicit(p: PendingNfts, nft: nat): PendingNfts {
    match p
    case Explicit => ExplicitSet({nft})
    case ExplicitSet(nfts) => ExplicitSet(nfts + {nft})
    case WholeContract => WholeContract
  }

  ghost predicate PendingOk(edges: seq<HitEdge>, key: PairKey, p: PendingNfts) {
    match p
    case Explicit => false
    case ExplicitSet(nfts) => !Whole(edges, key) && nfts == ExplicitNfts(edges, key)
    case WholeContract => Whole(edges, key)
  }

  ghost predicate Aggregates(edges: seq<HitEdge>, dims: map<PairKey, set<HitDimension>>, nfts: map<PairKey, PendingNfts>,
                             candidates: set<nat>) {
    && candidates == CandidatesOf(edges) && dims.Keys == PairsOf(edges) && nfts.Keys == PairsOf(edges)
    && (forall key :: key in dims ==> dims[key] == DimensionsOf(edges, key))
    && (forall key :: key in nfts ==> PendingOk(edges, key, nfts[key]))
  }

  lemma OneMoreEdge(edges: seq<HitEdge>, e: HitEdge, key: PairKey)
    ensures CandidatesOf(edges + [e]) == CandidatesOf(edges) + {e.candidate}
    ensures PairsOf(edges + [e]) == PairsOf(edges) + {KeyOf(e)}
    ensures DimensionsOf(edges + [e], key) == DimensionsOf(edges, key) + if KeyOf(e) == key then {e.dimension} else {}
    ensures Whole(edges + [e], key) <==> Whole(edges, key) || (KeyOf(e) == key && e.nft.None?)
    ensures ExplicitNfts(edges + [e], key) == ExplicitNfts(edges, key) + if KeyOf(e) == key && e.nft.Some? then {e.nft.value} else {}
  {}

  lemma NoneOfPair(edges: seq<HitEdge>, key: PairKey)
    requires key !in PairsOf(edges)
    ensures DimensionsOf(edges, key) == {} && !Whole(edges, key) && ExplicitNfts(edges, key) == {}
  {}

  lemma AggregateStep(edges: seq<HitEdge>, e: HitEdge, dims: map<PairKey, set<HitDimension>>, nfts: map<PairKey, PendingNfts>,
                      candidates: set<nat>)
    requires Aggregates(edges, dims, nfts, candidates)
    ensures var key := KeyOf(e);
            Aggregates(edges + [e], dims[key := (if key in dims then dims[key] else {}) + {e.dimension}],
                       nfts[key := if e.nft.None? then WholeContract
                                   else InsertExplicit(if key in nfts then nfts[key] else Explicit, e.nft.value)],
                       candidates + {e.candidate})
  {
    hide CandidatesOf, PairsOf, DimensionsOf, Whole, ExplicitNfts;
    if KeyOf(e) !in PairsOf(edges) {
      NoneOfPair(edges, KeyOf(e));
    }
    forall key
      ensures CandidatesOf(edges + [e]) == CandidatesOf(edges) + {e.candidate}
      ensures PairsOf(edges + [e]) == PairsOf(edges) + {KeyOf(e)}
      ensures DimensionsOf(edges + [e], key) == DimensionsOf(edges, key) + if KeyOf(e) == key then {e.dimension} else {}
      ensures Whole(edges + [e], key) <==> Whole(edges, key) || (KeyOf(e) == key && e.nft.None?)
      ensures ExplicitNfts(edges + [e], key) == ExplicitNfts(edges, key) + if KeyOf(e) == key && e.nft.Some? then {e.nft.value} else {}
    {
      OneMoreEdge(edges, e, key);
    }
    OneMoreEdge(edges, e, KeyOf(e));
  }

  function Flatten(graphs: seq<seq<HitEdge>>): seq<HitEdge> {
    if graphs == [] then [] else Flatten(graphs[..|graphs| - 1]) + graphs[|graphs| - 1]
  }

  /** The aggregation loop of `from_hit_graphs`. */
  method Aggregate(graphs: seq<seq<HitEdge>>)
    returns (dims: map<PairKey, set<HitDimension>>, nfts: map<PairKey, PendingNfts>, candidates: set<nat>)
    ensures Aggregates(Flatten(graphs), dims, nfts, candidates)
  {
    hide InsertExplicit;
    dims, nfts, candidates := map[], map[], {};
    ghost var done: seq<HitEdge> := [];
    NothingYet();
    hide Aggregates;
    for g := 0 to |graphs|
      invariant done == Flatten(graphs[..g]) && Aggregates(done, dims, nfts, candidates)
    {
      var edges := graphs[g];
      assert graphs[..g + 1][..g] == graphs[..g];
      for k := 0 to |edges|
        invariant done == Flatten(graphs[..g]) + edges[..k] && Aggregates(done, dims, nfts, candidates)
      {
        var e := edges[k];
        var key := KeyOf(e);
        AggregateStep(done, e, dims, nfts, candidates);
        candidates := candidates + {e.candidate};
        dims := dims[key := (if key in dims then dims[key] else {}) + {e.dimension}];
        match e.nft {
          case Some(nft) => nfts := nfts[key := InsertExplicit(if key in nfts then nfts[key] else Explicit, nft)];
          case None => nfts := nfts[key := WholeContract];
        }
        assert edges[..k + 1] == edges[..k] + [e];
        done := done + [e];
      }
      assert edges[..|edges|] == edges;
    }
    assert graphs[..|graphs|] == graphs;
  }

  lemma NothingYet()
    ensures Aggregates([], map[], map[], {})
  {}

  // ----- the relations

  /** The relations so far, and the index of the seeds. */
  ghost predicate Building(edges: seq<HitEdge>, contractNfts: ContractNfts, keys: seq<PairKey>, relations: seq<Relation>,
                           bySeed: map<nat, seq<nat>>) {
    && Keys(relations) == keys && IndexOk(relations, bySeed)
    && forall i :: 0 <= i < |relations| ==> RelationOk(edges, contractNfts, relations[i])
  }

  lemma IndexMore(relations: seq<Relation>, bySeed: map<nat, seq<nat>>, r: Relation)
    requires IndexOk(relations, bySeed)
    ensures IndexOk(relations + [r], bySeed[r.seed := (if r.seed in bySeed then bySeed[r.seed] else []) + [|relations|]])
  {
    hide IndexFor;
    assert r.seed !in bySeed ==> IndexFor(relations, r.seed, []) by {
      NoRelation(relations, r.seed);
    }
    forall seed | seed in bySeed ensures r.seed != seed ==> IndexFor(relations + [r], seed, bySeed[seed]) {
      IndexForMore(relations, r, seed, bySeed[seed]);
    }
    IndexForMore(relations, r, r.seed, if r.seed in bySeed then bySeed[r.seed] else []);
  }

  lemma NoRelation(relations: seq<Relation>, seed: nat)
    ensures (forall i :: 0 <= i < |relations| ==> relations[i].seed != seed) ==> IndexFor(relations, seed, [])
  {}

  lemma IndexForMore(relations: seq<Relation>, r: Relation, seed: nat, list: seq<nat>)
    requires IndexFor(relations, seed, list)
    ensures IndexFor(relations + [r], seed, if r.seed == seed then list + [|relations|] else list)
  {
    assert forall k :: 0 <= k < |list| ==> list[k] in list;
  }

  lemma BuildMore(edges: seq<HitEdge>, contractNfts: ContractNfts, keys: seq<PairKey>, relations: seq<Relation>,
                  bySeed: map<nat, seq<nat>>, r: Relation)
    requires Building(edges, contractNfts, keys, relations, bySeed) && RelationOk(edges, contractNfts, r)
    ensures Building(edges, contractNfts, keys + [(r.seed, r.candidate)], relations + [r],
                     bySeed[r.seed := (if r.seed in bySeed then bySeed[r.seed] else []) + [|relations|]])
  {
    hide RelationOk, IndexOk;
    IndexMore(relations, bySeed, r);
  }

  /** `from_hit_graphs` */
  method FromHitGraphs(graphs: seq<seq<HitEdge>>, contractNfts: ContractNfts) returns (registry: CandidateRegistry)
    ensures RegistryOf(Flatten(graphs), contractNfts, registry)
    ensures RegistryOnFields(Flatten(graphs), contractNfts, registry)
    ensures forall e :: e in Flatten(graphs) <==> exists g :: 0 <= g < |graphs| && e in graphs[g]
  {
    hide RegistryOnFields, SortedOf, Aggregates, Building, Flatten, TotalOrder, PendingOk, NatLeq, PairLeq, DimensionLeq, WholeList;
    OrdersAreTotal();
    ghost var edges := Flatten(graphs);
    var dims, pending, candidateSet := Aggregate(graphs);
    AggregateParts(edges, dims, pending, candidateSet);
    var candidates := SortSetBy(NatLeq, candidateSet);
    var keys := SortSetBy(PairLeq, dims.Keys);
    SortedMembers(PairLeq, keys, dims.Keys);
    var relations: seq<Relation>, bySeed: map<nat, seq<nat>> := [], map[];
    NothingBuilt(edges, contractNfts);
    for k := 0 to |keys|
      invariant Building(edges, contractNfts, keys[..k], relations, bySeed)
    {
      var key := keys[k];
      var r := MakeRelation(key, dims[key], pending[key], contractNfts, edges);
      assert keys[..k + 1] == keys[..k] + [key];
      BuildMore(edges, contractNfts, keys[..k], relations, bySeed, r);
      bySeed := bySeed[r.seed := (if r.seed in bySeed then bySeed[r.seed] else []) + [|relations|]];
      relations := relations + [r];
    }
    assert keys[..|keys|] == keys;
    registry := CandidateRegistry(candidates, relations, bySeed);
    BuiltParts(edges, contractNfts, keys, relations, bySeed);
    RegistryMeans(edges, contractNfts, registry);
    FlattenMembers(graphs);
  }

  lemma {:induction false} FlattenMembers(graphs: seq<seq<HitEdge>>)
    ensures forall e :: e in Flatten(graphs) <==> exists g :: 0 <= g < |graphs| && e in graphs[g]
  {
    if graphs != [] {
      FlattenMembers(graphs[..|graphs| - 1]);
    }
  }

  method MakeRelation(key: PairKey, dims: set<HitDimension>, pending: PendingNfts, contractNfts: ContractNfts,
                      ghost edges: seq<HitEdge>)
    returns (r: Relation)
    requires dims == DimensionsOf(edges, key) && PendingOk(edges, key, pending)
    ensures RelationOk(edges, contractNfts, r) && (r.seed, r.candidate) == key
  {
    hide SortedOf, TotalOrder, DimensionsOf, Whole, ExplicitNfts, NatLeq, DimensionLeq;
    OrdersAreTotal();
    var dimensions := SortSetBy(DimensionLeq, dims);
    var nfts;
    match pending {
      case WholeContract => nfts := WholeList(contractNfts, key.1);
      case ExplicitSet(set_) => nfts := SortSetBy(NatLeq, set_);
    }
    r := Relation(key.0, key.1, dimensions, nfts);
  }

  lemma AggregateParts(edges: seq<HitEdge>, dims: map<PairKey, set<HitDimension>>, nfts: map<PairKey, PendingNfts>, candidates: set<nat>)
    requires Aggregates(edges, dims, nfts, candidates)
    ensures candidates == CandidatesOf(edges) && dims.Keys == PairsOf(edges) && nfts.Keys == PairsOf(edges)
    ensures forall key :: key in dims ==> dims[key] == DimensionsOf(edges, key) && PendingOk(edges, key, nfts[key])
  {}

  lemma SortedMembers<T(!new)>(leq: (T, T) -> bool, s: seq<T>, members: set<T>)
    requires SortedOf(leq, s, members)
    ensures forall i :: 0 <= i < |s| ==> s[i] in members
  {}

  lemma NothingBuilt(edges: seq<HitEdge>, contractNfts: ContractNfts)
    ensures forall keys: seq<PairKey> :: Building(edges, contractNfts, keys[..0], [], map[])
  {}

  lemma BuiltParts(edges: seq<HitEdge>, contractNfts: ContractNfts, keys: seq<PairKey>, relations: seq<Relation>,
                   bySeed: map<nat, seq<nat>>)
    requires Building(edges, contractNfts, keys, relations, bySeed)
    ensures Keys(relations) == keys && IndexOk(relations, bySeed)
    ensures forall i :: 0 <= i < |relations| ==> RelationOk(edges, contractNfts, relations[i])
  {}

  // ----- the order of the edges does not matter

  ghost predicate SameEdges(a: seq<HitEdge>, b: seq<HitEdge>) {
    forall e :: e in a <==> e in b
  }

  lemma SameSets(a: seq<HitEdge>, b: seq<HitEdge>, key: PairKey)
    requires SameEdges(a, b)
    ensures CandidatesOf(a) == CandidatesOf(b) && PairsOf(a) == PairsOf(b) && DimensionsOf(a, key) == DimensionsOf(b, key)
    ensures (Whole(a, key) <==> Whole(b, key)) && ExplicitNfts(a, key) == ExplicitNfts(b, key)
  {}

  lemma SameRelation(a: seq<HitEdge>, b: seq<HitEdge>, contractNfts: ContractNfts, x: Relation, y: Relation)
    requires SameEdges(a, b) && RelationOk(a, contractNfts, x) && RelationOk(b, contractNfts, y)
    requires x.seed == y.seed && x.candidate == y.candidate
    ensures x == y
  {
    hide SortedOf, DimensionsOf, Whole, ExplicitNfts, SameEdges, TotalOrder, NatLeq, DimensionLeq;
    OrdersAreTotal();
    var key := (x.seed, x.candidate);
    SameSets(a, b, key);
    SortedUnique(DimensionLeq, x.dimensions, y.dimensions, DimensionsOf(a, key));
    if !Whole(a, key) {
      SortedUnique(NatLeq, x.nfts, y.nfts, ExplicitNfts(a, key));
    }
  }

  lemma SameIndex(relations: seq<Relation>, a: map<nat, seq<nat>>, b: map<nat, seq<nat>>)
    requires IndexOk(relations, a) && IndexOk(relations, b)
    ensures a == b
  {
    OrdersAreTotal();
    forall seed ensures seed in a <==> seed in b {
      if seed in a {
        assert a[seed][0] in a[seed];
      }
      if seed in b {
        assert b[seed][0] in b[seed];
      }
    }
    forall seed | seed in a ensures a[seed] == b[seed] {
      var members := set i | i in a[seed];
      IncreasingIsSorted(a[seed]);
      IncreasingIsSorted(b[seed]);
      forall i ensures i in a[seed] <==> i in b[seed] {
      }
      SortedUnique(NatLeq, a[seed], b[seed], members);
    }
  }

  lemma IncreasingIsSorted(s: seq<nat>)
    requires Increasing(s)
    ensures Ordered(NatLeq, s) && Distinct(s)
  {}

  /** Registries of the same edges, in any order and any grouping, are the same. */
  lemma RegistryIsUnique(a: seq<HitEdge>, b: seq<HitEdge>, contractNfts: ContractNfts, x: CandidateRegistry, y: CandidateRegistry)
    requires SameEdges(a, b) && RegistryOf(a, contractNfts, x) && RegistryOf(b, contractNfts, y)
    ensures x == y
  {
    hide SortedOf, TotalOrder, NatLeq, PairLeq, RelationOk, CandidatesOf, PairsOf, IndexOk, SameEdges;
    OrdersAreTotal();
    SameSets(a, b, (0, 0));
    SortedUnique(NatLeq, x.candidates, y.candidates, CandidatesOf(a));
    SortedUnique(PairLeq, Keys(x.relations), Keys(y.relations), PairsOf(a));
    assert |Keys(x.relations)| == |x.relations| && |Keys(y.relations)| == |y.relations|;
    forall i | 0 <= i < |x.relations| ensures x.relations[i] == y.relations[i] {
      assert Keys(x.relations)[i] == Keys(y.relations)[i];
      SameRelation(a, b, contractNfts, x.relations[i], y.relations[i]);
    }
    assert x.relations == y.relations;
    SameIndex(x.relations, x.bySeed, y.bySeed);
  }

  // ----- cutting a registry down

  function Filter<T(!new)>(s: seq<T>, keep: T -> bool): (r: seq<T>)
    ensures forall x :: x in r <==> x in s && keep(x)
  {
    if s == [] then []
    else Filter(s[..|s| - 1], keep) + if keep(s[|s| - 1]) then [s[|s| - 1]] else []
  }

  lemma {:induction false} FilterSorted<T(!new)>(leq: (T, T) -> bool, s: seq<T>, keep: T -> bool)
    requires Ordered(leq, s) && Distinct(s)
    ensures Ordered(leq, Filter(s, keep)) && Distinct(Filter(s, keep))
  {
    if s != [] {
      var init, last := s[..|s| - 1], s[|s| - 1];
      FilterSorted(leq, init, keep);
      var r := Filter(init, keep);
      forall i | 0 <= i < |r| ensures leq(r[i], last) && r[i] != last {
        assert r[i] in init;
        var k :| 0 <= k < |init| && init[k] == r[i];
        assert s[k] == init[k];
      }
    }
  }

  /** The relations with kept candidates, as a fresh list. */
  method KeepRelations(relations: seq<Relation>, keep: set<nat>) returns (kept: seq<Relation>, bySeed: map<nat, seq<nat>>)
    ensures kept == Filter(relations, (r: Relation) => r.candidate in keep) && IndexOk(kept, bySeed)
  {
    hide IndexOk;
    kept, bySeed := [], map[];
    NoIndex();
    for k := 0 to |relations|
      invariant kept == Filter(relations[..k], (r: Relation) => r.candidate in keep) && IndexOk(kept, bySeed)
    {
      var r := relations[k];
      assert relations[..k + 1][..k] == relations[..k];
      if r.candidate !in keep {
        continue;
      }
      IndexMore(kept, bySeed, r);
      bySeed := bySeed[r.seed := (if r.seed in bySeed then bySeed[r.seed] else []) + [|kept|]];
      kept := kept + [r];
    }
    assert relations[..|relations|] == relations;
  }

  lemma NoIndex()
    ensures IndexOk([], map[])
  {}

  /** `filter_candidates`: what is left is the registry of the edges to the kept candidates. */
  method FilterCandidates(registry: CandidateRegistry, keep: set<nat>, ghost edges: seq<HitEdge>, ghost contractNfts: ContractNfts)
    returns (filtered: CandidateRegistry)
    requires RegistryOf(edges, contractNfts, registry)
    ensures RegistryOf(Filter(edges, (e: HitEdge) => e.candidate in keep), contractNfts, filtered)
    ensures RegistryOnFields(Filter(edges, (e: HitEdge) => e.candidate in keep), contractNfts, filtered)
  {
    ghost var some := Filter(edges, (e: HitEdge) => e.candidate in keep);
    hide SortedOf, RelationOk, IndexOk, Filter, RegistryOnFields;
    if keep == {} {
      NothingKept(edges, keep, contractNfts);
      RegistryMeans(some, contractNfts, EMPTY_REGISTRY);
      return EMPTY_REGISTRY;
    }
    var candidates := Filter(registry.candidates, c => c in keep);
    KeptCandidates(edges, keep, registry.candidates);
    SortedSame(candidates, CandidatesOf(some));
    var relations, bySeed := KeepRelations(registry.relations, keep);
    KeptRelations(edges, keep, contractNfts, registry.relations);
    filtered := CandidateRegistry(Sort(NatLeq, candidates), relations, bySeed);
    RegistryMeans(some, contractNfts, filtered);
  }

  lemma NothingKept(edges: seq<HitEdge>, keep: set<nat>, contractNfts: ContractNfts)
    requires keep == {}
    ensures RegistryOf(Filter(edges, (e: HitEdge) => e.candidate in keep), contractNfts, EMPTY_REGISTRY)
  {}

  /** Sorting a sorted list again changes nothing. */
  lemma SortedSame(s: seq<nat>, members: set<nat>)
    requires SortedOf(NatLeq, s, members)
    ensures SortedOf(NatLeq, Sort(NatLeq, s), members)
  {
    OrdersAreTotal();
    SortOrdered(NatLeq, s);
    PermutationDistinct(Sort(NatLeq, s), s);
    PermutationMembers(Sort(NatLeq, s), s);
  }

  lemma KeptCandidates(edges: seq<HitEdge>, keep: set<nat>, candidates: seq<nat>)
    requires SortedOf(NatLeq, candidates, CandidatesOf(edges))
    ensures SortedOf(NatLeq, Filter(candidates, c => c in keep), CandidatesOf(Filter(edges, (e: HitEdge) => e.candidate in keep)))
  {
    FilterSorted(NatLeq, candidates, c => c in keep);
  }

  lemma KeptRelation(edges: seq<HitEdge>, keep: set<nat>, contractNfts: ContractNfts, r: Relation)
    requires RelationOk(edges, contractNfts, r) && r.candidate in keep
    ensures RelationOk(Filter(edges, (e: HitEdge) => e.candidate in keep), contractNfts, r)
  {}

  lemma {:induction false} FilterKeys(relations: seq<Relation>, keep: set<nat>)
    ensures Keys(Filter(relations, (r: Relation) => r.candidate in keep)) == Filter(Keys(relations), (k: PairKey) => k.1 in keep)
  {
    if relations != [] {
      var init := relations[..|relations| - 1];
      FilterKeys(init, keep);
      assert Keys(relations)[..|relations| - 1] == Keys(init);
    }
  }

  lemma KeptRelations(edges: seq<HitEdge>, keep: set<nat>, contractNfts: ContractNfts, relations: seq<Relation>)
    requires SortedOf(PairLeq, Keys(relations), PairsOf(edges))
    requires forall i :: 0 <= i < |relations| ==> RelationOk(edges, contractNfts, relations[i])
    ensures var some, kept := Filter(edges, (e: HitEdge) => e.candidate in keep), Filter(relations, (r: Relation) => r.candidate in keep);
            && SortedOf(PairLeq, Keys(kept), PairsOf(some))
            && forall i :: 0 <= i < |kept| ==> RelationOk(some, contractNfts, kept[i])
  {
    hide RelationOk;
    var some, kept := Filter(edges, (e: HitEdge) => e.candidate in keep), Filter(relations, (r: Relation) => r.candidate in keep);
    forall i | 0 <= i < |kept| ensures RelationOk(some, contractNfts, kept[i]) {
      assert kept[i] in relations;
      KeptRelation(edges, keep, contractNfts, kept[i]);
    }
    KeptKeys(edges, keep, relations);
  }

  lemma KeptKeys(edges: seq<HitEdge>, keep: set<nat>, relations: seq<Relation>)
    requires SortedOf(PairLeq, Keys(relations), PairsOf(edges))
    ensures SortedOf(PairLeq, Keys(Filter(relations, (r: Relation) => r.candidate in keep)),
                     PairsOf(Filter(edges, (e: HitEdge) => e.candidate in keep)))
  {
    FilterKeys(relations, keep);
    FilterSorted(PairLeq, Keys(relations), (k: PairKey) => k.1 in keep);
  }
}
