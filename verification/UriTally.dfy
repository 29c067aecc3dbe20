/** Scope aggregates: for each scope the contracts that have a duplicate there, and how many
    of their NFTs do. */
module UriTally {
  import opened UriSpec

  datatype Key = Key(reach: Reach, primary: nat)

  datatype Aggregate = Aggregate(contracts: set<nat>, rows: nat)

  type Scopes = map<Key, Aggregate>

  /** The NFTs of a scope that are hit. */
  ghost function At(t: Table, hits: set<Hit>, key: Key): set<nat>
    requires WellFormed(t)
  {
    set h | h in hits && h.nft < |t.nfts| && h.reach == key.reach && Chain(t, h.nft) == key.primary :: h.nft
  }

  ghost function ContractsOf(t: Table, nfts: set<nat>): set<nat> {
    set n | n in nfts && n < |t.nfts| :: t.nfts[n].contract
  }

  /** The aggregates say of each scope what the hits are there. */
  ghost predicate Tallies(t: Table, hits: set<Hit>, scopes: Scopes)
    requires WellFormed(t)
  {
    && (forall key :: key in scopes <==> At(t, hits, key) != {})
    && (forall key :: key in scopes ==> scopes[key] == Aggregate(ContractsOf(t, At(t, hits, key)), |At(t, hits, key)|))
  }

  /** Two tallies of the same hits are the same aggregates. */
  lemma TalliesUnique(t: Table, hits: set<Hit>, a: Scopes, b: Scopes)
    requires WellFormed(t) && Tallies(t, hits, a) && Tallies(t, hits, b)
    ensures a == b
  {}

  lemma NoHits(t: Table)
    requires WellFormed(t)
    ensures Tallies(t, {}, map[])
  {}

  // ----- adding to a scope

  function Plus(scopes: Scopes, key: Key, contracts: set<nat>, rows: nat): Scopes {
    scopes[key :=
      if key in scopes then Aggregate(scopes[key].contracts + contracts, scopes[key].rows + rows)
      else Aggregate(contracts, rows)]
  }

  function HitsFrom(r: Reach, nfts: set<nat>): set<Hit> {
    set n | n in nfts :: Hit(r, n)
  }

  lemma AtPlus(t: Table, hits: set<Hit>, r: Reach, nfts: set<nat>, key: Key)
    requires WellFormed(t) && nfts != {}
    requires forall n :: n in nfts ==> n < |t.nfts| && Chain(t, n) == key.primary && Hit(r, n) !in hits
    requires key.reach == r
    ensures At(t, hits + HitsFrom(r, nfts), key) == At(t, hits, key) + nfts && At(t, hits, key) !! nfts
  {}

  lemma AtOther(t: Table, hits: set<Hit>, r: Reach, nfts: set<nat>, primary: nat, key: Key)
    requires WellFormed(t) && key != Key(r, primary)
    requires forall n :: n in nfts ==> n < |t.nfts| && Chain(t, n) == primary
    ensures At(t, hits + HitsFrom(r, nfts), key) == At(t, hits, key)
  {}

  lemma TallyPlus(t: Table, hits: set<Hit>, scopes: Scopes, r: Reach, primary: nat, nfts: set<nat>)
    requires WellFormed(t) && Tallies(t, hits, scopes) && nfts != {}
    requires forall n :: n in nfts ==> n < |t.nfts| && Chain(t, n) == primary && Hit(r, n) !in hits
    ensures Tallies(t, hits + HitsFrom(r, nfts), Plus(scopes, Key(r, primary), ContractsOf(t, nfts), |nfts|))
  {
    hide At, ContractsOf, HitsFrom, Chain;
    var key := Key(r, primary);
    AtPlus(t, hits, r, nfts, key);
    ContractsJoin(t, At(t, hits, key), nfts);
    assert |At(t, hits, key) + nfts| == |At(t, hits, key)| + |nfts|;
    forall k | k != key ensures At(t, hits + HitsFrom(r, nfts), k) == At(t, hits, k) {
      AtOther(t, hits, r, nfts, primary, k);
    }
    assert At(t, hits, key) == {} ==> At(t, hits, key) + nfts == nfts;
  }

  lemma ContractsJoin(t: Table, x: set<nat>, y: set<nat>)
    ensures ContractsOf(t, x + y) == ContractsOf(t, x) + ContractsOf(t, y)
  {}

  // ----- merging

  function JoinedAt(a: Scopes, b: Scopes, key: Key): Aggregate
    requires key in a || key in b
  {
    if key !in a then b[key]
    else if key !in b then a[key]
    else Aggregate(a[key].contracts + b[key].contracts, a[key].rows + b[key].rows)
  }

  ghost predicate Merges(a: Scopes, b: Scopes, r: Scopes) {
    && (forall key :: key in r <==> key in a || key in b)
    && (forall key :: key in r ==> r[key] == JoinedAt(a, b, key))
  }

  lemma AtUnion(t: Table, x: set<Hit>, y: set<Hit>, key: Key)
    requires WellFormed(t) && x !! y
    ensures At(t, x + y, key) == At(t, x, key) + At(t, y, key) && At(t, x, key) !! At(t, y, key)
    ensures ContractsOf(t, At(t, x + y, key)) == ContractsOf(t, At(t, x, key)) + ContractsOf(t, At(t, y, key))
    ensures |At(t, x + y, key)| == |At(t, x, key)| + |At(t, y, key)|
  {}

  /** Merging the tallies of disjoint hits tallies both. */
  lemma TallyMerge(t: Table, x: set<Hit>, y: set<Hit>, a: Scopes, b: Scopes, r: Scopes)
    requires WellFormed(t) && Tallies(t, x, a) && Tallies(t, y, b) && x !! y && Merges(a, b, r)
    ensures Tallies(t, x + y, r)
  {
    hide At, ContractsOf;
    forall key
      ensures key in r <==> At(t, x + y, key) != {}
      ensures key in r ==> r[key] == Aggregate(ContractsOf(t, At(t, x + y, key)), |At(t, x + y, key)|)
    {
      AtUnion(t, x, y, key);
      NoContracts(t);
    }
  }

  lemma NoContracts(t: Table)
    ensures ContractsOf(t, {}) == {}
  {}

  ghost function Elements(s: seq<nat>): set<nat> {
    set x | x in s
  }

  class LocalUriAccumulator {
    var scopes: Scopes

    constructor ()
      ensures scopes == map[]
    {
      scopes := map[];
    }

    method Add(p: Posting, rows: nat, r: Reach)
      modifies this
      ensures scopes == Plus(old(scopes), Key(r, p.chain), {p.contract}, rows)
    {
      var key := Key(r, p.chain);
      var aggregate := if key in scopes then scopes[key] else Aggregate({}, 0);
      aggregate := aggregate.(contracts := aggregate.contracts + {p.contract});
      aggregate := aggregate.(rows := aggregate.rows + rows);
      assert {} + {p.contract} == {p.contract};
      scopes := scopes[key := aggregate];
    }

    method AddGroup(primary: nat, contracts: seq<nat>, rows: nat, r: Reach)
      modifies this
      ensures scopes == if rows == 0 then old(scopes) else Plus(old(scopes), Key(r, primary), Elements(contracts), rows)
    {
      if rows == 0 {
        return;
      }
      var key := Key(r, primary);
      var aggregate := if key in scopes then scopes[key] else Aggregate({}, 0);
      for k := 0 to |contracts|
        invariant aggregate == (if key in scopes then scopes[key] else Aggregate({}, 0)).(contracts :=
                    (if key in scopes then scopes[key].contracts else {}) + Elements(contracts[..k]))
      {
        assert Elements(contracts[..k + 1]) == Elements(contracts[..k]) + {contracts[k]};
        aggregate := aggregate.(contracts := aggregate.contracts + {contracts[k]});
      }
      assert contracts[..|contracts|] == contracts && {} + Elements(contracts) == Elements(contracts);
      scopes := scopes[key := aggregate.(rows := aggregate.rows + rows)];
    }

    /** The keys of `other` come in any order; the larger contract set takes in the other. */
    method Merge(other: LocalUriAccumulator)
      modifies this
      ensures Merges(old(scopes), old(other.scopes), scopes)
    {
      var source := other.scopes;
      var todo := source.Keys;
      while todo != {}
        invariant todo <= source.Keys
        invariant forall key :: key in scopes <==> key in old(scopes) || key in source.Keys - todo
        invariant forall key :: key in scopes ==>
                    scopes[key] == if key in todo || key !in source then old(scopes)[key] else JoinedAt(old(scopes), source, key)
        decreases |todo|
      {
        var key :| key in todo;
        var target := if key in scopes then scopes[key] else Aggregate({}, 0);
        var from := source[key];
        if |target.contracts| < |from.contracts| {
          target, from := target.(contracts := from.contracts), from.(contracts := target.contracts);
        }
        target := target.(contracts := target.contracts + from.contracts);
        scopes := scopes[key := target.(rows := target.rows + from.rows)];
        todo := todo - {key};
      }
    }
  }

  // ----- crediting the postings of a group

  /** Hits of other groups are of other NFTs. */
  ghost predicate Elsewhere(ms: seq<Posting>, base: set<Hit>) {
    forall h, i :: h in base && 0 <= i < |ms| ==> h.nft !in ms[i].nfts
  }

  ghost predicate InGroup(ms: seq<Posting>, pairs: set<(nat, Reach)>) {
    forall x :: x in pairs ==> x.0 < |ms|
  }

  ghost function OpenIn(ms: seq<Posting>, barred: set<Hit>, r: Reach, pairs: set<(nat, Reach)>): set<nat>
    requires InGroup(ms, pairs)
  {
    set x, n | x in pairs && n in Open(ms[x.0], r, barred) :: n
  }

  ghost predicate SameScope(ms: seq<Posting>, barred: set<Hit>, pairs: set<(nat, Reach)>, r: Reach, chain: nat) {
    forall x :: x in pairs ==> x.0 < |ms| && x.1 == r && ms[x.0].chain == chain && Open(ms[x.0], r, barred) != {}
  }

  lemma CreditedPlus(ms: seq<Posting>, barred: set<Hit>, pairs: set<(nat, Reach)>, more: set<(nat, Reach)>, r: Reach, chain: nat)
    requires InGroup(ms, pairs) && SameScope(ms, barred, more, r, chain)
    ensures Credited(ms, barred, pairs + more) == Credited(ms, barred, pairs) + HitsFrom(r, OpenIn(ms, barred, r, more))
  {}

  lemma OpenAre(t: Table, d: Dimension, ms: seq<Posting>, barred: set<Hit>, r: Reach, more: set<(nat, Reach)>, chain: nat)
    requires WellFormed(t) && Group(t, d, ms) && SameScope(ms, barred, more, r, chain)
    ensures forall n :: n in OpenIn(ms, barred, r, more) ==> n < |t.nfts| && Chain(t, n) == chain
    ensures ContractsOf(t, OpenIn(ms, barred, r, more)) == set x | x in more :: ms[x.0].contract
  {}

  /** Pairs not yet credited bring hits not yet tallied. */
  lemma OpenAreNew(t: Table, d: Dimension, ms: seq<Posting>, barred: set<Hit>, base: set<Hit>, pairs: set<(nat, Reach)>,
                   more: set<(nat, Reach)>, r: Reach, chain: nat)
    requires WellFormed(t) && Group(t, d, ms) && Elsewhere(ms, base)
    requires InGroup(ms, pairs) && SameScope(ms, barred, more, r, chain) && pairs !! more
    ensures forall n :: n in OpenIn(ms, barred, r, more) ==> Hit(r, n) !in base + Credited(ms, barred, pairs)
  {}

  lemma OnePostingEach(t: Table, d: Dimension, ms: seq<Posting>, i: nat, j: nat, n: nat)
    requires WellFormed(t) && Group(t, d, ms) && i < |ms| && j < |ms| && n in ms[i].nfts && n in ms[j].nfts
    ensures i == j
  {}

  /** Adding the open NFTs of postings of one scope credits those postings. */
  lemma Credit(t: Table, d: Dimension, ms: seq<Posting>, barred: set<Hit>, base: set<Hit>, pairs: set<(nat, Reach)>,
               more: set<(nat, Reach)>, r: Reach, chain: nat, scopes: Scopes)
    requires WellFormed(t) && Group(t, d, ms) && Elsewhere(ms, base) && InGroup(ms, pairs)
    requires SameScope(ms, barred, more, r, chain) && pairs !! more && more != {}
    requires Tallies(t, base + Credited(ms, barred, pairs), scopes)
    ensures InGroup(ms, pairs + more)
    ensures Tallies(t, base + Credited(ms, barred, pairs + more),
                    Plus(scopes, Key(r, chain), (set x | x in more :: ms[x.0].contract), |OpenIn(ms, barred, r, more)|))
  {
    hide Tallies, Plus, Credited, HitsFrom, OpenIn, ContractsOf, Group, Elsewhere, Open, Chain;
    var nfts := OpenIn(ms, barred, r, more);
    OpenAre(t, d, ms, barred, r, more, chain);
    OpenAreNew(t, d, ms, barred, base, pairs, more, r, chain);
    CreditedPlus(ms, barred, pairs, more, r, chain);
    SomeOpen(ms, barred, r, more, chain);
    TallyPlus(t, base + Credited(ms, barred, pairs), scopes, r, chain, nfts);
    assert base + Credited(ms, barred, pairs) + HitsFrom(r, nfts) == base + Credited(ms, barred, pairs + more);
  }

  lemma SomeOpen(ms: seq<Posting>, barred: set<Hit>, r: Reach, more: set<(nat, Reach)>, chain: nat)
    requires SameScope(ms, barred, more, r, chain) && more != {}
    ensures OpenIn(ms, barred, r, more) != {}
  {}

  /** The same for a single posting. */
  lemma CreditOne(t: Table, d: Dimension, ms: seq<Posting>, barred: set<Hit>, base: set<Hit>, pairs: set<(nat, Reach)>,
                  i: nat, r: Reach, scopes: Scopes)
    requires WellFormed(t) && Group(t, d, ms) && Elsewhere(ms, base) && InGroup(ms, pairs)
    requires i < |ms| && Open(ms[i], r, barred) != {} && (i, r) !in pairs
    requires Tallies(t, base + Credited(ms, barred, pairs), scopes)
    ensures InGroup(ms, pairs + {(i, r)})
    ensures Tallies(t, base + Credited(ms, barred, pairs + {(i, r)}),
                    Plus(scopes, Key(r, ms[i].chain), {ms[i].contract}, |Open(ms[i], r, barred)|))
  {
    hide Tallies, Plus, Credited, Group, Elsewhere, Open;
    var more: set<(nat, Reach)> := {(i, r)};
    Credit(t, d, ms, barred, base, pairs, more, r, ms[i].chain, scopes);
    assert OpenIn(ms, barred, r, more) == Open(ms[i], r, barred);
    assert (set x | x in more :: ms[x.0].contract) == {ms[i].contract};
  }
}
