/** The pair sampler: a reservoir for every scope, fed pair by pair and merged across
    workers. */
module PairSampler {
  import opened Sorting
  import opened PairReservoir

  // ----- one reservoir

  /** The heap in any order, and the pairs that are in it. */
  datatype Reservoir = Reservoir(heap: seq<SampleEntry>, retained: set<ContractPair>)

  const EMPTY: Reservoir := Reservoir([], {})

  /** The heap holds the entries of the retained pairs, each once. */
  ghost predicate HeapOk(score: Score, heap: seq<SampleEntry>, retained: set<ContractPair>) {
    && Distinct(heap) && |heap| == |retained|
    && (forall k :: 0 <= k < |heap| ==> heap[k] == EntryOf(score, heap[k].pair) && heap[k].pair in retained)
    && (forall p :: p in retained ==> EntryOf(score, p) in heap)
  }

  /** Heap and retained set agree, and are the smallest of the pairs seen. */
  ghost predicate Holds(score: Score, capacity: nat, r: Reservoir, seen: set<ContractPair>) {
    HeapOk(score, r.heap, r.retained) && Smallest(score, capacity, seen, r.retained)
  }

  lemma EmptyHolds(score: Score, capacity: nat)
    ensures Holds(score, capacity, EMPTY, {})
  {}

  /** The largest entry, which the heap keeps on top. */
  method Peek(heap: seq<SampleEntry>) returns (k: nat)
    requires heap != []
    ensures k < |heap| && forall i :: 0 <= i < |heap| ==> !EntryLess(heap[k], heap[i])
  {
    k := 0;
    for n := 1 to |heap|
      invariant k < |heap| && forall i :: 0 <= i < n ==> !EntryLess(heap[k], heap[i])
    {
      if EntryLess(heap[k], heap[n]) {
        k := n;
      }
    }
  }

  /** The top of the heap is larger than every other pair. */
  lemma TopIsLargest(score: Score, capacity: nat, r: Reservoir, seen: set<ContractPair>, k: nat)
    requires Holds(score, capacity, r, seen) && k < |r.heap|
    requires forall i :: 0 <= i < |r.heap| ==> !EntryLess(r.heap[k], r.heap[i])
    ensures r.heap[k].pair in r.retained
    ensures forall p :: p in r.retained ==> p == r.heap[k].pair || PairLess(score, p, r.heap[k].pair)
  {}

  lemma HeapPush(score: Score, heap: seq<SampleEntry>, retained: set<ContractPair>, pair: ContractPair)
    requires HeapOk(score, heap, retained) && pair !in retained
    ensures HeapOk(score, heap + [EntryOf(score, pair)], retained + {pair})
  {}

  lemma HeapPop(score: Score, heap: seq<SampleEntry>, retained: set<ContractPair>, k: nat)
    requires HeapOk(score, heap, retained) && k < |heap|
    ensures HeapOk(score, heap[..k] + heap[k + 1..], retained - {heap[k].pair})
  {}

  lemma Pushed(score: Score, capacity: nat, r: Reservoir, seen: set<ContractPair>, pair: ContractPair)
    requires Holds(score, capacity, r, seen) && pair !in r.retained && |r.heap| < capacity
    ensures Holds(score, capacity, Reservoir(r.heap + [EntryOf(score, pair)], r.retained + {pair}), seen + {pair})
  {}

  lemma Exchanged(score: Score, capacity: nat, r: Reservoir, seen: set<ContractPair>, pair: ContractPair, k: nat)
    requires Holds(score, capacity, r, seen) && pair !in r.retained && |r.heap| == capacity && k < |r.heap|
    requires forall p :: p in r.retained ==> p == r.heap[k].pair || PairLess(score, p, r.heap[k].pair)
    requires PairLess(score, pair, r.heap[k].pair)
    ensures Holds(score, capacity, Reservoir(r.heap[..k] + r.heap[k + 1..] + [EntryOf(score, pair)],
                                             r.retained - {r.heap[k].pair} + {pair}), seen + {pair})
  {
    assert |r.retained| == |r.heap| && r.heap[k].pair in r.retained;
    hide Smallest, HeapOk, PairLess;
    Replaced(score, capacity, seen, r.retained, pair, r.heap[k].pair);
    HeapPop(score, r.heap, r.retained, k);
    HeapPush(score, r.heap[..k] + r.heap[k + 1..], r.retained - {r.heap[k].pair}, pair);
  }

  /** `PairReservoir::observe` */
  method ObserveIn(r: Reservoir, entry: SampleEntry, capacity: nat, ghost score: Score, ghost seen: set<ContractPair>)
    returns (now: Reservoir, changed: bool)
    requires capacity > 0 && Holds(score, capacity, r, seen) && entry == EntryOf(score, entry.pair)
    ensures Holds(score, capacity, now, seen + {entry.pair}) && (changed <==> now.retained != r.retained)
  {
    hide Smallest;
    now, changed := r, false;
    if entry.pair in r.retained {
      PassedOver(score, capacity, seen, r.retained, entry.pair);
      return;
    }
    if |r.heap| == capacity {
      var top := Peek(r.heap);
      TopIsLargest(score, capacity, r, seen, top);
      PairLessTotal(score, entry.pair, r.heap[top].pair, entry.pair);
      if !EntryLess(entry, r.heap[top]) {
        forall p | p in r.retained ensures PairLess(score, p, entry.pair) {
          PairLessTotal(score, p, r.heap[top].pair, entry.pair);
        }
        PassedOver(score, capacity, seen, r.retained, entry.pair);
        return;
      }
      Exchanged(score, capacity, r, seen, entry.pair, top);
      now := Reservoir(r.heap[..top] + r.heap[top + 1..] + [entry], r.retained - {r.heap[top].pair} + {entry.pair});
    } else {
      HoldsSizes(score, capacity, r, seen);
      Pushed(score, capacity, r, seen, entry.pair);
      now := Reservoir(r.heap + [entry], r.retained + {entry.pair});
    }
    changed := true;
  }

  lemma HoldsSizes(score: Score, capacity: nat, r: Reservoir, seen: set<ContractPair>)
    requires Holds(score, capacity, r, seen)
    ensures |r.heap| <= capacity
  {}

  /** `PairReservoir::merge` */
  method MergeInto(r: Reservoir, other: Reservoir, capacity: nat, ghost score: Score, ghost here: set<ContractPair>,
                   ghost there: set<ContractPair>)
    returns (now: Reservoir)
    requires Holds(score, capacity, r, here) && Holds(score, capacity, other, there)
    ensures Holds(score, capacity, now, here + there)
  {
    hide Smallest, HeapOk;
    HoldsSizes(score, capacity, other, there);
    now := r;
    assert here + TakenTo(other.heap, 0) == here;
    for k := 0 to |other.heap|
      invariant Holds(score, capacity, now, here + TakenTo(other.heap, k))
    {
      IsEntry(score, capacity, other, there, k);
      ghost var taken := TakenTo(other.heap, k);
      assert here + TakenTo(other.heap, k + 1) == here + taken + {other.heap[k].pair};
      var changed;
      now, changed := ObserveIn(now, other.heap[k], capacity, score, here + taken);
    }
    AllTaken(score, capacity, other, there);
    SmallestOfSmallest(score, capacity, here, there, other.retained, now.retained);
  }

  lemma IsEntry(score: Score, capacity: nat, r: Reservoir, seen: set<ContractPair>, k: nat)
    requires Holds(score, capacity, r, seen) && k < |r.heap|
    ensures r.heap[k] == EntryOf(score, r.heap[k].pair)
  {}

  ghost function TakenTo(heap: seq<SampleEntry>, k: nat): set<ContractPair>
    requires k <= |heap|
  {
    if k == 0 then {} else TakenTo(heap, k - 1) + {heap[k - 1].pair}
  }

  lemma {:induction false} TakenMeans(heap: seq<SampleEntry>, k: nat, p: ContractPair)
    requires k <= |heap|
    ensures p in TakenTo(heap, k) <==> exists i :: 0 <= i < k && heap[i].pair == p
  {
    if k > 0 {
      TakenMeans(heap, k - 1, p);
    }
  }

  lemma AllTaken(score: Score, capacity: nat, r: Reservoir, seen: set<ContractPair>)
    requires Holds(score, capacity, r, seen)
    ensures TakenTo(r.heap, |r.heap|) == r.retained
  {
    forall p ensures p in TakenTo(r.heap, |r.heap|) <==> p in r.retained {
      TakenMeans(r.heap, |r.heap|, p);
      if p in r.retained {
        var i :| 0 <= i < |r.heap| && r.heap[i] == EntryOf(score, p);
        assert r.heap[i].pair == p;
      }
    }
  }

  // ----- the reservoirs of all scopes

  datatype Scope = AllChains | IntraChain(chain: nat) | ChainPair(chains: (nat, nat)) | CrossSummary(chain: nat)

  /** `ordered_chain_pair` */
  function OrderedChainPair(left: nat, right: nat): (nat, nat) {
    if left < right then (left, right) else (right, left)
  }

  predicate InScope(chains: seq<nat>, scope: Scope, p: ContractPair)
    requires p.left < |chains| && p.right < |chains|
  {
    var l, r := chains[p.left], chains[p.right];
    match scope
    case AllChains => true
    case IntraChain(c) => l == r == c
    case ChainPair(cs) => l != r && cs == OrderedChainPair(l, r)
    case CrossSummary(c) => l != r && (c == l || c == r)
  }

  ghost predicate Fit(chains: seq<nat>, seen: set<ContractPair>) {
    forall p :: p in seen ==> p.left < |chains| && p.right < |chains|
  }

  ghost function SeenIn(chains: seq<nat>, seen: set<ContractPair>, scope: Scope): set<ContractPair>
    requires Fit(chains, seen)
  {
    set p | p in seen && InScope(chains, scope, p)
  }

  datatype Reservoirs = Reservoirs(all: Reservoir, intra: map<nat, Reservoir>, pairs: map<(nat, nat), Reservoir>,
                                   summary: map<nat, Reservoir>) {
    function In(scope: Scope): Reservoir {
      match scope
      case AllChains => all
      case IntraChain(c) => OrEmpty(intra, c)
      case ChainPair(cs) => OrEmpty(pairs, cs)
      case CrossSummary(c) => OrEmpty(summary, c)
    }
  }

  /** `entry(key).or_default()` */
  function OrEmpty<K>(m: map<K, Reservoir>, key: K): Reservoir {
    if key in m then m[key] else EMPTY
  }

  /** Every scope has the smallest of its pairs. */
  ghost predicate Sampled(score: Score, capacity: nat, chains: seq<nat>, rs: Reservoirs, seen: set<ContractPair>)
    requires Fit(chains, seen)
  {
    forall scope :: Holds(score, capacity, rs.In(scope), SeenIn(chains, seen, scope))
  }

  /** Samplers that saw the same pairs, in whatever order and through whatever merges, keep
      the same pairs in every scope. */
  lemma SamplesAgree(score: Score, capacity: nat, chains: seq<nat>, a: Reservoirs, b: Reservoirs, seen: set<ContractPair>, scope: Scope)
    requires Fit(chains, seen) && Sampled(score, capacity, chains, a, seen) && Sampled(score, capacity, chains, b, seen)
    ensures a.In(scope).retained == b.In(scope).retained
  {
    hide Smallest;
    assert Holds(score, capacity, a.In(scope), SeenIn(chains, seen, scope));
    assert Holds(score, capacity, b.In(scope), SeenIn(chains, seen, scope));
    SmallestIsUnique(score, capacity, SeenIn(chains, seen, scope), a.In(scope).retained, b.In(scope).retained);
  }

  /** The pair lies within the chain, between the two chains, or has one end on the chain. */
  ghost predicate Belongs(chains: seq<nat>, scope: Scope, p: ContractPair)
    requires p.left < |chains| && p.right < |chains|
  {
    var l, r := chains[p.left], chains[p.right];
    match scope
    case AllChains => true
    case IntraChain(c) => l == c && r == c
    case ChainPair(cs) => cs.0 < cs.1 && ((l == cs.0 && r == cs.1) || (l == cs.1 && r == cs.0))
    case CrossSummary(c) => (l == c && r != c) || (l != c && r == c)
  }

  /** The reservoir of a scope; none yet is an empty one. */
  ghost function RetainedIn(rs: Reservoirs, scope: Scope): set<ContractPair> {
    match scope
    case AllChains => rs.all.retained
    case IntraChain(c) => if c in rs.intra then rs.intra[c].retained else {}
    case ChainPair(cs) => if cs in rs.pairs then rs.pairs[cs].retained else {}
    case CrossSummary(c) => if c in rs.summary then rs.summary[c].retained else {}
  }

  /** A lower score goes first; of equal scores, the lower contracts. */
  ghost predicate Preferred(score: Score, p: ContractPair, q: ContractPair) {
    || score(p) < score(q)
    || (score(p) == score(q) && (p.left < q.left || (p.left == q.left && p.right < q.right)))
  }

  /** What a sampler keeps for a scope: pairs seen that belong to it, `capacity` of them at
      most; and if one was not kept, that many which are preferred to it. */
  ghost predicate Keeps(score: Score, capacity: nat, chains: seq<nat>, seen: set<ContractPair>, scope: Scope, kept: set<ContractPair>)
    requires Fit(chains, seen)
  {
    && |kept| <= capacity
    && (forall p :: p in kept ==> p in seen && Belongs(chains, scope, p))
    && (forall q :: q in seen && Belongs(chains, scope, q) && q !in kept ==>
          |kept| == capacity && forall p :: p in kept ==> Preferred(score, p, q))
  }

  lemma SampledMeans(score: Score, capacity: nat, chains: seq<nat>, rs: Reservoirs, seen: set<ContractPair>, scope: Scope)
    requires Fit(chains, seen) && Sampled(score, capacity, chains, rs, seen)
    ensures Keeps(score, capacity, chains, seen, scope, RetainedIn(rs, scope))
  {
    assert Holds(score, capacity, rs.In(scope), SeenIn(chains, seen, scope));
    hide Sampled, HeapOk, SeenIn;
    forall p | p in seen ensures InScope(chains, scope, p) <==> Belongs(chains, scope, p) {
    }
    assert RetainedIn(rs, scope) == rs.In(scope).retained;
    SeenInMeans(chains, seen, scope);
  }

  lemma SeenInMeans(chains: seq<nat>, seen: set<ContractPair>, scope: Scope)
    requires Fit(chains, seen)
    ensures forall p :: p in SeenIn(chains, seen, scope) <==> p in seen && InScope(chains, scope, p)
  {}

  lemma SeenMore(chains: seq<nat>, seen: set<ContractPair>, p: ContractPair, scope: Scope)
    requires Fit(chains, seen) && p.left < |chains| && p.right < |chains|
    ensures Fit(chains, seen + {p})
    ensures SeenIn(chains, seen + {p}, scope) ==
            if InScope(chains, scope, p) then SeenIn(chains, seen, scope) + {p} else SeenIn(chains, seen, scope)
  {}

  lemma SeenBoth(chains: seq<nat>, here: set<ContractPair>, there: set<ContractPair>, scope: Scope)
    requires Fit(chains, here) && Fit(chains, there)
    ensures Fit(chains, here + there)
    ensures SeenIn(chains, here + there, scope) == SeenIn(chains, here, scope) + SeenIn(chains, there, scope)
  {}

  class PairSampler {
    const capacity: nat
    const score: Score
    const contractChains: seq<nat>
    var all: Reservoir
    var intra: map<nat, Reservoir>
    var pairs: map<(nat, nat), Reservoir>
    var summary: map<nat, Reservoir>

    /** The pairs observed so far. */
    ghost var seen: set<ContractPair>

    ghost function Contents(): Reservoirs reads this {
      Reservoirs(all, intra, pairs, summary)
    }

    ghost predicate Valid() reads this {
      Fit(contractChains, seen) && Sampled(score, capacity, contractChains, Contents(), seen)
    }

    /** What a valid sampler keeps, scope by scope. */
    lemma ValidMeans(scope: Scope)
      requires Valid()
      ensures Keeps(score, capacity, contractChains, seen, scope, RetainedIn(Contents(), scope))
    {
      hide Sampled;
      SampledMeans(score, capacity, contractChains, Contents(), seen, scope);
    }

    constructor (capacity: nat, score: Score, contractChains: seq<nat>)
      ensures Valid() && seen == {} && this.capacity == capacity && this.score == score && this.contractChains == contractChains
    {
      this.capacity, this.score, this.contractChains := capacity, score, contractChains;
      all, intra, pairs, summary, seen := EMPTY, map[], map[], map[], {};
      new;
      hide Holds;
      EmptyHolds(score, capacity);
      assert forall scope :: SeenIn(contractChains, {}, scope) == {};
    }

    /** `observe`: a pair of two different contracts goes to the reservoir of every scope it
        belongs to. */
    method Observe(left: nat, right: nat) returns (changed: bool)
      requires Valid() && left < |contractChains| && right < |contractChains|
      modifies this
      ensures Valid()
      ensures capacity == 0 || left == right ==> !changed && seen == old(seen) && Contents() == old(Contents())
      ensures capacity > 0 && left != right ==>
                seen == old(seen) + {if left < right then ContractPair(left, right) else ContractPair(right, left)}
      ensures changed <==> all.retained != old(all.retained)
    {
      if capacity == 0 || left == right {
        return false;
      }
      hide Holds, SeenIn, Fit, Sampled, Smallest;
      var entry := EntryOf(score, PairOf(left, right).value);
      var leftChain, rightChain := contractChains[left], contractChains[right];
      if leftChain == rightChain {
        changed := ObserveIntra(entry, leftChain);
      } else {
        changed := ObserveCross(entry, leftChain, rightChain);
      }
    }

    method ObserveIntra(entry: SampleEntry, chain: nat) returns (changed: bool)
      requires Valid() && capacity > 0 && entry == EntryOf(score, entry.pair)
      requires entry.pair.left < |contractChains| && entry.pair.right < |contractChains|
      requires contractChains[entry.pair.left] == chain && contractChains[entry.pair.right] == chain
      modifies this
      ensures Valid() && seen == old(seen) + {entry.pair} && (changed <==> all.retained != old(all.retained))
    {
      hide Holds, SeenIn, Fit, Sampled, Smallest, OrEmpty;
      ghost var was, had := Contents(), seen;
      SampledAt(score, capacity, contractChains, was, had, AllChains);
      all, changed := ObserveIn(all, entry, capacity, score, SeenIn(contractChains, had, AllChains));
      intra := ObserveAt(intra, chain, entry, was, IntraChain(chain), had);
      seen := had + {entry.pair};
      SampledIntra(score, capacity, contractChains, was, Contents(), had, entry.pair);
    }

    method ObserveCross(entry: SampleEntry, left: nat, right: nat) returns (changed: bool)
      requires Valid() && capacity > 0 && entry == EntryOf(score, entry.pair) && left != right
      requires entry.pair.left < |contractChains| && entry.pair.right < |contractChains|
      requires {contractChains[entry.pair.left], contractChains[entry.pair.right]} == {left, right}
      modifies this
      ensures Valid() && seen == old(seen) + {entry.pair} && (changed <==> all.retained != old(all.retained))
    {
      hide Holds, SeenIn, Fit, Sampled, Smallest, OrEmpty;
      ghost var was, had := Contents(), seen;
      SampledAt(score, capacity, contractChains, was, had, AllChains);
      all, changed := ObserveIn(all, entry, capacity, score, SeenIn(contractChains, had, AllChains));
      var chainPair := OrderedChainPair(left, right);
      pairs := ObserveAt(pairs, chainPair, entry, was, ChainPair(chainPair), had);
      summary := ObserveAt(summary, left, entry, was, CrossSummary(left), had);
      summary := ObserveAt(summary, right, entry, was, CrossSummary(right), had);
      seen := had + {entry.pair};
      SampledCross(score, capacity, contractChains, was, Contents(), had, entry.pair, left, right);
    }

    /** The reservoir under a key observes an entry. */
    method ObserveAt<K(!new)>(m: map<K, Reservoir>, key: K, entry: SampleEntry, ghost rs: Reservoirs, ghost scope: Scope,
                        ghost had: set<ContractPair>)
      returns (now: map<K, Reservoir>)
      requires capacity > 0 && entry == EntryOf(score, entry.pair)
      requires Fit(contractChains, had) && Sampled(score, capacity, contractChains, rs, had)
      requires OrEmpty(m, key) == rs.In(scope)
      ensures forall k :: k != key ==> OrEmpty(now, k) == OrEmpty(m, k)
      ensures Holds(score, capacity, OrEmpty(now, key), SeenIn(contractChains, had, scope) + {entry.pair})
    {
      hide Holds, SeenIn, Sampled, Fit;
      SampledAt(score, capacity, contractChains, rs, had, scope);
      var r, _ := ObserveIn(OrEmpty(m, key), entry, capacity, score, SeenIn(contractChains, had, scope));
      now := m[key := r];
    }

    /** `merge` */
    method Merge(other: PairSampler)
      requires Valid() && other.Valid() && other.capacity == capacity && other.score == score
      requires other.contractChains == contractChains
      modifies this
      ensures Valid() && seen == old(seen) + old(other.seen)
    {
      hide Holds, SeenIn, Fit, Sampled;
      ghost var was, theirs, here, there := Contents(), other.Contents(), seen, other.seen;
      SampledAt(score, capacity, contractChains, was, here, AllChains);
      SampledAt(score, capacity, contractChains, theirs, there, AllChains);
      var others := other.all;
      var otherIntra, otherPairs, otherSummary := other.intra, other.pairs, other.summary;
      all := MergeInto(all, others, capacity, score, SeenIn(contractChains, here, AllChains),
                       SeenIn(contractChains, there, AllChains));
      intra := MergeMaps(intra, otherIntra, was, theirs, here, there, c => IntraChain(c));
      pairs := MergeMaps(pairs, otherPairs, was, theirs, here, there, cs => ChainPair(cs));
      summary := MergeMaps(summary, otherSummary, was, theirs, here, there, c => CrossSummary(c));
      seen := here + there;
      SampledBoth(score, capacity, contractChains, Contents(), here, there);
    }

    /** `merge_reservoir_maps`, the keys in any order. */
    method MergeMaps<K(!new)>(target: map<K, Reservoir>, source: map<K, Reservoir>, ghost was: Reservoirs, ghost theirs: Reservoirs,
                        ghost here: set<ContractPair>, ghost there: set<ContractPair>, ghost scope: K -> Scope)
      returns (merged: map<K, Reservoir>)
      requires Fit(contractChains, here) && Fit(contractChains, there)
      requires Sampled(score, capacity, contractChains, was, here) && Sampled(score, capacity, contractChains, theirs, there)
      requires forall k :: OrEmpty(target, k) == was.In(scope(k)) && OrEmpty(source, k) == theirs.In(scope(k))
      ensures forall k :: Holds(score, capacity, OrEmpty(merged, k),
                                SeenIn(contractChains, here, scope(k)) + SeenIn(contractChains, there, scope(k)))
    {
      hide Holds, SeenIn, Fit, Sampled;
      merged := target;
      var todo := source.Keys;
      while todo != {}
        invariant todo <= source.Keys
        invariant forall k :: k !in source.Keys - todo ==> OrEmpty(merged, k) == OrEmpty(target, k)
        invariant forall k :: k in source.Keys - todo ==>
                    Holds(score, capacity, OrEmpty(merged, k),
                          SeenIn(contractChains, here, scope(k)) + SeenIn(contractChains, there, scope(k)))
      {
        var k :| k in todo;
        assert OrEmpty(target, k) == was.In(scope(k)) && OrEmpty(source, k) == theirs.In(scope(k));
        SampledAt(score, capacity, contractChains, was, here, scope(k));
        SampledAt(score, capacity, contractChains, theirs, there, scope(k));
        var r := MergeInto(OrEmpty(merged, k), source[k], capacity, score, SeenIn(contractChains, here, scope(k)),
                           SeenIn(contractChains, there, scope(k)));
        merged := merged[k := r];
        todo := todo - {k};
      }
      forall k | k !in source
        ensures Holds(score, capacity, OrEmpty(merged, k),
                      SeenIn(contractChains, here, scope(k)) + SeenIn(contractChains, there, scope(k)))
      {
        assert OrEmpty(target, k) == was.In(scope(k)) && OrEmpty(source, k) == theirs.In(scope(k));
        SampledAt(score, capacity, contractChains, was, here, scope(k));
        SampledAt(score, capacity, contractChains, theirs, there, scope(k));
        NothingThere(score, capacity, OrEmpty(merged, k), SeenIn(contractChains, here, scope(k)),
                     SeenIn(contractChains, there, scope(k)));
      }
    }
  }

  lemma SampledAt(score: Score, capacity: nat, chains: seq<nat>, rs: Reservoirs, seen: set<ContractPair>, scope: Scope)
    requires Fit(chains, seen) && Sampled(score, capacity, chains, rs, seen)
    ensures Holds(score, capacity, rs.In(scope), SeenIn(chains, seen, scope))
  {}

  /** An empty reservoir has nothing to add to another. */
  lemma NothingThere(score: Score, capacity: nat, r: Reservoir, here: set<ContractPair>, there: set<ContractPair>)
    requires Holds(score, capacity, r, here) && Holds(score, capacity, EMPTY, there)
    ensures Holds(score, capacity, r, here + there)
  {
    if capacity > 0 {
      assert here + there == here;
    }
  }

  /** One more pair, taken in by the reservoirs of its scopes and by no other. */
  lemma SampledMore(score: Score, capacity: nat, chains: seq<nat>, was: Reservoirs, now: Reservoirs, had: set<ContractPair>,
                    pair: ContractPair)
    requires Fit(chains, had) && Sampled(score, capacity, chains, was, had) && pair.left < |chains| && pair.right < |chains|
    requires forall scope :: InScope(chains, scope, pair) ==>
               Holds(score, capacity, now.In(scope), SeenIn(chains, had, scope) + {pair})
    requires forall scope :: !InScope(chains, scope, pair) ==> now.In(scope) == was.In(scope)
    ensures Fit(chains, had + {pair}) && Sampled(score, capacity, chains, now, had + {pair})
  {
    hide Holds, SeenIn;
    forall scope ensures Holds(score, capacity, now.In(scope), SeenIn(chains, had + {pair}, scope)) {
      SeenMore(chains, had, pair, scope);
      assert Holds(score, capacity, was.In(scope), SeenIn(chains, had, scope));
    }
  }

  /** A pair of one chain: the intra-chain reservoir of that chain takes it in. */
  lemma SampledIntra(score: Score, capacity: nat, chains: seq<nat>, was: Reservoirs, now: Reservoirs, had: set<ContractPair>,
                     pair: ContractPair)
    requires Fit(chains, had) && Sampled(score, capacity, chains, was, had) && pair.left < |chains| && pair.right < |chains|
    requires chains[pair.left] == chains[pair.right] && now.pairs == was.pairs && now.summary == was.summary
    requires Holds(score, capacity, now.all, SeenIn(chains, had, AllChains) + {pair})
    requires var c := chains[pair.left];
             && Holds(score, capacity, OrEmpty(now.intra, c), SeenIn(chains, had, IntraChain(c)) + {pair})
             && forall k :: k != c ==> OrEmpty(now.intra, k) == OrEmpty(was.intra, k)
    ensures Fit(chains, had + {pair}) && Sampled(score, capacity, chains, now, had + {pair})
  {
    hide Holds, SeenIn, Sampled, Fit;
    SampledMore(score, capacity, chains, was, now, had, pair);
  }

  /** A pair of two chains: the reservoirs of the chain pair and of both chains take it in. */
  lemma SampledCross(score: Score, capacity: nat, chains: seq<nat>, was: Reservoirs, now: Reservoirs, had: set<ContractPair>,
                     pair: ContractPair, l: nat, r: nat)
    requires Fit(chains, had) && Sampled(score, capacity, chains, was, had) && pair.left < |chains| && pair.right < |chains|
    requires {chains[pair.left], chains[pair.right]} == {l, r} && l != r && now.intra == was.intra
    requires Holds(score, capacity, now.all, SeenIn(chains, had, AllChains) + {pair})
    requires && Holds(score, capacity, OrEmpty(now.pairs, OrderedChainPair(l, r)),
                      SeenIn(chains, had, ChainPair(OrderedChainPair(l, r))) + {pair})
             && (forall k :: k != OrderedChainPair(l, r) ==> OrEmpty(now.pairs, k) == OrEmpty(was.pairs, k))
             && Holds(score, capacity, OrEmpty(now.summary, l), SeenIn(chains, had, CrossSummary(l)) + {pair})
             && Holds(score, capacity, OrEmpty(now.summary, r), SeenIn(chains, had, CrossSummary(r)) + {pair})
             && (forall k :: k != l && k != r ==> OrEmpty(now.summary, k) == OrEmpty(was.summary, k))
    ensures Fit(chains, had + {pair}) && Sampled(score, capacity, chains, now, had + {pair})
  {
    hide Holds, SeenIn, Sampled, Fit, OrEmpty;
    assert (l == chains[pair.left] && r == chains[pair.right]) || (l == chains[pair.right] && r == chains[pair.left]);
    assert OrderedChainPair(chains[pair.left], chains[pair.right]) == OrderedChainPair(l, r);
    SampledMore(score, capacity, chains, was, now, had, pair);
  }

  lemma SampledBoth(score: Score, capacity: nat, chains: seq<nat>, now: Reservoirs, here: set<ContractPair>, there: set<ContractPair>)
    requires Fit(chains, here) && Fit(chains, there)
    requires forall scope :: Holds(score, capacity, now.In(scope), SeenIn(chains, here, scope) + SeenIn(chains, there, scope))
    ensures Fit(chains, here + there) && Sampled(score, capacity, chains, now, here + there)
  {
    hide Holds, SeenIn;
    forall scope ensures Holds(score, capacity, now.In(scope), SeenIn(chains, here + there, scope)) {
      SeenBoth(chains, here, there, scope);
    }
  }
}
