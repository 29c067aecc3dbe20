/** A bounded random sample of contract pairs: the pairs of smallest priority. */
module PairReservoir {
  import opened Wrappers

  /** Contract ids, the smaller first. */
  datatype ContractPair = ContractPair(left: nat, right: nat)

  /** `ContractPair::new` */
  function PairOf(left: nat, right: nat): Option<ContractPair> {
    if left == right then None
    else Some(if left < right then ContractPair(left, right) else ContractPair(right, left))
  }

  datatype SampleEntry = SampleEntry(priority: nat, pair: ContractPair)

  predicate EntryLess(x: SampleEntry, y: SampleEntry) {
    || x.priority < y.priority
    || (x.priority == y.priority
        && (x.pair.left < y.pair.left || (x.pair.left == y.pair.left && x.pair.right < y.pair.right)))
  }

  /** The priority of a pair is a keyed hash of it. */
  type Score = ContractPair -> nat

  function EntryOf(score: Score, pair: ContractPair): SampleEntry {
    SampleEntry(score(pair), pair)
  }

  predicate PairLess(score: Score, x: ContractPair, y: ContractPair) {
    EntryLess(EntryOf(score, x), EntryOf(score, y))
  }

  lemma PairLessTotal(score: Score, x: ContractPair, y: ContractPair, z: ContractPair)
    ensures !PairLess(score, x, x) && (x == y || PairLess(score, x, y) || PairLess(score, y, x))
    ensures PairLess(score, x, y) && PairLess(score, y, z) ==> PairLess(score, x, z)
  {}

  /** `kept` are the `capacity` smallest of the pairs seen, or all of them if they are fewer. */
  ghost predicate Smallest(score: Score, capacity: nat, seen: set<ContractPair>, kept: set<ContractPair>) {
    && kept <= seen && |kept| <= capacity
    && (kept != seen ==> |kept| == capacity)
    && (forall p, q :: p in kept && q in seen && q !in kept ==> PairLess(score, p, q))
  }

  lemma {:induction false} Subset<T>(x: set<T>, y: set<T>)
    requires x <= y
    ensures |x| <= |y| && (|x| == |y| ==> x == y)
  {
    assert y == x + (y - x);
  }

  /** What is kept depends on the pairs seen alone. */
  lemma SmallestIsUnique(score: Score, capacity: nat, seen: set<ContractPair>, a: set<ContractPair>, b: set<ContractPair>)
    requires Smallest(score, capacity, seen, a) && Smallest(score, capacity, seen, b)
    ensures a == b
  {
    Subset(a, seen);
    Subset(b, seen);
    if p :| p in a && p !in b {
      if q :| q in b && q !in a {
        PairLessTotal(score, p, q, p);
      } else {
        Subset(b, a);
      }
    } else {
      Subset(a, b);
    }
  }

  /** A pair already kept, or not smaller than any kept pair of a full sample, changes nothing. */
  lemma PassedOver(score: Score, capacity: nat, seen: set<ContractPair>, kept: set<ContractPair>, pair: ContractPair)
    requires Smallest(score, capacity, seen, kept)
    requires pair in kept || (|kept| == capacity && forall p :: p in kept ==> PairLess(score, p, pair))
    ensures Smallest(score, capacity, seen + {pair}, kept)
  {}

  lemma Replaced(score: Score, capacity: nat, seen: set<ContractPair>, kept: set<ContractPair>, pair: ContractPair,
                 largest: ContractPair)
    requires Smallest(score, capacity, seen, kept) && pair !in kept && |kept| == capacity && largest in kept
    requires forall p :: p in kept ==> p == largest || PairLess(score, p, largest)
    requires PairLess(score, pair, largest)
    ensures Smallest(score, capacity, seen + {pair}, kept - {largest} + {pair})
  {}

  /** The smallest of what was seen here together with the smallest of what was seen there
      are the smallest of everything. */
  lemma SmallestOfSmallest(score: Score, capacity: nat, here: set<ContractPair>, there: set<ContractPair>,
                           theirs: set<ContractPair>, kept: set<ContractPair>)
    requires Smallest(score, capacity, there, theirs) && Smallest(score, capacity, here + theirs, kept)
    ensures Smallest(score, capacity, here + there, kept)
  {
    if kept == here + theirs {
      Subset(theirs, kept);
    }
    forall q | q in there && q !in theirs && q !in here
      ensures |kept| == capacity && forall p :: p in kept ==> PairLess(score, p, q)
    {
      Dropped(score, capacity, here, there, theirs, kept, q);
    }
  }

  lemma Dropped(score: Score, capacity: nat, here: set<ContractPair>, there: set<ContractPair>, theirs: set<ContractPair>,
                kept: set<ContractPair>, q: ContractPair)
    requires Smallest(score, capacity, there, theirs) && Smallest(score, capacity, here + theirs, kept)
    requires q in there && q !in theirs && q !in here
    ensures |kept| == capacity && forall p :: p in kept ==> PairLess(score, p, q)
  {
    assert |theirs| == capacity;
    if kept == here + theirs {
      Subset(theirs, kept);
    }
    forall p | p in kept ensures PairLess(score, p, q) {
      if p !in theirs {
        if m :| m in theirs && m !in kept {
          PairLessTotal(score, p, m, q);
        } else {
          Subset(theirs, kept);
        }
      }
    }
  }
}
