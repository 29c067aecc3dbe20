/** The radix sorts: passes over two buffers that swap roles, cancellable between passes,
    and the fixed-width keys built from 11-bit digits. */
module RadixSorts {
  import opened Sorting
  import opened RadixSpec
  import opened Radix

  /** How many passes run when the `k`-th completed pass is answered by `goOn(k)`. */
  function PassesRun(k: nat, passes: nat, goOn: nat -> bool): (r: nat)
    requires k <= passes
    ensures k <= r <= passes
    ensures (forall j :: k <= j < passes ==> goOn(j)) ==> r == passes
    decreases passes - k
  {
    if k == passes then passes else if goOn(k) then PassesRun(k + 1, passes, goOn) else k + 1
  }

  ghost predicate Uncancelled(passes: nat, goOn: nat -> bool) {
    forall j :: 0 <= j < passes ==> goOn(j)
  }

  /** One pass from `source` into `destination`, by whichever form applies. */
  method Pass<T(!new)>(source: array<T>, destination: array<T>, digits: Digits<T>, p: nat,
                       parallel: bool, chunkSize: nat)
    requires InRange(digits, RADIX_SIZE) && chunkSize > 0
    requires source != destination && source.Length == destination.Length
    modifies destination
    ensures destination[..] == Bucketed(source[..], digits, p, RADIX_SIZE)
  {
    hide Bucketed;
    if parallel {
      var chunkCount := DivCeil(source.Length, chunkSize);
      var localCounts := new nat[chunkCount, RADIX_SIZE];
      var chunkOffsets := new nat[chunkCount, RADIX_SIZE];
      ghost var writes := ParallelCountingPass(source, destination, digits, p, chunkSize, localCounts, chunkOffsets);
    } else {
      var counts := new nat[RADIX_SIZE];
      CountingPass(source, destination, digits, p, counts);
    }
  }

  method SortByDigitsWhile<T(!new)>(values: seq<T>, digits: Digits<T>, passes: nat, threads: nat,
                                    goOn: nat -> bool)
    returns (sorted: seq<T>, complete: bool)
    requires InRange(digits, RADIX_SIZE)
    ensures StablyOrdered(values, sorted, digits, PassesRun(0, passes, goOn))
    ensures complete <==> |values| < 2 || Uncancelled(passes, goOn)
  {
    hide Bucketed, StablyOrdered, PassesRun;
    if |values| < 2 {
      ShortIsOrdered(values, digits, PassesRun(0, passes, goOn));
      return values, true;
    }
    LsdStablyOrders(values, digits, PassesRun(0, passes, goOn));
    if passes == 0 {
      NoPasses(values, digits, goOn);
      return values, true;
    }
    var len := |values|;
    var parallel := len >= PARALLEL_RADIX_MIN_LEN && threads > 1;
    var workerChunks := if threads == 0 then 1 else threads * 4;
    var chunkSize := if DivCeil(len, workerChunks) == 0 then 1 else DivCeil(len, workerChunks);
    var destination := new T[len](i requires 0 <= i < len => values[i]);
    var source := new T[len](_ => values[0]);
    assert destination[..] == values;
    Pass(destination, source, digits, 0, parallel, chunkSize);
    assert Lsd(values, digits, 0) == values;
    assert source[..] == Lsd(values, digits, 1);
    PassesRunStep(0, passes, goOn);
    if !goOn(0) {
      return source[..], false;
    }
    var pass := 1;
    while pass < passes
      invariant 1 <= pass <= passes && source != destination
      invariant fresh(source) && fresh(destination) && source.Length == destination.Length == len
      invariant source[..] == Lsd(values, digits, pass)
      invariant Uncancelled(pass, goOn)
      invariant PassesRun(0, passes, goOn) == PassesRun(pass, passes, goOn)
    {
      Pass(source, destination, digits, pass, parallel, chunkSize);
      source, destination := destination, source;
      assert source[..] == Lsd(values, digits, pass + 1);
      PassesRunStep(pass, passes, goOn);
      if !goOn(pass) {
        return source[..], false;
      }
      pass := pass + 1;
    }
    PassesRunEnd(passes, goOn);
    return source[..], true;
  }

  lemma PassesRunStep(k: nat, passes: nat, goOn: nat -> bool)
    requires k < passes
    ensures PassesRun(k, passes, goOn) == if goOn(k) then PassesRun(k + 1, passes, goOn) else k + 1
  {}

  lemma PassesRunEnd(passes: nat, goOn: nat -> bool)
    ensures PassesRun(passes, passes, goOn) == passes
  {}

  lemma NoPasses<T(!new)>(s: seq<T>, digits: Digits<T>, goOn: nat -> bool)
    ensures PassesRun(0, 0, goOn) == 0 && Lsd(s, digits, 0) == s
  {}

  lemma ShortIsOrdered<T(!new)>(s: seq<T>, digits: Digits<T>, k: nat)
    requires |s| < 2
    ensures StablyOrdered(s, s, digits, k)
  {}

  // ----- the keys

  const U32: nat := 0x1_0000_0000
  const U64: nat := 0x1_0000_0000_0000_0000

  lemma NoDigits<T>(digits: Digits<T>, x: T, y: T)
    ensures DigitLeq(digits, 0, x, y)
  {}

  function U64Digits(p: nat, x: nat): nat {
    Digit(x, p)
  }

  lemma U64Order(x: nat, y: nat)
    requires x < U64 && y < U64
    ensures DigitLeq(U64Digits, 6, x, y) <==> x <= y
  {
    DigitsSpell(U64Digits, 0, 6, x, y, x, y);
    Widths();
  }

  /** `sort_u64_while`: six 11-bit digits cover 64 bits. */
  method SortU64While(values: seq<nat>, threads: nat, goOn: nat -> bool)
    returns (sorted: seq<nat>, complete: bool)
    requires forall x :: x in values ==> x < 0x1_0000_0000_0000_0000
    ensures multiset(sorted) == multiset(values)
    ensures complete ==> Ordered(NatLeq, sorted)
    ensures complete <==> |values| < 2 || Uncancelled(6, goOn)
  {
    sorted, complete := SortByDigitsWhile(values, U64Digits, 6, threads, goOn);
    PermutationMembers(sorted, values);
    if complete && |values| >= 2 {
      forall i, j | 0 <= i < j < |sorted| ensures NatLeq(sorted[i], sorted[j]) {
        assert sorted[i] in values && sorted[j] in values;
        U64Order(sorted[i], sorted[j]);
      }
    }
  }

  function PairDigits(p: nat, x: (nat, nat)): nat {
    Digit(if p <= 2 then x.1 else x.0, p % 3)
  }

  /** Three digits hold a `u32` field. */
  lemma FieldSpells<T>(digits: Digits<T>, m: nat, x: T, y: T, fx: nat, fy: nat)
    requires Spells(digits, m, 3, x, fx) && Spells(digits, m, 3, y, fy) && fx < U32 && fy < U32
    ensures DigitLeq(digits, m + 3, x, y) <==> fx < fy || (fx == fy && DigitLeq(digits, m, x, y))
  {
    hide Spells, Weight, DigitLeq;
    DigitsSpell(digits, m, 3, x, y, fx, fy);
    Widths();
  }

  lemma Thirds(p: nat)
    requires p < 3
    ensures p % 3 == p && (3 + p) % 3 == p && (6 + p) % 3 == p
    ensures p / 3 == 0 && (3 + p) / 3 == 1 && (6 + p) / 3 == 2
  {}

  lemma PairSpells(x: (nat, nat))
    ensures Spells(PairDigits, 0, 3, x, x.1) && Spells(PairDigits, 3, 3, x, x.0)
  {
    hide Digit;
    forall p: nat | p < 3
      ensures PairDigits(0 + p, x) == Digit(x.1, p) && PairDigits(3 + p, x) == Digit(x.0, p)
    {
      Thirds(p);
    }
  }

  lemma PairSpelt(x: (nat, nat), y: (nat, nat))
    requires x.0 < U32 && x.1 < U32 && y.0 < U32 && y.1 < U32
    ensures DigitLeq(PairDigits, 6, x, y) <==> PairLeq(x, y)
  {
    hide Spells, DigitLeq;
    PairSpells(x);
    PairSpells(y);
    NoDigits(PairDigits, x, y);
    FieldSpells(PairDigits, 0, x, y, x.1, y.1);
    FieldSpells(PairDigits, 3, x, y, x.0, y.0);
  }

  /** `sort_u32_pairs_while`: lexicographic order, three digits for each field. */
  method SortU32PairsWhile(values: seq<(nat, nat)>, threads: nat, goOn: nat -> bool)
    returns (sorted: seq<(nat, nat)>, complete: bool)
    requires forall x :: x in values ==> x.0 < 0x1_0000_0000 && x.1 < 0x1_0000_0000
    ensures multiset(sorted) == multiset(values)
    ensures complete ==> Ordered(PairLeq, sorted)
    ensures complete <==> |values| < 2 || Uncancelled(6, goOn)
  {
    sorted, complete := SortByDigitsWhile(values, PairDigits, 6, threads, goOn);
    PermutationMembers(sorted, values);
    if complete && |values| >= 2 {
      forall i, j | 0 <= i < j < |sorted| ensures PairLeq(sorted[i], sorted[j]) {
        assert sorted[i] in values && sorted[j] in values;
        PairSpelt(sorted[i], sorted[j]);
      }
    }
  }

  type Triple = (nat, nat, nat)

  predicate TripleLeq(x: Triple, y: Triple) {
    x.0 < y.0 || (x.0 == y.0 && (x.1 < y.1 || (x.1 == y.1 && x.2 <= y.2)))
  }

  function TripleDigits(p: nat, x: Triple): nat {
    Digit(if p / 3 == 0 then x.2 else if p / 3 == 1 then x.1 else x.0, p % 3)
  }

  lemma TripleSpells(x: Triple)
    ensures Spells(TripleDigits, 0, 3, x, x.2)
    ensures Spells(TripleDigits, 3, 3, x, x.1)
    ensures Spells(TripleDigits, 6, 3, x, x.0)
  {
    hide Digit;
    forall p: nat | p < 3
      ensures TripleDigits(0 + p, x) == Digit(x.2, p)
      ensures TripleDigits(3 + p, x) == Digit(x.1, p)
      ensures TripleDigits(6 + p, x) == Digit(x.0, p)
    {
      Thirds(p);
    }
  }

  lemma TripleOrder(x: Triple, y: Triple)
    requires x.0 < U32 && x.1 < U32 && x.2 < U32 && y.0 < U32 && y.1 < U32 && y.2 < U32
    ensures DigitLeq(TripleDigits, 9, x, y) <==> TripleLeq(x, y)
  {
    hide Spells, DigitLeq;
    TripleSpells(x);
    TripleSpells(y);
    NoDigits(TripleDigits, x, y);
    FieldSpells(TripleDigits, 0, x, y, x.2, y.2);
    FieldSpells(TripleDigits, 3, x, y, x.1, y.1);
    FieldSpells(TripleDigits, 6, x, y, x.0, y.0);
  }

  /** `sort_u32_triples_while`, which the URI postings are built with. */
  method SortU32TriplesWhile(values: seq<Triple>, threads: nat, goOn: nat -> bool)
    returns (sorted: seq<Triple>, complete: bool)
    requires forall x :: x in values ==> x.0 < 0x1_0000_0000 && x.1 < 0x1_0000_0000 && x.2 < 0x1_0000_0000
    ensures multiset(sorted) == multiset(values)
    ensures complete ==> Ordered(TripleLeq, sorted)
    ensures complete <==> |values| < 2 || Uncancelled(9, goOn)
  {
    sorted, complete := SortByDigitsWhile(values, TripleDigits, 9, threads, goOn);
    PermutationMembers(sorted, values);
    if complete && |values| >= 2 {
      forall i, j | 0 <= i < j < |sorted| ensures TripleLeq(sorted[i], sorted[j]) {
        assert sorted[i] in values && sorted[j] in values;
        TripleOrder(sorted[i], sorted[j]);
      }
    }
  }

  // ----- a number, then a flag, of arbitrary elements

  type Key = (nat, bool)

  function KeyDigits<T>(key: T -> Key): Digits<T> {
    (p: nat, x: T) =>
      if p == 0 then (if key(x).1 then 1 else 0) else Digit(key(x).0, p - 1)
  }

  predicate KeyLeq(x: Key, y: Key) {
    x.0 < y.0 || (x.0 == y.0 && (x.1 ==> y.1))
  }

  lemma KeyOrder<T(!new)>(key: T -> Key, x: T, y: T)
    requires key(x).0 < U32 && key(y).0 < U32
    ensures DigitLeq(KeyDigits(key), 4, x, y) <==> KeyLeq(key(x), key(y))
  {
    FieldSpells(KeyDigits(key), 1, x, y, key(x).0, key(y).0);
  }

  lemma KeySame<T(!new)>(key: T -> Key, x: T, y: T)
    requires key(x).0 < U32 && key(y).0 < U32
    ensures SameDigits(KeyDigits(key), 4, x, y) <==> key(x) == key(y)
  {
    var d := KeyDigits(key);
    KeyOrder(key, x, y);
    KeyOrder(key, y, x);
    if SameDigits(d, 4, x, y) {
      SameDigitsLeq(d, 4, x, y);
      SameDigitsLeq(d, 4, y, x);
    }
  }

  lemma {:induction false} SameDigitsLeq<T(!new)>(digits: Digits<T>, k: nat, x: T, y: T)
    requires SameDigits(digits, k, x, y)
    ensures DigitLeq(digits, k, x, y)
  {
    if k > 0 {
      SameDigitsLeq(digits, k - 1, x, y);
    }
  }

  /** The elements with key `k`, in order. */
  function WithKey<T>(s: seq<T>, key: T -> Key, k: Key): seq<T> {
    if s == [] then []
    else WithKey(s[..|s| - 1], key, k) + if key(s[|s| - 1]) == k then [s[|s| - 1]] else []
  }

  lemma {:induction false} WithKeyIsClass<T(!new)>(s: seq<T>, key: T -> Key, x: T)
    requires key(x).0 < U32 && forall y :: y in s ==> key(y).0 < U32
    ensures WithKey(s, key, key(x)) == Class(s, KeyDigits(key), 4, x)
  {
    if s != [] {
      WithKeyIsClass(s[..|s| - 1], key, x);
      KeySame(key, x, s[|s| - 1]);
    }
  }

  lemma {:induction false} NoneWithKey<T>(s: seq<T>, key: T -> Key, k: Key)
    requires forall y :: y in s ==> key(y) != k
    ensures WithKey(s, key, k) == []
  {
    if s != [] {
      NoneWithKey(s[..|s| - 1], key, k);
      assert s[|s| - 1] in s;
    }
  }

  /** `sort_by_u32_bool_key_while`: ordered by the whole key, elements with one key
      staying in their old order. */
  method SortByU32BoolKeyWhile<T(!new)>(values: seq<T>, key: T -> Key, threads: nat, goOn: nat -> bool)
    returns (sorted: seq<T>, complete: bool)
    requires forall x :: x in values ==> key(x).0 < 0x1_0000_0000
    ensures multiset(sorted) == multiset(values)
    ensures complete ==> forall i, j :: 0 <= i < j < |sorted| ==> KeyLeq(key(sorted[i]), key(sorted[j]))
    ensures complete ==> forall k :: WithKey(sorted, key, k) == WithKey(values, key, k)
    ensures complete <==> |values| < 2 || Uncancelled(4, goOn)
  {
    sorted, complete := SortByDigitsWhile(values, KeyDigits(key), 4, threads, goOn);
    PermutationMembers(sorted, values);
    if complete && |values| < 2 {
      ShortPermutation(values, sorted);
    } else if complete {
      KeySorted(values, sorted, key);
    }
  }

  lemma ShortPermutation<T>(s: seq<T>, r: seq<T>)
    requires |s| < 2 && multiset(r) == multiset(s) && |r| == |s|
    ensures r == s
  {
    if |s| == 1 {
      assert r == [r[0]] && s == [s[0]];
      assert s[0] in multiset(s) && multiset(r)[s[0]] == 1;
    }
  }

  lemma KeySorted<T(!new)>(s: seq<T>, r: seq<T>, key: T -> Key)
    requires StablyOrdered(s, r, KeyDigits(key), 4)
    requires forall x :: x in s ==> key(x).0 < U32
    requires forall x :: x in r <==> x in s
    ensures forall i, j :: 0 <= i < j < |r| ==> KeyLeq(key(r[i]), key(r[j]))
    ensures forall k :: WithKey(r, key, k) == WithKey(s, key, k)
  {
    forall i, j | 0 <= i < j < |r| ensures KeyLeq(key(r[i]), key(r[j])) {
      KeyOrder(key, r[i], r[j]);
    }
    forall k ensures WithKey(r, key, k) == WithKey(s, key, k) {
      if x :| x in s && key(x) == k {
        WithKeyIsClass(s, key, x);
        WithKeyIsClass(r, key, x);
      } else {
        NoneWithKey(s, key, k);
        NoneWithKey(r, key, k);
      }
    }
  }
}
