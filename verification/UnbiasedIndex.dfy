/** Drawing an index without bias, by rejecting a few of the 2^64 hash values. */
module UnbiasedIndex {
  import opened Arithmetic

  const U64: nat := 0x1_0000_0000_0000_0000

  /** `len.wrapping_neg()` */
  function WrappingNeg(len: nat): nat
    requires len < U64
  {
    (U64 - len) % U64
  }

  /** Values below this are rejected. */
  function Minimum(len: nat): nat
    requires 0 < len < U64
  {
    WrappingNeg(len) % len
  }

  /** The bound is what is left over when 2^64 is cut into pieces of `len`. */
  lemma MinimumIsRemainder(len: nat)
    requires 0 < len < U64
    ensures Minimum(len) == 0x1_0000_0000_0000_0000 % len && Minimum(len) < len
    ensures 0x1_0000_0000_0000_0000 - Minimum(len) == (0x1_0000_0000_0000_0000 / len) * len
  {
    Quotient(U64 - len, len, U64 / len - 1, U64 % len);
  }

  /** How many values of `[lo, hi)` give the index `r`. */
  ghost function Count(lo: nat, hi: nat, len: nat, r: nat): nat
    requires lo <= hi && len > 0
    decreases hi
  {
    if lo == hi then 0 else Count(lo, hi - 1, len, r) + if (hi - 1) % len == r then 1 else 0
  }

  lemma {:induction false} CountJoin(lo: nat, mid: nat, hi: nat, len: nat, r: nat)
    requires lo <= mid <= hi && len > 0
    ensures Count(lo, hi, len, r) == Count(lo, mid, len, r) + Count(mid, hi, len, r)
    decreases hi
  {
    if mid < hi {
      CountJoin(lo, mid, hi - 1, len, r);
    }
  }

  lemma {:induction false} CountFirst(k: nat, len: nat, r: nat)
    requires k <= len && r < len
    ensures Count(0, k, len, r) == if r < k then 1 else 0
  {
    if k > 0 {
      CountFirst(k - 1, len, r);
      Quotient(k - 1, len, 0, k - 1);
    }
  }

  /** Any `len` values in a row give each index once. */
  lemma {:induction false} OneInBlock(lo: nat, len: nat, r: nat)
    requires r < len
    ensures Count(lo, lo + len, len, r) == 1
  {
    hide Count;
    if lo == 0 {
      CountFirst(len, len, r);
    } else {
      OneInBlock(lo - 1, len, r);
      CountJoin(lo - 1, lo, lo + len, len, r);
      CountJoin(lo - 1, lo - 1 + len, lo + len, len, r);
      CountOne(lo - 1, len, r);
      CountOne(lo - 1 + len, len, r);
      NextRound(lo - 1, len);
    }
  }

  lemma CountOne(k: nat, len: nat, r: nat)
    requires len > 0
    ensures Count(k, k + 1, len, r) == if k % len == r then 1 else 0
  {}

  lemma NextRound(k: nat, len: nat)
    requires len > 0
    ensures (k + len) % len == k % len
  {
    Quotient(k + len, len, k / len + 1, k % len);
  }

  lemma {:induction false} BlocksCount(lo: nat, n: nat, len: nat, r: nat)
    requires r < len
    ensures Count(lo, lo + n * len, len, r) == n
    decreases n
  {
    if n > 0 {
      BlocksCount(lo, n - 1, len, r);
      assert (n - 1) * len + len == n * len;
      CountJoin(lo, lo + (n - 1) * len, lo + n * len, len, r);
      OneInBlock(lo + (n - 1) * len, len, r);
    }
  }

  /** Every index has the same number of accepted values. */
  lemma Unbiased(len: nat, r: nat)
    requires 0 < len < U64 && r < len
    ensures Count(Minimum(len), 0x1_0000_0000_0000_0000, len, r) == 0x1_0000_0000_0000_0000 / len
  {
    MinimumIsRemainder(len);
    BlocksCount(Minimum(len), U64 / len, len, r);
  }

  /** Accepting every value would favour the low indexes, unless `len` divides 2^64. */
  lemma BiasedWithoutRejection(len: nat, r: nat)
    requires 0 < len < U64 && r < len
    ensures Count(0, 0x1_0000_0000_0000_0000, len, r) == 0x1_0000_0000_0000_0000 / len + if r < 0x1_0000_0000_0000_0000 % len then 1 else 0
  {
    MinimumIsRemainder(len);
    CountJoin(0, Minimum(len), U64, len, r);
    Unbiased(len, r);
    CountFirst(Minimum(len), len, r);
  }

  /** The value of the first retry that is accepted. */
  ghost predicate FirstAccepted(score: nat -> nat, len: nat, k: nat)
    requires 0 < len < U64
  {
    score(k) >= Minimum(len) && forall j: nat :: j < k ==> score(j) < Minimum(len)
  }

  /** `index_u64`, given that one of the hash values is accepted at all. */
  method IndexU64(score: nat -> nat, len: nat, ghost last: nat) returns (index: nat, ghost k: nat)
    requires 0 < len < U64 && score(last) >= Minimum(len)
    ensures FirstAccepted(score, len, k) && index == score(k) % len && index < len
  {
    var minimum := WrappingNeg(len) % len;
    var retry: nat := 0;
    while true
      invariant retry <= last && forall j: nat :: j < retry ==> score(j) < minimum
      decreases last - retry
    {
      var value := score(retry);
      if value >= minimum {
        return value % len, retry;
      }
      retry := retry + 1;
    }
  }

  // ----- pairs of distinct indexes

  /** The clique probe's second index steps over the first. */
  function Shift(left: nat, right: nat): nat {
    if right >= left then right + 1 else right
  }

  function Unshift(left: nat, other: nat): nat
    requires other != left
  {
    if other > left then other - 1 else other
  }

  /** The probe's draws correspond one to one to the ordered pairs of distinct indexes. */
  lemma ShiftIsBijection(len: nat, left: nat, right: nat, other: nat)
    requires left < len
    ensures right < len - 1 ==> Shift(left, right) < len && Shift(left, right) != left && Unshift(left, Shift(left, right)) == right
    ensures other < len && other != left ==> Unshift(left, other) < len - 1 && Shift(left, Unshift(left, other)) == other
  {}
}
