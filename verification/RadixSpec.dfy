/** What one stable counting pass and a whole least-significant-digit sort produce, and
    why the result is ordered by the full key. */
module RadixSpec {
  import opened Arithmetic

  const RADIX_SIZE: nat := 2048

  /** Digit `pass` of a value. */
  type Digits<!T> = (nat, T) -> nat

  ghost predicate InRange<T(!new)>(digits: Digits<T>, size: nat) {
    forall p: nat, x: T :: digits(p, x) < size
  }

  // ----- one pass

  /** The elements with digit `b`, in order. */
  function Bucket<T>(s: seq<T>, digits: Digits<T>, p: nat, b: nat): (r: seq<T>)
    ensures |r| <= |s|
  {
    if s == [] then []
    else
      var m := |s| - 1;
      Bucket(s[..m], digits, p, b) + if digits(p, s[m]) == b then [s[m]] else []
  }

  /** The buckets below `n`, one after the other. */
  function Bucketed<T>(s: seq<T>, digits: Digits<T>, p: nat, n: nat): seq<T> {
    if n == 0 then [] else Bucketed(s, digits, p, n - 1) + Bucket(s, digits, p, n - 1)
  }

  function Equal<T>(s: seq<T>, digits: Digits<T>, p: nat, b: nat): nat {
    |Bucket(s, digits, p, b)|
  }

  /** How many elements have a digit below `b`. */
  function Below<T>(s: seq<T>, digits: Digits<T>, p: nat, b: nat): nat {
    |Bucketed(s, digits, p, b)|
  }

  /** Where element `i` goes: after the smaller digits and the earlier equal ones. */
  function Slot<T>(s: seq<T>, digits: Digits<T>, p: nat, i: nat): nat
    requires i < |s|
  {
    Below(s, digits, p, digits(p, s[i])) + Equal(s[..i], digits, p, digits(p, s[i]))
  }

  lemma {:induction false} BucketSlot<T>(s: seq<T>, digits: Digits<T>, p: nat, i: nat)
    requires i < |s|
    ensures var b := digits(p, s[i]);
            Equal(s[..i], digits, p, b) < Equal(s, digits, p, b)
            && Bucket(s, digits, p, b)[Equal(s[..i], digits, p, b)] == s[i]
  {
    var m := |s| - 1;
    if i < m {
      BucketSlot(s[..m], digits, p, i);
      assert s[..m][..i] == s[..i];
    }
  }

  lemma {:induction false} BelowMonotone<T>(s: seq<T>, digits: Digits<T>, p: nat, b: nat, c: nat)
    requires b <= c
    ensures Below(s, digits, p, b) <= Below(s, digits, p, c)
    ensures Bucketed(s, digits, p, c)[..Below(s, digits, p, b)] == Bucketed(s, digits, p, b)
    decreases c
  {
    if b < c {
      BelowMonotone(s, digits, p, b, c - 1);
    }
  }

  /** Element `i` is at its slot, inside its own bucket. */
  lemma SlotInBucket<T>(s: seq<T>, digits: Digits<T>, p: nat, i: nat)
    requires i < |s|
    ensures var b := digits(p, s[i]);
            Slot(s, digits, p, i) < Below(s, digits, p, b + 1)
            && Bucketed(s, digits, p, b + 1)[Slot(s, digits, p, i)] == s[i]
  {
    hide Bucket;
    var b := digits(p, s[i]);
    BucketSlot(s, digits, p, i);
    assert Bucketed(s, digits, p, b + 1) == Bucketed(s, digits, p, b) + Bucket(s, digits, p, b);
  }

  lemma SlotHolds<T>(s: seq<T>, digits: Digits<T>, p: nat, n: nat, i: nat)
    requires i < |s| && digits(p, s[i]) < n
    ensures Slot(s, digits, p, i) < Below(s, digits, p, n)
    ensures Bucketed(s, digits, p, n)[Slot(s, digits, p, i)] == s[i]
  {
    hide Bucket, Bucketed, Slot;
    SlotInBucket(s, digits, p, i);
    BelowMonotone(s, digits, p, digits(p, s[i]) + 1, n);
  }

  lemma {:induction false} EqualMonotone<T>(s: seq<T>, digits: Digits<T>, p: nat, b: nat, i: nat, j: nat)
    requires i <= j <= |s|
    ensures Equal(s[..i], digits, p, b) <= Equal(s[..j], digits, p, b)
    decreases j - i
  {
    if i < j {
      EqualMonotone(s, digits, p, b, i, j - 1);
      assert s[..j][..j - 1] == s[..j - 1];
    }
  }

  /** No two elements share a slot. */
  lemma SlotInjective<T>(s: seq<T>, digits: Digits<T>, p: nat, i: nat, j: nat)
    requires i < |s| && j < |s| && i != j
    ensures Slot(s, digits, p, i) != Slot(s, digits, p, j)
  {
    if digits(p, s[i]) == digits(p, s[j]) {
      SameDigitSlots(s, digits, p, i, j);
      SameDigitSlots(s, digits, p, j, i);
    } else {
      OtherDigitSlots(s, digits, p, i, j);
      OtherDigitSlots(s, digits, p, j, i);
    }
  }

  lemma SameDigitSlots<T>(s: seq<T>, digits: Digits<T>, p: nat, i: nat, j: nat)
    requires i < |s| && j < |s| && digits(p, s[i]) == digits(p, s[j])
    ensures i < j ==> Slot(s, digits, p, i) < Slot(s, digits, p, j)
  {
    if i < j {
      EqualMonotone(s, digits, p, digits(p, s[i]), i + 1, j);
      assert s[..i + 1][..i] == s[..i];
    }
  }

  lemma OtherDigitSlots<T>(s: seq<T>, digits: Digits<T>, p: nat, i: nat, j: nat)
    requires i < |s| && j < |s|
    ensures digits(p, s[i]) < digits(p, s[j]) ==> Slot(s, digits, p, i) < Slot(s, digits, p, j)
  {
    hide Bucket, Bucketed;
    if digits(p, s[i]) < digits(p, s[j]) {
      SlotInBucket(s, digits, p, i);
      BelowMonotone(s, digits, p, digits(p, s[i]) + 1, digits(p, s[j]));
    }
  }

  lemma {:induction false} BucketedPermutes<T>(s: seq<T>, digits: Digits<T>, p: nat, n: nat)
    requires forall x :: x in s ==> digits(p, x) < n
    ensures multiset(Bucketed(s, digits, p, n)) == multiset(s)
  {
    if s == [] {
      BucketedEmpty(s, digits, p, n);
    } else {
      var m := |s| - 1;
      assert s == s[..m] + [s[m]];
      BucketedPermutes(s[..m], digits, p, n);
      BucketedOneMore(s, digits, p, n);
    }
  }

  lemma {:induction false} BucketedEmpty<T>(s: seq<T>, digits: Digits<T>, p: nat, n: nat)
    requires s == []
    ensures Bucketed(s, digits, p, n) == []
  {
    if n > 0 {
      BucketedEmpty(s, digits, p, n - 1);
    }
  }

  lemma {:induction false} BucketedOneMore<T>(s: seq<T>, digits: Digits<T>, p: nat, n: nat)
    requires s != []
    ensures var m := |s| - 1;
            multiset(Bucketed(s, digits, p, n)) == multiset(Bucketed(s[..m], digits, p, n))
              + if digits(p, s[m]) < n then multiset{s[m]} else multiset{}
  {
    hide Bucket, Bucketed;
    var m := |s| - 1;
    if n == 0 {
      NoBuckets(s, digits, p);
      NoBuckets(s[..m], digits, p);
    } else {
      BucketedJoin(s, digits, p, n);
      BucketedJoin(s[..m], digits, p, n);
      BucketedOneMore(s, digits, p, n - 1);
      BucketOneMore(s, digits, p, n - 1);
    }
  }

  lemma NoBuckets<T>(s: seq<T>, digits: Digits<T>, p: nat)
    ensures multiset(Bucketed(s, digits, p, 0)) == multiset{}
  {}

  lemma BucketOneMore<T>(s: seq<T>, digits: Digits<T>, p: nat, b: nat)
    requires s != []
    ensures var m := |s| - 1;
            multiset(Bucket(s, digits, p, b)) == multiset(Bucket(s[..m], digits, p, b))
              + if digits(p, s[m]) == b then multiset{s[m]} else multiset{}
  {}

  lemma BucketedJoin<T>(s: seq<T>, digits: Digits<T>, p: nat, n: nat)
    requires n > 0
    ensures multiset(Bucketed(s, digits, p, n)) ==
            multiset(Bucketed(s, digits, p, n - 1)) + multiset(Bucket(s, digits, p, n - 1))
  {}

  /** Every position is some element's slot. */
  lemma {:induction false} SlotOnto<T>(s: seq<T>, digits: Digits<T>, p: nat, n: nat, q: nat) returns (i: nat)
    requires q < Below(s, digits, p, n)
    ensures i < |s| && digits(p, s[i]) < n && Slot(s, digits, p, i) == q
  {
    if q < Below(s, digits, p, n - 1) {
      i := SlotOnto(s, digits, p, n - 1, q);
    } else {
      i := BucketOnto(s, digits, p, n - 1, q - Below(s, digits, p, n - 1));
    }
  }

  lemma {:induction false} BucketOnto<T>(s: seq<T>, digits: Digits<T>, p: nat, b: nat, r: nat) returns (i: nat)
    requires r < Equal(s, digits, p, b)
    ensures i < |s| && digits(p, s[i]) == b && Equal(s[..i], digits, p, b) == r
  {
    var m := |s| - 1;
    if r < Equal(s[..m], digits, p, b) {
      i := BucketOnto(s[..m], digits, p, b, r);
      assert s[..m][..i] == s[..i];
    } else {
      i := m;
    }
  }

  /** An array that holds each element at its slot holds the stable pass. */
  lemma SlotsDecide<T>(s: seq<T>, digits: Digits<T>, p: nat, n: nat, d: seq<T>)
    requires forall x :: x in s ==> digits(p, x) < n
    requires |d| == |s|
    requires forall i :: 0 <= i < |s| ==> Slot(s, digits, p, i) < |d| && d[Slot(s, digits, p, i)] == s[i]
    ensures d == Bucketed(s, digits, p, n)
  {
    var r := Bucketed(s, digits, p, n);
    BucketedPermutes(s, digits, p, n);
    assert |multiset(r)| == |r| && |multiset(s)| == |s|;
    forall q | 0 <= q < |d| ensures d[q] == r[q] {
      var i := SlotOnto(s, digits, p, n, q);
      SlotHolds(s, digits, p, n, i);
    }
  }

  // ----- all the passes

  /** The state after the first `k` passes. */
  function Lsd<T>(s: seq<T>, digits: Digits<T>, k: nat): seq<T> {
    if k == 0 then s else Bucketed(Lsd(s, digits, k - 1), digits, k - 1, RADIX_SIZE)
  }

  /** Order by the first `k` digits, the last of them first. */
  predicate DigitLeq<T>(digits: Digits<T>, k: nat, x: T, y: T) {
    k == 0
    || digits(k - 1, x) < digits(k - 1, y)
    || (digits(k - 1, x) == digits(k - 1, y) && DigitLeq(digits, k - 1, x, y))
  }

  predicate SameDigits<T>(digits: Digits<T>, k: nat, x: T, y: T) {
    forall p :: 0 <= p < k ==> digits(p, x) == digits(p, y)
  }

  /** The elements that agree with `x` on the first `k` digits, in order. */
  function Class<T>(s: seq<T>, digits: Digits<T>, k: nat, x: T): seq<T> {
    if s == [] then []
    else
      var m := |s| - 1;
      Class(s[..m], digits, k, x) + if SameDigits(digits, k, x, s[m]) then [s[m]] else []
  }

  ghost predicate DigitOrdered<T>(s: seq<T>, digits: Digits<T>, k: nat) {
    forall i, j :: 0 <= i < j < |s| ==> DigitLeq(digits, k, s[i], s[j])
  }

  /** `r` is `s` stably ordered by its first `k` digits. */
  ghost predicate StablyOrdered<T(!new)>(s: seq<T>, r: seq<T>, digits: Digits<T>, k: nat) {
    && multiset(r) == multiset(s)
    && DigitOrdered(r, digits, k)
    && forall x :: Class(r, digits, k, x) == Class(s, digits, k, x)
  }

  lemma {:induction false} ClassJoin<T>(a: seq<T>, b: seq<T>, digits: Digits<T>, k: nat, x: T)
    ensures Class(a + b, digits, k, x) == Class(a, digits, k, x) + Class(b, digits, k, x)
  {
    if b == [] {
      assert a + b == a;
    } else {
      var m := |b| - 1;
      assert (a + b)[..|a + b| - 1] == a + b[..m];
      ClassJoin(a, b[..m], digits, k, x);
    }
  }

  /** A class lies within one bucket, in its old order. */
  lemma {:induction false} BucketClass<T>(s: seq<T>, digits: Digits<T>, p: nat, b: nat, x: T)
    ensures Class(Bucket(s, digits, p, b), digits, p + 1, x)
            == if digits(p, x) == b then Class(s, digits, p + 1, x) else []
  {
    if s != [] {
      var m := |s| - 1;
      BucketClass(s[..m], digits, p, b, x);
      var last := if digits(p, s[m]) == b then [s[m]] else [];
      ClassJoin(Bucket(s[..m], digits, p, b), last, digits, p + 1, x);
      assert SameDigits(digits, p + 1, x, s[m]) ==> digits(p, x) == digits(p, s[m]);
      assert last == [s[m]] ==> last[..0] == [];
    }
  }

  lemma {:induction false} BucketedClass<T>(s: seq<T>, digits: Digits<T>, p: nat, n: nat, x: T)
    ensures Class(Bucketed(s, digits, p, n), digits, p + 1, x)
            == if digits(p, x) < n then Class(s, digits, p + 1, x) else []
  {
    hide Bucket, Class;
    if n == 0 {
      ClassOfNone(digits, p + 1, x);
    } else {
      BucketedClass(s, digits, p, n - 1, x);
      BucketClass(s, digits, p, n - 1, x);
      ClassJoin(Bucketed(s, digits, p, n - 1), Bucket(s, digits, p, n - 1), digits, p + 1, x);
    }
  }

  lemma ClassOfNone<T>(digits: Digits<T>, k: nat, x: T)
    ensures Class([], digits, k, x) == []
  {}

  lemma {:induction false} ClassRefines<T>(s: seq<T>, digits: Digits<T>, k: nat, x: T)
    ensures Class(Class(s, digits, k, x), digits, k + 1, x) == Class(s, digits, k + 1, x)
  {
    if s != [] {
      var m := |s| - 1;
      ClassRefines(s[..m], digits, k, x);
      var last := if SameDigits(digits, k, x, s[m]) then [s[m]] else [];
      ClassJoin(Class(s[..m], digits, k, x), last, digits, k + 1, x);
      assert last == [s[m]] ==> last[..0] == [];
    }
  }

  lemma {:induction false} BucketMembers<T>(s: seq<T>, digits: Digits<T>, p: nat, b: nat, y: T)
    ensures y in Bucket(s, digits, p, b) ==> y in s && digits(p, y) == b
  {
    if s != [] {
      BucketMembers(s[..|s| - 1], digits, p, b, y);
    }
  }

  lemma {:induction false} BucketedMembers<T>(s: seq<T>, digits: Digits<T>, p: nat, n: nat, y: T)
    ensures y in Bucketed(s, digits, p, n) ==> digits(p, y) < n
  {
    hide Bucket;
    if n > 0 {
      BucketedMembers(s, digits, p, n - 1, y);
      BucketMembers(s, digits, p, n - 1, y);
    }
  }

  lemma {:induction false} BucketOrdered<T>(s: seq<T>, digits: Digits<T>, k: nat, p: nat, b: nat)
    requires DigitOrdered(s, digits, k)
    ensures DigitOrdered(Bucket(s, digits, p, b), digits, k)
  {
    if s != [] {
      var m := |s| - 1;
      BucketOrdered(s[..m], digits, k, p, b);
      var rest := Bucket(s[..m], digits, p, b);
      forall i | 0 <= i < |rest| ensures DigitLeq(digits, k, rest[i], s[m]) {
        BucketMembers(s[..m], digits, p, b, rest[i]);
        var j :| 0 <= j < m && s[j] == rest[i];
      }
    }
  }

  lemma {:induction false} BucketedOrdered<T>(s: seq<T>, digits: Digits<T>, p: nat, n: nat)
    requires DigitOrdered(s, digits, p)
    ensures DigitOrdered(Bucketed(s, digits, p, n), digits, p + 1)
  {
    hide Bucket, DigitLeq;
    if n > 0 {
      BucketedOrdered(s, digits, p, n - 1);
      BucketOrdered(s, digits, p, p, n - 1);
      var low, high := Bucketed(s, digits, p, n - 1), Bucket(s, digits, p, n - 1);
      forall i | 0 <= i < |high| ensures digits(p, high[i]) == n - 1 {
        BucketMembers(s, digits, p, n - 1, high[i]);
      }
      forall i | 0 <= i < |low| ensures digits(p, low[i]) < n - 1 {
        BucketedMembers(s, digits, p, n - 1, low[i]);
      }
      JoinOrdered(low, high, digits, p);
    }
  }

  lemma JoinOrdered<T>(low: seq<T>, high: seq<T>, digits: Digits<T>, p: nat)
    requires DigitOrdered(low, digits, p + 1) && DigitOrdered(high, digits, p)
    requires forall i, j :: 0 <= i < |high| && 0 <= j < |high| ==> digits(p, high[i]) == digits(p, high[j])
    requires forall i, j :: 0 <= i < |low| && 0 <= j < |high| ==> digits(p, low[i]) < digits(p, high[j])
    ensures DigitOrdered(low + high, digits, p + 1)
  {}

  lemma PassKeepsClass<T(!new)>(s: seq<T>, r: seq<T>, digits: Digits<T>, p: nat, x: T)
    requires Class(r, digits, p, x) == Class(s, digits, p, x) && digits(p, x) < RADIX_SIZE
    ensures Class(Bucketed(r, digits, p, RADIX_SIZE), digits, p + 1, x) == Class(s, digits, p + 1, x)
  {
    hide Bucketed, Class;
    BucketedClass(r, digits, p, RADIX_SIZE, x);
    ClassRefines(r, digits, p, x);
    ClassRefines(s, digits, p, x);
  }

  /** A pass over digit `p` takes a sequence stably ordered by the digits before it to
      one stably ordered by that digit as well. */
  lemma PassStablyOrders<T(!new)>(s: seq<T>, r: seq<T>, digits: Digits<T>, p: nat)
    requires InRange(digits, RADIX_SIZE) && StablyOrdered(s, r, digits, p)
    ensures StablyOrdered(s, Bucketed(r, digits, p, RADIX_SIZE), digits, p + 1)
  {
    hide Bucketed, Class;
    var r', q := Bucketed(r, digits, p, RADIX_SIZE), p + 1;
    BucketedPermutes(r, digits, p, RADIX_SIZE);
    BucketedOrdered(r, digits, p, RADIX_SIZE);
    forall x ensures Class(r', digits, q, x) == Class(s, digits, q, x) {
      PassKeepsClass(s, r, digits, p, x);
    }
  }

  /** The sort after any number of passes: a permutation, ordered by the digits used so
      far, with equal elements in their old order. */
  lemma {:induction false} LsdStablyOrders<T(!new)>(s: seq<T>, digits: Digits<T>, k: nat)
    requires InRange(digits, RADIX_SIZE)
    ensures StablyOrdered(s, Lsd(s, digits, k), digits, k)
  {
    hide Bucketed, Class;
    if k > 0 {
      LsdStablyOrders(s, digits, k - 1);
      PassStablyOrders(s, Lsd(s, digits, k - 1), digits, k - 1);
    }
  }

  // ----- digits of a number

  /** `2048` to the power `k`. */
  function Weight(k: nat): (w: nat)
    ensures w > 0
  {
    if k == 0 then 1 else RADIX_SIZE * Weight(k - 1)
  }

  /** Eleven bits of `value`, shifted down by `11 * k`. */
  function Digit(value: nat, k: nat): (d: nat)
    ensures d < RADIX_SIZE
  {
    value / Weight(k) % RADIX_SIZE
  }

  lemma SplitMod(x: nat, w: nat)
    requires w > 0
    ensures x % (RADIX_SIZE * w) == (x / w % RADIX_SIZE) * w + x % w
  {
    var q, r := x / w, x % w;
    var h, d := q / RADIX_SIZE, q % RADIX_SIZE;
    Expand(h, d, w);
    AtMost(d, w);
    Quotient(x, RADIX_SIZE * w, h, d * w + r);
  }

  lemma Expand(h: nat, d: nat, w: nat)
    ensures (RADIX_SIZE * h + d) * w == h * (RADIX_SIZE * w) + d * w
  {}

  lemma AtMost(d: nat, w: nat)
    requires d < RADIX_SIZE
    ensures 0 <= d * w <= RADIX_SIZE * w - w
  {
    var e := RADIX_SIZE - 1 - d;
    Product(d, w);
    Product(e, w);
    assert (d + e) * w == d * w + e * w;
  }

  lemma Product(a: nat, b: nat)
    ensures a * b >= 0
  {}

  ghost predicate Spells<T>(digits: Digits<T>, m: nat, k: nat, x: T, fx: nat) {
    forall p: nat {:trigger Digit(fx, p)} :: p < k ==> digits(m + p, x) == Digit(fx, p)
  }

  /** A comparison on digits `m .. m + k` of a key is a comparison on the number they
      spell, with the digits before `m` breaking ties. */
  lemma {:induction false} DigitsSpell<T>(digits: Digits<T>, m: nat, k: nat, x: T, y: T, fx: nat, fy: nat)
    requires Spells(digits, m, k, x, fx) && Spells(digits, m, k, y, fy)
    ensures DigitLeq(digits, m + k, x, y) <==>
              fx % Weight(k) < fy % Weight(k)
              || (fx % Weight(k) == fy % Weight(k) && DigitLeq(digits, m, x, y))
  {
    if k > 0 {
      var w := Weight(k - 1);
      DigitsSpell(digits, m, k - 1, x, y, fx, fy);
      assert digits(m + k - 1, x) == Digit(fx, k - 1) && digits(m + k - 1, y) == Digit(fy, k - 1);
      SplitMod(fx, w);
      SplitMod(fy, w);
      HighDigitFirst(Digit(fx, k - 1), fx % w, Digit(fy, k - 1), fy % w, w);
    }
  }

  lemma HighDigitFirst(a: nat, r: nat, b: nat, q: nat, w: nat)
    requires r < w && q < w
    ensures a * w + r < b * w + q <==> a < b || (a == b && r < q)
    ensures a * w + r == b * w + q <==> a == b && r == q
  {
    Multiples(b - a, w);
    Multiples(a - b, w);
    assert (b - a) * w == b * w - a * w;
  }

  lemma Widths()
    ensures Weight(3) == 0x2_0000_0000
    ensures Weight(6) == 0x4_0000_0000_0000_0000
  {}
}
