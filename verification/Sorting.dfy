/** Comparison sorting, standing in for the library sorts the modelled code calls.
    The sort is stable, so it serves both `sort_by` and `sort_unstable`. */
module Sorting {

  ghost predicate TotalPreorder<T(!new)>(leq: (T, T) -> bool) {
    && (forall x, y :: leq(x, y) || leq(y, x))
    && (forall x, y, z :: leq(x, y) && leq(y, z) ==> leq(x, z))
  }

  ghost predicate TotalOrder<T(!new)>(leq: (T, T) -> bool) {
    && TotalPreorder(leq)
    && (forall x, y :: leq(x, y) && leq(y, x) ==> x == y)
  }

  ghost predicate Ordered<T>(leq: (T, T) -> bool, s: seq<T>) {
    forall i, j :: 0 <= i < j < |s| ==> leq(s[i], s[j])
  }

  ghost predicate Distinct<T>(s: seq<T>) {
    forall i, j :: 0 <= i < j < |s| ==> s[i] != s[j]
  }

  predicate NatLeq(x: nat, y: nat) {
    x <= y
  }

  /** Lexicographic order. */
  predicate PairLeq(x: (nat, nat), y: (nat, nat)) {
    x.0 < y.0 || (x.0 == y.0 && x.1 <= y.1)
  }

  lemma PairOrder()
    ensures TotalOrder(PairLeq)
  {}

  predicate Increasing(s: seq<nat>) {
    forall i, j :: 0 <= i < j < |s| ==> s[i] < s[j]
  }

  function Insert<T>(leq: (T, T) -> bool, x: T, s: seq<T>): (r: seq<T>)
    ensures multiset(r) == multiset(s) + multiset{x}
  {
    if s == [] then [x]
    else if leq(x, s[0]) then
      assert multiset([x] + s) == multiset{x} + multiset(s);
      [x] + s
    else
      assert s == [s[0]] + s[1..];
      [s[0]] + Insert(leq, x, s[1..])
  }

  function Sort<T>(leq: (T, T) -> bool, s: seq<T>): (r: seq<T>)
    ensures multiset(r) == multiset(s)
  {
    if s == [] then []
    else
      assert s == [s[0]] + s[1..];
      Insert(leq, s[0], Sort(leq, s[1..]))
  }

  lemma {:induction false} InsertOrdered<T(!new)>(leq: (T, T) -> bool, x: T, s: seq<T>)
    requires TotalPreorder(leq) && Ordered(leq, s)
    ensures Ordered(leq, Insert(leq, x, s))
  {
    if s != [] && !leq(x, s[0]) {
      InsertOrdered(leq, x, s[1..]);
      var r := Insert(leq, x, s[1..]);
      assert s == [s[0]] + s[1..];
      forall k | 0 <= k < |r| ensures leq(s[0], r[k]) {
        assert r[k] in multiset(r);
        if r[k] != x {
          assert r[k] in multiset(s[1..]);
          var m :| 0 <= m < |s[1..]| && s[1..][m] == r[k];
          assert s[m + 1] == r[k];
        }
      }
    } else if s != [] {
      forall k | 0 <= k < |s| ensures leq(x, s[k]) {
        assert k == 0 || leq(s[0], s[k]);
      }
    }
  }

  lemma {:induction false} SortOrdered<T(!new)>(leq: (T, T) -> bool, s: seq<T>)
    requires TotalPreorder(leq)
    ensures Ordered(leq, Sort(leq, s))
  {
    if s != [] {
      SortOrdered(leq, s[1..]);
      InsertOrdered(leq, s[0], Sort(leq, s[1..]));
    }
  }

  // ----- stability

  ghost predicate StandsBefore<T>(s: seq<T>, x: T, y: T) {
    exists i, j :: 0 <= i < j < |s| && s[i] == x && s[j] == y
  }

  lemma StandsInTail<T>(s: seq<T>, x: T, y: T)
    requires s != []
    ensures StandsBefore(s[1..], x, y) ==> StandsBefore(s, x, y)
    ensures StandsBefore(s, x, y) ==> StandsBefore(s[1..], x, y) || (x == s[0] && y in s[1..])
    ensures y in s[1..] ==> StandsBefore(s, s[0], y)
  {
    if StandsBefore(s[1..], x, y) {
      var i, j :| 0 <= i < j < |s| - 1 && s[1..][i] == x && s[1..][j] == y;
      assert s[i + 1] == x && s[j + 1] == y;
    }
    if StandsBefore(s, x, y) {
      var i, j :| 0 <= i < j < |s| && s[i] == x && s[j] == y;
      assert s[1..][j - 1] == y && (i > 0 ==> s[1..][i - 1] == x);
    }
    if y in s[1..] {
      var j :| 0 <= j < |s| - 1 && s[1..][j] == y;
      assert s[j + 1] == y;
    }
  }

  /** An element goes in before those it is not greater than, and changes no order. */
  lemma {:induction false} InsertStable<T(!new)>(leq: (T, T) -> bool, x: T, s: seq<T>, a: T, b: T)
    ensures b in s && leq(x, b) ==> StandsBefore(Insert(leq, x, s), x, b)
    ensures StandsBefore(s, a, b) ==> StandsBefore(Insert(leq, x, s), a, b)
  {
    hide StandsBefore;
    var r := Insert(leq, x, s);
    InsertMembers(leq, x, s, b);
    if s != [] {
      StandsInTail(s, a, b);
      StandsInTail(r, a, b);
      StandsInTail(r, x, b);
      if leq(x, s[0]) {
        assert r[1..] == s;
      } else {
        InsertStable(leq, x, s[1..], a, b);
        InsertMembers(leq, x, s[1..], b);
        assert r[1..] == Insert(leq, x, s[1..]) && r[0] == s[0];
        assert s == [s[0]] + s[1..];
      }
    } else {
      NothingStands(a, b);
    }
  }

  lemma NothingStands<T>(a: T, b: T)
    ensures !StandsBefore([], a, b)
  {}

  lemma InsertMembers<T>(leq: (T, T) -> bool, x: T, s: seq<T>, y: T)
    ensures y in Insert(leq, x, s) <==> y == x || y in s
  {
    assert y in Insert(leq, x, s) <==> y in multiset(Insert(leq, x, s));
    assert y in s <==> y in multiset(s);
  }

  /** Elements that may stand in their order keep it. */
  lemma {:induction false} SortStable<T(!new)>(leq: (T, T) -> bool, s: seq<T>, a: T, b: T)
    requires StandsBefore(s, a, b) && leq(a, b)
    ensures StandsBefore(Sort(leq, s), a, b)
  {
    hide StandsBefore;
    if s == [] {
      NothingStands(a, b);
    } else {
      StandsInTail(s, a, b);
      var rest := Sort(leq, s[1..]);
      InsertStable(leq, s[0], rest, a, b);
      PermutationMembers(rest, s[1..]);
      if StandsBefore(s[1..], a, b) {
        SortStable(leq, s[1..], a, b);
      }
    }
  }

  lemma PermutationMembers<T>(r: seq<T>, s: seq<T>)
    requires multiset(r) == multiset(s)
    ensures |r| == |s|
    ensures forall x :: x in r <==> x in s
  {
    assert |multiset(r)| == |r| && |multiset(s)| == |s|;
    forall x ensures x in r <==> x in s {
      assert x in r <==> x in multiset(r);
      assert x in s <==> x in multiset(s);
    }
  }

  lemma {:induction false} DistinctCounts<T>(s: seq<T>, x: T)
    requires Distinct(s)
    ensures multiset(s)[x] <= 1
  {
    if s != [] {
      assert s == [s[0]] + s[1..];
      DistinctCounts(s[1..], x);
      assert s[0] !in s[1..];
    }
  }

  lemma PermutationDistinct<T>(r: seq<T>, s: seq<T>)
    requires multiset(r) == multiset(s) && Distinct(s)
    ensures Distinct(r)
  {
    forall i, j | 0 <= i < j < |r| ensures r[i] != r[j] {
      if r[i] == r[j] {
        var x := r[i];
        assert r == r[..i] + [x] + r[i + 1..j] + [x] + r[j + 1..];
        assert multiset(r)[x] >= 2;
        DistinctCounts(s, x);
      }
    }
  }

  lemma {:induction false} SortSet(s: seq<nat>)
    requires Distinct(s)
    ensures Increasing(Sort(NatLeq, s))
    ensures forall x :: x in Sort(NatLeq, s) <==> x in s
  {
    var r := Sort(NatLeq, s);
    SortOrdered(NatLeq, s);
    PermutationDistinct(r, s);
    PermutationMembers(r, s);
    forall i, j | 0 <= i < j < |r| ensures r[i] < r[j] {
      assert NatLeq(r[i], r[j]);
    }
  }

  /** Removes adjacent repetitions, as `Vec::dedup` does. */
  function Dedup<T(==, !new)>(s: seq<T>): (r: seq<T>)
    ensures forall x :: x in r <==> x in s
  {
    if |s| <= 1 then s
    else if s[0] == s[1] then
      assert s == [s[0]] + s[1..];
      Dedup(s[1..])
    else
      assert s == [s[0]] + s[1..];
      [s[0]] + Dedup(s[1..])
  }

  lemma {:induction false} DedupOrdered<T(!new)>(leq: (T, T) -> bool, s: seq<T>)
    requires TotalOrder(leq) && Ordered(leq, s)
    ensures Ordered(leq, Dedup(s)) && Distinct(Dedup(s))
  {
    if |s| > 1 {
      DedupOrdered(leq, s[1..]);
      if s[0] != s[1] {
        var r := Dedup(s[1..]);
        forall k | 0 <= k < |r| ensures leq(s[0], r[k]) && s[0] != r[k] {
          assert r[k] in s[1..];
          var m :| 0 <= m < |s[1..]| && s[1..][m] == r[k];
          assert s[m + 1] == r[k] && leq(s[0], s[1]) && (m == 0 || leq(s[1], s[m + 1]));
        }
      }
    }
  }

  // ----- sorted sets

  ghost predicate SortedOf<T(!new)>(leq: (T, T) -> bool, s: seq<T>, members: set<T>) {
    Ordered(leq, s) && Distinct(s) && forall x :: x in s <==> x in members
  }

  lemma {:induction false} SortedPrefix<T(!new)>(leq: (T, T) -> bool, a: seq<T>, b: seq<T>, k: nat)
    requires TotalOrder(leq) && Ordered(leq, a) && Distinct(a) && Ordered(leq, b) && Distinct(b)
    requires (forall x :: x in a <==> x in b) && k <= |a|
    ensures k <= |b| && a[..k] == b[..k]
  {
    if k > 0 {
      SortedPrefix(leq, a, b, k - 1);
      assert a[k - 1] in b && a[..k - 1] == b[..k - 1];
      NextIsSmallest(leq, a, b, k - 1);
      NextIsSmallest(leq, b, a, k - 1);
      assert a[..k] == a[..k - 1] + [a[k - 1]] && b[..k] == b[..k - 1] + [b[k - 1]];
    }
  }

  lemma NextIsSmallest<T(!new)>(leq: (T, T) -> bool, a: seq<T>, b: seq<T>, k: nat)
    requires TotalOrder(leq) && Distinct(a) && Ordered(leq, b) && (forall x :: x in a <==> x in b)
    requires k < |a| && k <= |b| && a[..k] == b[..k]
    ensures k < |b| && leq(b[k], a[k])
  {
    assert a[k] in b;
    var j :| 0 <= j < |b| && b[j] == a[k];
    forall i | 0 <= i < k ensures b[i] != a[k] {
      assert a[..k][i] == b[..k][i];
    }
    assert j == k || leq(b[k], b[j]);
  }

  /** A set has one sorted list. */
  lemma SortedUnique<T(!new)>(leq: (T, T) -> bool, a: seq<T>, b: seq<T>, members: set<T>)
    requires TotalOrder(leq) && SortedOf(leq, a, members) && SortedOf(leq, b, members)
    ensures a == b
  {
    SortedPrefix(leq, a, b, |a|);
    SortedPrefix(leq, b, a, |b|);
    assert a[..|a|] == a && b[..|b|] == b;
  }

  /** The members of a hash set or the keys of a hash map, in whatever order they come. */
  method Collect<T(!new)>(members: set<T>) returns (drained: seq<T>)
    ensures Distinct(drained) && forall x :: x in drained <==> x in members
  {
    drained := [];
    var todo := members;
    while todo != {}
      invariant todo <= members && Distinct(drained) && forall x :: x in drained <==> x in members && x !in todo
    {
      var x :| x in todo;
      drained := drained + [x];
      todo := todo - {x};
    }
  }

  /** Collects a set, in whatever order it comes, and sorts it. */
  method SortSetBy<T(!new)>(leq: (T, T) -> bool, members: set<T>) returns (s: seq<T>)
    requires TotalOrder(leq)
    ensures SortedOf(leq, s, members)
  {
    var drained := Collect(members);
    s := Sort(leq, drained);
    SortOrdered(leq, drained);
    PermutationDistinct(s, drained);
    PermutationMembers(s, drained);
  }
}
