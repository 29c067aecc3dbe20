/** Building the postings of a dimension, and cutting them into the groups of one URI. */
module UriPostings {
  import opened Wrappers
  import opened Sorting
  import opened UriSpec
  import opened RadixSorts

  // ----- building

  ghost predicate IdsFit(t: Table) {
    && |t.nfts| <= U32 && |t.chainOf| <= U32
    && (forall n, d: Dimension :: 0 <= n < |t.nfts| && t.nfts[n].Uri(d).Some? ==> t.nfts[n].Uri(d).value < U32)
  }

  ghost predicate IsTuple(t: Table, d: Dimension, x: Triple) {
    x.2 < |t.nfts| && t.nfts[x.2].Uri(d) == Some(x.0) && t.nfts[x.2].contract == x.1
  }

  predicate SameKey(x: Triple, y: Triple) {
    x.0 == y.0 && x.1 == y.1
  }

  predicate KeyLess(x: Triple, y: Triple) {
    x.0 < y.0 || (x.0 == y.0 && x.1 < y.1)
  }

  /** The sorted tuples of a dimension: every NFT that has a URI, once. */
  ghost predicate Tuples(t: Table, d: Dimension, s: seq<Triple>) {
    && Ordered(TripleLeq, s) && Distinct(s)
    && forall x :: x in s <==> IsTuple(t, d, x)
  }

  method UriTuples(t: Table, d: Dimension) returns (tuples: seq<Triple>)
    requires WellFormed(t)
    ensures Distinct(tuples) && forall x :: x in tuples <==> IsTuple(t, d, x)
  {
    tuples := [];
    for n: nat := 0 to |t.nfts|
      invariant Distinct(tuples)
      invariant forall x: Triple :: x in tuples <==> IsTuple(t, d, x) && x.2 < n
    {
      match t.nfts[n].Uri(d) {
        case None =>
        case Some(uri) =>
          assert forall i :: 0 <= i < |tuples| ==> tuples[i] in tuples;
          tuples := tuples + [(uri, t.nfts[n].contract, n)];
      }
    }
  }

  /** A tuple of another key before or after `index` has a smaller or greater key. */
  lemma KeysApart(s: seq<Triple>, i: nat, j: nat)
    requires Ordered(TripleLeq, s) && i < j < |s| && !SameKey(s[i], s[j])
    ensures forall k, m :: 0 <= k <= i && j <= m < |s| ==> KeyLess(s[k], s[m])
  {}

  /** The tuples between two changes of key make the posting of that key. */
  lemma OnePosting(t: Table, d: Dimension, s: seq<Triple>, index: nat, end: nat)
    requires WellFormed(t) && Tuples(t, d, s) && index < end <= |s|
    requires forall k :: index <= k < end ==> SameKey(s[k], s[index])
    requires forall k :: 0 <= k < index ==> KeyLess(s[k], s[index])
    requires forall k :: end <= k < |s| ==> KeyLess(s[index], s[k])
    ensures PostingOf(t, d, Gathered(t, s, index, end))
  {
    var p := Gathered(t, s, index, end);
    assert s[index] in s;
    forall n ensures n in p.nfts <==> 0 <= n < |t.nfts| && t.nfts[n].contract == p.contract && t.nfts[n].Uri(d) == Some(p.uri) {
      if n in p.nfts {
        var k :| 0 <= k < |p.nfts| && p.nfts[k] == n;
        assert s[index + k] in s;
      }
      if 0 <= n < |t.nfts| && t.nfts[n].contract == p.contract && t.nfts[n].Uri(d) == Some(p.uri) {
        assert IsTuple(t, d, (p.uri, p.contract, n));
        var k :| 0 <= k < |s| && s[k] == (p.uri, p.contract, n);
        assert index <= k < end;
        assert p.nfts[k - index] == n;
      }
    }
    forall a, b | 0 <= a < b < |p.nfts| ensures p.nfts[a] != p.nfts[b] {
      assert s[index + a] != s[index + b] && SameKey(s[index + a], s[index]) && SameKey(s[index + b], s[index]);
    }
  }

  ghost function Gathered(t: Table, s: seq<Triple>, index: nat, end: nat): Posting
    requires WellFormed(t) && index < end <= |s|
  {
    Posting(s[index].1, if s[index].1 < |t.chainOf| then t.chainOf[s[index].1] else 0, s[index].0,
            seq(end - index, k requires 0 <= k < end - index => s[index + k].2))
  }

  /** The postings made so far stand for the tuples up to `index`. */
  ghost predicate Gathering(t: Table, d: Dimension, s: seq<Triple>, ps: seq<Posting>, index: nat)
    requires WellFormed(t)
  {
    && index <= |s|
    && (forall i :: 0 <= i < |ps| ==> PostingOf(t, d, ps[i]))
    && (forall i, j :: 0 <= i < j < |ps| ==> PostingLess(ps[i], ps[j]))
    && (forall i, k :: 0 <= i < |ps| && index <= k < |s| ==> KeyLess((ps[i].uri, ps[i].contract, 0), s[k]))
    && (forall k :: 0 <= k < index ==> Listed(ps, s[k].1, s[k].0))
    && (forall k, m :: 0 <= k < index <= m < |s| ==> KeyLess(s[k], s[m]))
  }

  lemma GatherStep(t: Table, d: Dimension, s: seq<Triple>, ps: seq<Posting>, index: nat, end: nat)
    requires WellFormed(t) && Tuples(t, d, s) && Gathering(t, d, s, ps, index) && index < end <= |s|
    requires forall k :: index <= k < end ==> SameKey(s[k], s[index])
    requires end < |s| ==> !SameKey(s[end], s[index])
    ensures Gathering(t, d, s, ps + [Gathered(t, s, index, end)], end)
  {
    if end < |s| {
      KeysApart(s, end - 1, end);
    }
    OnePosting(t, d, s, index, end);
    var qs := ps + [Gathered(t, s, index, end)];
    forall k | 0 <= k < end ensures Listed(qs, s[k].1, s[k].0) {
      if k < index {
        var i :| 0 <= i < |ps| && ps[i].contract == s[k].1 && ps[i].uri == s[k].0;
        assert qs[i] == ps[i];
      } else {
        assert SameKey(s[k], s[index]) && qs[|ps|] == Gathered(t, s, index, end);
      }
    }
  }

  lemma GatheredAll(t: Table, d: Dimension, s: seq<Triple>, ps: seq<Posting>)
    requires WellFormed(t) && Tuples(t, d, s) && Gathering(t, d, s, ps, |s|)
    ensures PostingsOf(t, d, ps)
  {
    forall n | 0 <= n < |t.nfts| && t.nfts[n].Uri(d).Some? ensures Listed(ps, t.nfts[n].contract, t.nfts[n].Uri(d).value) {
      var x: Triple := (t.nfts[n].Uri(d).value, t.nfts[n].contract, n);
      assert IsTuple(t, d, x);
      var k :| 0 <= k < |s| && s[k] == x;
    }
  }

  /** `build_uri_postings` */
  method BuildUriPostings(t: Table, d: Dimension, threads: nat) returns (postings: seq<Posting>)
    requires WellFormed(t) && IdsFit(t)
    ensures PostingsOf(t, d, postings)
  {
    var unsorted := UriTuples(t, d);
    assert forall x :: x in unsorted ==> IsTuple(t, d, x);
    var tuples, _ := SortU32TriplesWhile(unsorted, threads, _ => true);
    PermutationMembers(tuples, unsorted);
    PermutationDistinct(tuples, unsorted);
    assert Tuples(t, d, tuples);
    hide Gathering, Tuples, PostingsOf, Gathered;
    postings := [];
    NothingGathered(t, d, tuples);
    var index := 0;
    while index < |tuples|
      invariant index <= |tuples| && Gathering(t, d, tuples, postings, index)
    {
      var uri, contract := tuples[index].0, tuples[index].1;
      var end := index + 1;
      while end < |tuples| && tuples[end].0 == uri && tuples[end].1 == contract
        invariant index < end <= |tuples|
        invariant forall k :: index <= k < end ==> SameKey(tuples[k], tuples[index])
      {
        end := end + 1;
      }
      ContractKnown(t, d, tuples, index);
      GatherStep(t, d, tuples, postings, index, end);
      var posting := Posting(contract, t.chainOf[contract], uri, ThirdFields(tuples, index, end));
      GatheredIs(t, tuples, index, end, posting);
      postings := postings + [posting];
      index := end;
    }
    GatheredAll(t, d, tuples, postings);
  }

  function ThirdFields(s: seq<Triple>, from: nat, to: nat): seq<nat>
    requires from <= to <= |s|
  {
    seq(to - from, k requires 0 <= k < to - from => s[from + k].2)
  }

  lemma GatheredIs(t: Table, s: seq<Triple>, index: nat, end: nat, p: Posting)
    requires WellFormed(t) && index < end <= |s| && s[index].1 < |t.chainOf|
    requires p == Posting(s[index].1, t.chainOf[s[index].1], s[index].0, ThirdFields(s, index, end))
    ensures p == Gathered(t, s, index, end)
  {}

  lemma NothingGathered(t: Table, d: Dimension, s: seq<Triple>)
    requires WellFormed(t)
    ensures Gathering(t, d, s, [], 0)
  {}

  lemma ContractKnown(t: Table, d: Dimension, s: seq<Triple>, index: nat)
    requires WellFormed(t) && Tuples(t, d, s) && index < |s|
    ensures s[index].1 < |t.chainOf|
  {
    assert s[index] in s;
  }

  // ----- groups

  /** A posting whose URI differs from the one before starts a group. */
  predicate Starts(ps: seq<Posting>, s: nat)
    requires s < |ps|
  {
    s == 0 || ps[s - 1].uri != ps[s].uri
  }

  /** The end of the equal URIs from `s`; on sorted postings, `partition_point`. */
  function RunEnd(ps: seq<Posting>, s: nat): (e: nat)
    requires s < |ps|
    ensures s < e <= |ps| && (forall k :: s <= k < e ==> ps[k].uri == ps[s].uri)
    ensures e < |ps| ==> ps[e].uri != ps[s].uri
    decreases |ps| - s
  {
    if s + 1 < |ps| && ps[s + 1].uri == ps[s].uri then RunEnd(ps, s + 1) else s + 1
  }

  ghost predicate ByUri(ps: seq<Posting>) {
    forall i, j :: 0 <= i < j < |ps| ==> ps[i].uri <= ps[j].uri
  }

  /** A group holds all postings of its URI. */
  lemma WholeRun(ps: seq<Posting>, s: nat)
    requires ByUri(ps) && s < |ps| && Starts(ps, s)
    ensures forall k :: 0 <= k < |ps| && ps[k].uri == ps[s].uri ==> s <= k < RunEnd(ps, s)
  {}

  /** The groups that start in `[a, b)`. */
  function Runs(ps: seq<Posting>, a: nat, b: nat): seq<(nat, nat)>
    requires a <= b <= |ps|
  {
    if a == b then []
    else Runs(ps, a, b - 1) + if Starts(ps, b - 1) then [(b - 1, RunEnd(ps, b - 1))] else []
  }

  lemma {:induction false} RunsJoin(ps: seq<Posting>, a: nat, b: nat, c: nat)
    requires a <= b <= c <= |ps|
    ensures Runs(ps, a, c) == Runs(ps, a, b) + Runs(ps, b, c)
  {
    if b < c {
      RunsJoin(ps, a, b, c - 1);
    }
  }

  /** No group starts inside another. */
  lemma {:induction false} RunsSkip(ps: seq<Posting>, s: nat, c: nat)
    requires s < |ps| && s < c <= RunEnd(ps, s)
    ensures Runs(ps, s, c) == if Starts(ps, s) then [(s, RunEnd(ps, s))] else []
  {
    if s + 1 < c {
      RunsSkip(ps, s, c - 1);
      assert ps[c - 2].uri == ps[s].uri && ps[c - 1].uri == ps[s].uri;
    } else {
      assert Runs(ps, s, s) == [];
    }
  }

  /** The groups follow one another without a gap, from the first start on. */
  lemma {:induction false} RunsTile(ps: seq<Posting>, b: nat)
    requires 0 < b <= |ps|
    ensures var r := Runs(ps, 0, b);
            && r != [] && r[0].0 == 0 && b <= r[|r| - 1].1 && r[|r| - 1].0 < b
            && (forall k :: 0 <= k < |r| ==> r[k].0 < |ps| && Starts(ps, r[k].0) && r[k].1 == RunEnd(ps, r[k].0))
            && (forall k :: 0 < k < |r| ==> r[k - 1].1 == r[k].0)
  {
    hide RunEnd;
    if b > 1 {
      RunsTile(ps, b - 1);
      var q := Runs(ps, 0, b - 1);
      var last := q[|q| - 1];
      if b - 1 < last.1 {
        assert ps[b - 1].uri == ps[last.0].uri && ps[b - 2].uri == ps[last.0].uri;
      }
    } else {
      assert Runs(ps, 0, 0) == [];
    }
  }

  /** The groups one task of `process_group_chunks` works on: a group that began in an
      earlier chunk is skipped, and the last one is finished beyond the chunk. */
  method TaskRuns(ps: seq<Posting>, chunkStart: nat, chunkEnd: nat) returns (runs: seq<(nat, nat)>)
    requires chunkStart < chunkEnd <= |ps|
    ensures runs == Runs(ps, chunkStart, chunkEnd)
  {
    runs := [];
    var start := chunkStart;
    if start > 0 && ps[start - 1].uri == ps[start].uri {
      start := RunEnd(ps, start);
      RunsSkip(ps, chunkStart, if start < chunkEnd then start else chunkEnd);
    }
    while start < chunkEnd
      invariant chunkStart <= start <= |ps| && (start == |ps| || Starts(ps, start))
      invariant runs == Runs(ps, chunkStart, if start < chunkEnd then start else chunkEnd)
    {
      var uri := ps[start].uri;
      var end := start + 1;
      while end < |ps| && ps[end].uri == uri
        invariant start < end <= |ps| && forall k :: start <= k < end ==> ps[k].uri == uri
      {
        end := end + 1;
      }
      RunEndIs(ps, start, end);
      var stop := if end < chunkEnd then end else chunkEnd;
      RunsSkip(ps, start, stop);
      RunsJoin(ps, chunkStart, start, stop);
      runs := runs + [(start, end)];
      start := end;
    }
  }

  lemma RunEndIs(ps: seq<Posting>, s: nat, e: nat)
    requires s < e <= |ps| && (forall k :: s <= k < e ==> ps[k].uri == ps[s].uri)
    requires e < |ps| ==> ps[e].uri != ps[s].uri
    ensures e == RunEnd(ps, s)
  {}

  /** Any chunk size cuts the postings into tasks that work on every group once. */
  function ChunkSize(length: nat, threads: nat): (size: nat)
    requires length > 0
    ensures size > 0 && (length + size - 1) / size > 0
  {
    var target := if threads == 0 then 1 else threads * 8;
    var size := (length + target - 1) / target;
    if size == 0 then 1 else size
  }

  function TaskCount(length: nat, size: nat): (count: nat)
    requires size > 0
    ensures count == 0 <==> length == 0
    ensures count > 0 ==> (count - 1) * size < length <= count * size
  {
    (length + size - 1) / size
  }

  // ----- what the groups bring

  /** The pairs of a group that are linked. */
  ghost predicate LinkedPairs(ms: seq<Posting>, barred: set<Hit>, pairs: set<(nat, Reach)>) {
    forall x :: x in pairs <==> Linked(ms, barred, x.0, x.1)
  }

  ghost predicate UriIn(ps: seq<Posting>, runs: seq<(nat, nat)>, uri: nat) {
    exists k :: 0 <= k < |runs| && runs[k].0 < |ps| && ps[runs[k].0].uri == uri
  }

  /** The hits that groups bring. */
  ghost predicate HitsOf(t: Table, d: Dimension, ps: seq<Posting>, barred: set<Hit>, runs: seq<(nat, nat)>, hits: set<Hit>)
    requires WellFormed(t)
  {
    forall h :: h in hits <==> Duplicate(t, d, barred, h) && UriIn(ps, runs, t.nfts[h.nft].Uri(d).value)
  }

  /** Groups are whole, and of different URIs. */
  ghost predicate Groups(ps: seq<Posting>, runs: seq<(nat, nat)>) {
    && (forall k :: 0 <= k < |runs| ==> runs[k].0 < |ps| && Starts(ps, runs[k].0) && runs[k].1 == RunEnd(ps, runs[k].0))
    && (forall i, j :: 0 <= i < j < |runs| ==> ps[runs[i].0].uri < ps[runs[j].0].uri)
  }

  ghost predicate InOrder(ps: seq<Posting>, a: nat, b: nat, r: seq<(nat, nat)>)
    requires b <= |ps|
  {
    && (forall k :: 0 <= k < |r| ==> a <= r[k].0 < b && Starts(ps, r[k].0) && r[k].1 == RunEnd(ps, r[k].0))
    && (forall i, j :: 0 <= i < j < |r| ==> r[i].0 < r[j].0)
  }

  lemma {:induction false} RunsInOrder(ps: seq<Posting>, a: nat, b: nat)
    requires a <= b <= |ps|
    ensures InOrder(ps, a, b, Runs(ps, a, b))
  {
    hide InOrder, RunEnd, Starts;
    if a < b {
      RunsInOrder(ps, a, b - 1);
      OneMoreInOrder(ps, a, b - 1, Runs(ps, a, b - 1));
      assert Runs(ps, a, b - 1) + [] == Runs(ps, a, b - 1);
    } else {
      NoneInOrder(ps, a, b);
    }
  }

  lemma NoneInOrder(ps: seq<Posting>, a: nat, b: nat)
    requires b <= |ps|
    ensures InOrder(ps, a, b, [])
  {}

  lemma OneMoreInOrder(ps: seq<Posting>, a: nat, b: nat, r: seq<(nat, nat)>)
    requires a <= b < |ps| && InOrder(ps, a, b, r)
    ensures InOrder(ps, a, b + 1, r)
    ensures Starts(ps, b) ==> InOrder(ps, a, b + 1, r + [(b, RunEnd(ps, b))])
  {}

  lemma RunsAreGroups(ps: seq<Posting>, a: nat, b: nat)
    requires ByUri(ps) && a <= b <= |ps|
    ensures Groups(ps, Runs(ps, a, b))
  {
    hide RunEnd, Runs;
    RunsInOrder(ps, a, b);
    var r := Runs(ps, a, b);
    forall i, j | 0 <= i < j < |r| ensures ps[r[i].0].uri < ps[r[j].0].uri {
      var s, e := r[i].0, r[j].0;
      assert ps[e - 1].uri != ps[e].uri && ps[e - 1].uri <= ps[e].uri && (s == e - 1 || ps[s].uri <= ps[e - 1].uri);
    }
  }

  lemma PostingsByUri(t: Table, d: Dimension, ps: seq<Posting>)
    requires WellFormed(t) && PostingsOf(t, d, ps)
    ensures ByUri(ps)
  {}

  lemma RunGroup(t: Table, d: Dimension, ps: seq<Posting>, s: nat)
    requires WellFormed(t) && PostingsOf(t, d, ps) && s < |ps| && Starts(ps, s)
    ensures Group(t, d, ps[s..RunEnd(ps, s)])
    ensures forall n :: 0 <= n < |t.nfts| && t.nfts[n].Uri(d) == Some(ps[s].uri) ==>
              Listed(ps[s..RunEnd(ps, s)], t.nfts[n].contract, ps[s].uri)
  {
    hide RunEnd, PostingOf, Listed;
    PostingsByUri(t, d, ps);
    WholeRun(ps, s);
    var e := RunEnd(ps, s);
    forall i, j | s <= i < j < e ensures ps[i].contract != ps[j].contract {
      assert PostingLess(ps[i], ps[j]);
    }
    forall n | 0 <= n < |t.nfts| && t.nfts[n].Uri(d) == Some(ps[s].uri)
      ensures Listed(ps[s..e], t.nfts[n].contract, ps[s].uri)
    {
      ListedInRun(ps, s, t.nfts[n].contract);
    }
  }

  lemma ListedInRun(ps: seq<Posting>, s: nat, contract: nat)
    requires ByUri(ps) && s < |ps| && Starts(ps, s) && Listed(ps, contract, ps[s].uri)
    ensures Listed(ps[s..RunEnd(ps, s)], contract, ps[s].uri)
  {
    WholeRun(ps, s);
    hide RunEnd;
    var i :| 0 <= i < |ps| && ps[i].contract == contract && ps[i].uri == ps[s].uri;
    assert ps[s..RunEnd(ps, s)][i - s] == ps[i];
  }

  /** The linked pairs of a group bring the duplicates of its URI. */
  lemma RunHits(t: Table, d: Dimension, ps: seq<Posting>, s: nat, barred: set<Hit>, pairs: set<(nat, Reach)>)
    requires WellFormed(t) && PostingsOf(t, d, ps) && s < |ps| && Starts(ps, s)
    requires LinkedPairs(ps[s..RunEnd(ps, s)], barred, pairs)
    ensures forall x :: x in pairs ==> x.0 < |ps[s..RunEnd(ps, s)]|
    ensures forall h :: h in Credited(ps[s..RunEnd(ps, s)], barred, pairs) <==>
              Duplicate(t, d, barred, h) && t.nfts[h.nft].Uri(d) == Some(ps[s].uri)
  {
    var ms := ps[s..RunEnd(ps, s)];
    RunGroup(t, d, ps, s);
    assert forall x :: x in pairs ==> Linked(ms, barred, x.0, x.1);
    forall h
      ensures h in Credited(ms, barred, pairs) <==> Duplicate(t, d, barred, h) && t.nfts[h.nft].Uri(d) == Some(ps[s].uri)
    {
      CreditedHit(t, d, ms, barred, pairs, ps[s].uri, h);
    }
  }

  lemma CreditedHit(t: Table, d: Dimension, ms: seq<Posting>, barred: set<Hit>, pairs: set<(nat, Reach)>, uri: nat, h: Hit)
    requires WellFormed(t) && Group(t, d, ms) && LinkedPairs(ms, barred, pairs)
    requires ms != [] && ms[0].uri == uri && forall x :: x in pairs ==> x.0 < |ms|
    requires forall n :: 0 <= n < |t.nfts| && t.nfts[n].Uri(d) == Some(uri) ==> Listed(ms, t.nfts[n].contract, uri)
    ensures h in Credited(ms, barred, pairs) <==> Duplicate(t, d, barred, h) && t.nfts[h.nft].Uri(d) == Some(uri)
  {
    hide Linked, Mates;
    if h in Credited(ms, barred, pairs) {
      var x, n :| x in pairs && n in Open(ms[x.0], x.1, barred) && h == Hit(x.1, n);
      SameUri(t, d, ms, x.0);
      GroupDuplicates(t, d, ms, barred, x.0, h);
      assert PostingOf(t, d, ms[x.0]);
    }
    if Duplicate(t, d, barred, h) && t.nfts[h.nft].Uri(d) == Some(uri) {
      var i :| 0 <= i < |ms| && ms[i].contract == t.nfts[h.nft].contract && ms[i].uri == uri;
      assert PostingOf(t, d, ms[i]);
      GroupDuplicates(t, d, ms, barred, i, h);
      assert (i, h.reach) in pairs && h == Hit(h.reach, h.nft);
    }
  }

  lemma SameUri(t: Table, d: Dimension, ms: seq<Posting>, i: nat)
    requires WellFormed(t) && Group(t, d, ms) && i < |ms|
    ensures ms[i].uri == ms[0].uri
  {}

  /** One more group brings hits that were not there. */
  lemma OneMoreRun(t: Table, d: Dimension, ps: seq<Posting>, barred: set<Hit>, runs: seq<(nat, nat)>, k: nat,
                   pairs: set<(nat, Reach)>, hits: set<Hit>)
    requires WellFormed(t) && PostingsOf(t, d, ps) && Groups(ps, runs) && k < |runs|
    requires LinkedPairs(ps[runs[k].0..runs[k].1], barred, pairs) && HitsOf(t, d, ps, barred, runs[..k], hits)
    ensures forall x :: x in pairs ==> x.0 < |ps[runs[k].0..runs[k].1]|
    ensures var more := Credited(ps[runs[k].0..runs[k].1], barred, pairs);
            hits !! more && HitsOf(t, d, ps, barred, runs[..k + 1], hits + more)
  {
    hide Mates, Credited, LinkedPairs, Starts, RunEnd, PostingsOf, UriIn;
    RunHits(t, d, ps, runs[k].0, barred, pairs);
    forall uri
      ensures UriIn(ps, runs[..k + 1], uri) <==> UriIn(ps, runs[..k], uri) || ps[runs[k].0].uri == uri
      ensures !(UriIn(ps, runs[..k], uri) && ps[runs[k].0].uri == uri)
    {
      NextUri(ps, runs, k, uri);
    }
  }

  lemma NextUri(ps: seq<Posting>, runs: seq<(nat, nat)>, k: nat, uri: nat)
    requires Groups(ps, runs) && k < |runs|
    ensures UriIn(ps, runs[..k + 1], uri) <==> UriIn(ps, runs[..k], uri) || ps[runs[k].0].uri == uri
    ensures !(UriIn(ps, runs[..k], uri) && ps[runs[k].0].uri == uri)
  {}

  lemma StretchUris(ps: seq<Posting>, x: seq<(nat, nat)>, y: seq<(nat, nat)>, uri: nat)
    requires Groups(ps, x + y)
    ensures UriIn(ps, x + y, uri) <==> UriIn(ps, x, uri) || UriIn(ps, y, uri)
    ensures !(UriIn(ps, x, uri) && UriIn(ps, y, uri))
  {
    hide Starts, RunEnd;
    var z := x + y;
    assert forall i :: 0 <= i < |x| ==> z[i] == x[i];
    assert forall i :: 0 <= i < |y| ==> z[|x| + i] == y[i];
    if UriIn(ps, x, uri) {
      var i :| 0 <= i < |x| && x[i].0 < |ps| && ps[x[i].0].uri == uri;
      assert z[i].0 < |ps| && ps[z[i].0].uri == uri;
    }
  }

  /** Two stretches of postings bring different hits. */
  lemma JoinStretches(t: Table, d: Dimension, ps: seq<Posting>, barred: set<Hit>, a: nat, b: nat, c: nat,
                      left: set<Hit>, right: set<Hit>)
    requires WellFormed(t) && ByUri(ps) && a <= b <= c <= |ps|
    requires HitsOf(t, d, ps, barred, Runs(ps, a, b), left) && HitsOf(t, d, ps, barred, Runs(ps, b, c), right)
    ensures left !! right && HitsOf(t, d, ps, barred, Runs(ps, a, c), left + right)
  {
    hide Runs, Mates, Groups, UriIn;
    RunsAreGroups(ps, a, c);
    RunsJoin(ps, a, b, c);
    forall uri {:trigger UriIn(ps, Runs(ps, a, c), uri)} {:trigger UriIn(ps, Runs(ps, a, b), uri)}
      ensures UriIn(ps, Runs(ps, a, c), uri) <==> UriIn(ps, Runs(ps, a, b), uri) || UriIn(ps, Runs(ps, b, c), uri)
      ensures !(UriIn(ps, Runs(ps, a, b), uri) && UriIn(ps, Runs(ps, b, c), uri))
    {
      StretchUris(ps, Runs(ps, a, b), Runs(ps, b, c), uri);
    }
  }

  /** All groups together bring all duplicates. */
  lemma AllGroups(t: Table, d: Dimension, ps: seq<Posting>, barred: set<Hit>, hits: set<Hit>)
    requires WellFormed(t) && PostingsOf(t, d, ps) && HitsOf(t, d, ps, barred, Runs(ps, 0, |ps|), hits)
    ensures forall h :: h in hits <==> Duplicate(t, d, barred, h)
  {
    hide Mates;
    forall h | Duplicate(t, d, barred, h) ensures UriIn(ps, Runs(ps, 0, |ps|), t.nfts[h.nft].Uri(d).value) {
      var uri := t.nfts[h.nft].Uri(d).value;
      var i :| 0 <= i < |ps| && ps[i].contract == t.nfts[h.nft].contract && ps[i].uri == uri;
      HasStart(ps, i);
    }
  }

  lemma {:induction false} HasStart(ps: seq<Posting>, i: nat)
    requires i < |ps|
    ensures UriIn(ps, Runs(ps, 0, |ps|), ps[i].uri)
  {
    if Starts(ps, i) {
      RunsJoin(ps, 0, i, |ps|);
      RunsJoin(ps, i, i + 1, |ps|);
      assert Runs(ps, i, i) == [];
      assert Runs(ps, i, i + 1) == [(i, RunEnd(ps, i))];
      var r := Runs(ps, 0, |ps|);
      assert r[|Runs(ps, 0, i)|] == (i, RunEnd(ps, i));
    } else {
      HasStart(ps, i - 1);
    }
  }
}
