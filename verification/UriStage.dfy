/** The URI stage as a whole: for any number of threads, the counts of its scopes are those
    of the set definitions. */
module UriStage {
  import opened Wrappers
  import opened WordBits
  import opened UriSpec
  import opened UriTally
  import opened UriPostings
  import opened UriTokens
  import opened UriTokenGroups
  import opened UriImages
  import opened UriImageWide

  datatype Counts = Counts(contracts: nat, nfts: nat)

  /** The counts say of each scope how many contracts and NFTs are hit there. */
  ghost predicate Counted(t: Table, hits: set<Hit>, counts: map<Key, Counts>)
    requires WellFormed(t)
  {
    && (forall key :: key in counts <==> At(t, hits, key) != {})
    && (forall key :: key in counts ==> counts[key] == Counts(|ContractsOf(t, At(t, hits, key))|, |At(t, hits, key)|))
  }

  /** `flush` */
  function Flush(scopes: Scopes): map<Key, Counts> {
    map key | key in scopes :: Counts(|scopes[key].contracts|, scopes[key].rows)
  }

  lemma FlushCounts(t: Table, hits: set<Hit>, scopes: Scopes)
    requires WellFormed(t) && Tallies(t, hits, scopes)
    ensures Counted(t, hits, Flush(scopes))
  {}

  /** A group is ready to be credited when only other groups have been. */
  lemma RunReady(t: Table, d: Dimension, ps: seq<Posting>, barred: set<Hit>, runs: seq<(nat, nat)>, k: nat, hits: set<Hit>)
    requires WellFormed(t) && PostingsOf(t, d, ps) && Groups(ps, runs) && k < |runs|
    requires HitsOf(t, d, ps, barred, runs[..k], hits)
    ensures Ready(t, d, ps[runs[k].0..runs[k].1], hits)
  {
    hide RunEnd, PostingOf, Listed, Mates;
    var s := runs[k].0;
    var ms := ps[s..runs[k].1];
    RunGroup(t, d, ps, s);
    NewUri(ps, runs, k);
    forall h, i | h in hits && 0 <= i < |ms| ensures h.nft !in ms[i].nfts {
      SameUri(t, d, ms, i);
      PostingUri(t, d, ms[i], h.nft);
    }
  }

  lemma NewUri(ps: seq<Posting>, runs: seq<(nat, nat)>, k: nat)
    requires Groups(ps, runs) && k < |runs|
    ensures !UriIn(ps, runs[..k], ps[runs[k].0].uri)
  {}

  lemma PostingUri(t: Table, d: Dimension, p: Posting, n: nat)
    requires WellFormed(t) && PostingOf(t, d, p)
    ensures n in p.nfts ==> n < |t.nfts| && t.nfts[n].Uri(d) == Some(p.uri)
  {}

  lemma ChainsBelow(t: Table, d: Dimension, ms: seq<Posting>)
    requires WellFormed(t) && Group(t, d, ms)
    ensures forall i :: 0 <= i < |ms| ==> ms[i].chain < t.chainCount
  {}

  // ----- token URIs

  method TokenTask(t: Table, ps: seq<Posting>, chunkStart: nat, chunkEnd: nat)
    returns (worker: TokenWorker, ghost hits: set<Hit>)
    requires WellFormed(t) && PostingsOf(t, TokenUri, ps) && chunkStart < chunkEnd <= |ps|
    ensures fresh(worker) && fresh(worker.uri) && (worker.matrix.Compact? <==> t.chainCount <= WORD_BITS)
    ensures worker.Carries(t, hits) && HitsOf(t, TokenUri, ps, {}, Runs(ps, chunkStart, chunkEnd), hits)
  {
    PostingsByUri(t, TokenUri, ps);
    RunsAreGroups(ps, chunkStart, chunkEnd);
    hide PostingsOf, Runs, Groups, HitsOf, Group, LinkedPairs, Credited, Elsewhere, WellFormed;
    worker := new TokenWorker(t.chainCount);
    var runs := TaskRuns(ps, chunkStart, chunkEnd);
    hits := {};
    NoRuns(t, TokenUri, ps, {}, runs);
    for k: nat := 0 to |runs|
      invariant fresh(worker) && fresh(worker.uri) && (worker.matrix.Compact? <==> t.chainCount <= WORD_BITS)
      invariant worker.Carries(t, hits) && HitsOf(t, TokenUri, ps, {}, runs[..k], hits)
    {
      RunBounds(ps, runs, k);
      var members := ps[runs[k].0..runs[k].1];
      RunReady(t, TokenUri, ps, {}, runs, k, hits);
      ChainsBelow(t, TokenUri, members);
      ghost var pairs := AccumulateTokenScopeHits(members, worker, t, hits);
      OneMoreRun(t, TokenUri, ps, {}, runs, k, pairs, hits);
      hits := hits + Credited(members, {}, pairs);
    }
    assert runs[..|runs|] == runs;
  }

  lemma RunBounds(ps: seq<Posting>, runs: seq<(nat, nat)>, k: nat)
    requires Groups(ps, runs) && k < |runs|
    ensures runs[k].0 < runs[k].1 <= |ps|
  {}

  lemma NoRuns(t: Table, d: Dimension, ps: seq<Posting>, barred: set<Hit>, runs: seq<(nat, nat)>)
    requires WellFormed(t)
    ensures HitsOf(t, d, ps, barred, runs[..0], {}) && HitsOf(t, d, ps, barred, [], {})
  {}

  /** Where task `k` begins. */
  function Edge(length: nat, size: nat, k: nat): nat {
    if k * size < length then k * size else length
  }

  lemma Edges(length: nat, size: nat, i: nat, j: nat)
    requires size > 0 && i <= j
    ensures Edge(length, size, i) <= Edge(length, size, j) <= length
    ensures i * size < length && i < j ==> Edge(length, size, i) < Edge(length, size, j)
  {}

  lemma LastTask(length: nat, size: nat, i: nat, j: nat)
    requires size > 0 && i < j <= TaskCount(length, size)
    ensures i * size < length
  {}

  /** The workers of tasks `lo` to `hi`, merged pair by pair in the order of the tasks. */
  method TokenTasks(t: Table, ps: seq<Posting>, size: nat, lo: nat, hi: nat, cut: (nat, nat) -> nat)
    returns (worker: TokenWorker, ghost hits: set<Hit>)
    requires WellFormed(t) && PostingsOf(t, TokenUri, ps) && size > 0 && lo <= hi <= TaskCount(|ps|, size)
    ensures Edge(|ps|, size, lo) <= Edge(|ps|, size, hi) <= |ps|
    ensures fresh(worker) && fresh(worker.uri) && (worker.matrix.Compact? <==> t.chainCount <= WORD_BITS)
    ensures worker.Carries(t, hits)
    ensures HitsOf(t, TokenUri, ps, {}, Runs(ps, Edge(|ps|, size, lo), Edge(|ps|, size, hi)), hits)
    decreases hi - lo
  {
    Edges(|ps|, size, lo, hi);
    PostingsByUri(t, TokenUri, ps);
    hide PostingsOf, HitsOf, ByUri, WellFormed, Edge, TaskCount;
    if lo == hi {
      worker := new TokenWorker(t.chainCount);
      hits := {};
      NoRuns(t, TokenUri, ps, {}, []);
    } else if hi == lo + 1 {
      LastTask(|ps|, size, lo, hi);
      worker, hits := TokenTask(t, ps, Edge(|ps|, size, lo), Edge(|ps|, size, hi));
    } else {
      var mid := if lo < cut(lo, hi) < hi then cut(lo, hi) else lo + 1;
      Edges(|ps|, size, lo, mid);
      Edges(|ps|, size, mid, hi);
      ghost var right;
      worker, hits := TokenTasks(t, ps, size, lo, mid, cut);
      var other;
      other, right := TokenTasks(t, ps, size, mid, hi, cut);
      JoinStretches(t, TokenUri, ps, {}, Edge(|ps|, size, lo), Edge(|ps|, size, mid), Edge(|ps|, size, hi), hits, right);
      worker.Merge(other, t, hits, right);
      hits := hits + right;
    }
  }

  // ----- image URIs

  method ImageTask(t: Table, ps: seq<Posting>, chunkStart: nat, chunkEnd: nat, token: TokenHits, ghost barred: set<Hit>)
    returns (local: LocalUriAccumulator, ghost hits: set<Hit>)
    requires WellFormed(t) && PostingsOf(t, ImageUri, ps) && chunkStart < chunkEnd <= |ps| && token.Represents(t, barred)
    ensures fresh(local) && Tallies(t, hits, local.scopes)
    ensures HitsOf(t, ImageUri, ps, barred, Runs(ps, chunkStart, chunkEnd), hits)
  {
    PostingsByUri(t, ImageUri, ps);
    RunsAreGroups(ps, chunkStart, chunkEnd);
    hide PostingsOf, Runs, Groups, HitsOf, Group, LinkedPairs, Credited, Elsewhere, WellFormed, Tallies;
    local := new LocalUriAccumulator();
    var runs := TaskRuns(ps, chunkStart, chunkEnd);
    hits := {};
    NoRuns(t, ImageUri, ps, barred, runs);
    NoHits(t);
    for k: nat := 0 to |runs|
      invariant fresh(local) && token.Represents(t, barred)
      invariant Tallies(t, hits, local.scopes) && HitsOf(t, ImageUri, ps, barred, runs[..k], hits)
    {
      RunBounds(ps, runs, k);
      var members := ps[runs[k].0..runs[k].1];
      RunReady(t, ImageUri, ps, barred, runs, k, hits);
      ghost var pairs := AccumulateImageScopeHits(members, token, local, t, barred, hits);
      OneMoreRun(t, ImageUri, ps, barred, runs, k, pairs, hits);
      hits := hits + Credited(members, barred, pairs);
    }
    assert runs[..|runs|] == runs;
  }

  method ImageTasks(t: Table, ps: seq<Posting>, size: nat, lo: nat, hi: nat, cut: (nat, nat) -> nat, token: TokenHits,
                    ghost barred: set<Hit>)
    returns (local: LocalUriAccumulator, ghost hits: set<Hit>)
    requires WellFormed(t) && PostingsOf(t, ImageUri, ps) && size > 0 && lo <= hi <= TaskCount(|ps|, size)
    requires token.Represents(t, barred)
    ensures Edge(|ps|, size, lo) <= Edge(|ps|, size, hi) <= |ps|
    ensures fresh(local) && Tallies(t, hits, local.scopes)
    ensures HitsOf(t, ImageUri, ps, barred, Runs(ps, Edge(|ps|, size, lo), Edge(|ps|, size, hi)), hits)
    decreases hi - lo
  {
    Edges(|ps|, size, lo, hi);
    PostingsByUri(t, ImageUri, ps);
    hide PostingsOf, HitsOf, ByUri, WellFormed, Edge, TaskCount, Tallies, Merges;
    if lo == hi {
      local := new LocalUriAccumulator();
      hits := {};
      NoHits(t);
      NoRuns(t, ImageUri, ps, barred, []);
    } else if hi == lo + 1 {
      LastTask(|ps|, size, lo, hi);
      local, hits := ImageTask(t, ps, Edge(|ps|, size, lo), Edge(|ps|, size, hi), token, barred);
    } else {
      var mid := if lo < cut(lo, hi) < hi then cut(lo, hi) else lo + 1;
      Edges(|ps|, size, lo, mid);
      Edges(|ps|, size, mid, hi);
      ghost var right;
      local, hits := ImageTasks(t, ps, size, lo, mid, cut, token, barred);
      var other;
      other, right := ImageTasks(t, ps, size, mid, hi, cut, token, barred);
      JoinStretches(t, ImageUri, ps, barred, Edge(|ps|, size, lo), Edge(|ps|, size, mid), Edge(|ps|, size, hi), hits, right);
      ghost var was := local.scopes;
      local.Merge(other);
      TallyMerge(t, hits, right, was, other.scopes, local.scopes);
      hits := hits + right;
    }
  }

  // ----- the stage

  lemma WholeRange(t: Table, d: Dimension, ps: seq<Posting>, barred: set<Hit>, size: nat, hits: set<Hit>)
    requires WellFormed(t) && PostingsOf(t, d, ps) && size > 0
    requires Edge(|ps|, size, 0) <= Edge(|ps|, size, TaskCount(|ps|, size)) <= |ps|
    requires HitsOf(t, d, ps, barred, Runs(ps, Edge(|ps|, size, 0), Edge(|ps|, size, TaskCount(|ps|, size))), hits)
    ensures forall h :: h in hits <==> Duplicate(t, d, barred, h)
  {
    hide HitsOf, PostingsOf, Duplicate;
    AllGroups(t, d, ps, barred, hits);
  }

  lemma DuplicateBounds(t: Table, h: Hit)
    requires WellFormed(t) && Duplicate(t, TokenUri, {}, h)
    ensures h.nft < |t.nfts| && (h.reach.Against? ==> h.reach.other < t.chainCount)
  {}

  /** These are the counts of all token hits, and of the image hits they leave over. */
  ghost predicate UriCounts(t: Table, tokenCounts: map<Key, Counts>, imageCounts: map<Key, Counts>)
    requires WellFormed(t)
  {
    exists token, image ::
      UriSpec.TokenHits(t, token) && ImageHits(t, token, image) && Counted(t, token, tokenCounts) && Counted(t, image, imageCounts)
  }

  lemma SameCounts(t: Table, x: set<Hit>, y: set<Hit>, a: map<Key, Counts>, b: map<Key, Counts>)
    requires WellFormed(t) && x == y && Counted(t, x, a) && Counted(t, y, b)
    ensures a == b
  {
    assert a.Keys == b.Keys;
  }

  /** The counts are determined by the tables: threads and merge order do not show. */
  lemma CountsAreUnique(t: Table, a: map<Key, Counts>, b: map<Key, Counts>, a': map<Key, Counts>, b': map<Key, Counts>)
    requires WellFormed(t) && UriCounts(t, a, b) && UriCounts(t, a', b')
    ensures a == a' && b == b'
  {
    hide Duplicate, Counted, WellFormed;
    var token, image :|
      UriSpec.TokenHits(t, token) && ImageHits(t, token, image) && Counted(t, token, a) && Counted(t, image, b);
    var token', image' :|
      UriSpec.TokenHits(t, token') && ImageHits(t, token', image') && Counted(t, token', a') && Counted(t, image', b');
    assert token == token';
    assert image == image';
    SameCounts(t, token, token', a, a');
    SameCounts(t, image, image', b, b');
  }

  // ----- the counts on the fields of the NFTs

  /** A scope of this reach looks for duplicates of `n` at `m`. */
  ghost predicate Looks(t: Table, r: Reach, n: nat, m: nat)
    requires WellFormed(t) && n < |t.nfts| && m < |t.nfts|
  {
    var a, b := t.nfts[n].contract, t.nfts[m].contract;
    match r
    case Within => t.chainOf[a] == t.chainOf[b] && a != b
    case Across => t.chainOf[a] != t.chainOf[b]
    case Against(other) => t.chainOf[a] != other && t.chainOf[b] == other
  }

  ghost predicate TokenDuplicate(t: Table, r: Reach, n: nat)
    requires WellFormed(t)
  {
    && n < |t.nfts| && t.nfts[n].tokenUri.Some?
    && exists m: nat :: m < |t.nfts| && t.nfts[m].tokenUri == t.nfts[n].tokenUri && Looks(t, r, n, m)
  }

  /** The same scope, seen from the other end. */
  ghost function Back(t: Table, r: Reach, n: nat): Reach
    requires WellFormed(t) && n < |t.nfts|
  {
    match r
    case Within => Within
    case Across => Across
    case Against(_) => Against(t.chainOf[t.nfts[n].contract])
  }

  ghost predicate ImageDuplicate(t: Table, r: Reach, n: nat)
    requires WellFormed(t)
  {
    && n < |t.nfts| && t.nfts[n].imageUri.Some? && !TokenDuplicate(t, r, n)
    && exists m: nat :: m < |t.nfts| && t.nfts[m].imageUri == t.nfts[n].imageUri && Looks(t, r, n, m)
                        && !TokenDuplicate(t, Back(t, r, n), m)
  }

  ghost function TokenNfts(t: Table, key: Key): (nfts: set<nat>)
    requires WellFormed(t)
    ensures forall n :: n in nfts ==> n < |t.nfts|
  {
    set n: nat | n < |t.nfts| && t.chainOf[t.nfts[n].contract] == key.primary && TokenDuplicate(t, key.reach, n)
  }

  ghost function ImageNfts(t: Table, key: Key): (nfts: set<nat>)
    requires WellFormed(t)
    ensures forall n :: n in nfts ==> n < |t.nfts|
  {
    set n: nat | n < |t.nfts| && t.chainOf[t.nfts[n].contract] == key.primary && ImageDuplicate(t, key.reach, n)
  }

  /** The counts of a scope are those of these NFTs; a scope without any has no counts. */
  ghost predicate CountsOf(t: Table, counts: map<Key, Counts>, key: Key, nfts: set<nat>)
    requires forall n :: n in nfts ==> n < |t.nfts|
  {
    if nfts == {} then key !in counts
    else
      && key in counts && counts[key].nfts == |nfts|
      && counts[key].contracts == |set n | n in nfts :: t.nfts[n].contract|
  }

  lemma TokenOnFields(t: Table, h: Hit)
    requires WellFormed(t)
    ensures Duplicate(t, TokenUri, {}, h) <==> TokenDuplicate(t, h.reach, h.nft)
  {
    if m: nat :| h.nft < |t.nfts| && Mates(t, TokenUri, {}, h, m) {
      assert Looks(t, h.reach, h.nft, m);
    }
    if TokenDuplicate(t, h.reach, h.nft) {
      var m: nat :| m < |t.nfts| && t.nfts[m].tokenUri == t.nfts[h.nft].tokenUri && Looks(t, h.reach, h.nft, m);
      assert Mates(t, TokenUri, {}, h, m);
    }
  }

  lemma ImageOnFields(t: Table, token: set<Hit>, h: Hit)
    requires WellFormed(t) && forall x: Hit :: x in token <==> TokenDuplicate(t, x.reach, x.nft)
    ensures Duplicate(t, ImageUri, token, h) <==> ImageDuplicate(t, h.reach, h.nft)
  {
    hide TokenDuplicate;
    assert h == Hit(h.reach, h.nft);
    if m: nat :| h.nft < |t.nfts| && Mates(t, ImageUri, token, h, m) {
      assert Looks(t, h.reach, h.nft, m);
    }
    if ImageDuplicate(t, h.reach, h.nft) {
      var m: nat :| m < |t.nfts| && t.nfts[m].imageUri == t.nfts[h.nft].imageUri && Looks(t, h.reach, h.nft, m)
                    && !TokenDuplicate(t, Back(t, h.reach, h.nft), m);
      assert Mates(t, ImageUri, token, h, m);
    }
  }

  /** What the counts say of the tables: token duplicates share a token URI with an NFT that
      the scope looks at; image duplicates share an image URI, and neither of the two is a
      token duplicate there. */
  lemma CountsMean(t: Table, tokenCounts: map<Key, Counts>, imageCounts: map<Key, Counts>, key: Key)
    requires WellFormed(t) && UriCounts(t, tokenCounts, imageCounts)
    ensures CountsOf(t, tokenCounts, key, TokenNfts(t, key)) && CountsOf(t, imageCounts, key, ImageNfts(t, key))
  {
    hide Duplicate, TokenDuplicate, ImageDuplicate;
    var token, image :|
      UriSpec.TokenHits(t, token) && ImageHits(t, token, image) && Counted(t, token, tokenCounts) && Counted(t, image, imageCounts);
    forall h: Hit ensures h in token <==> TokenDuplicate(t, h.reach, h.nft) {
      TokenOnFields(t, h);
    }
    forall h: Hit ensures h in image <==> ImageDuplicate(t, h.reach, h.nft) {
      ImageOnFields(t, token, h);
    }
    AtMeans(t, token, key, TokenNfts(t, key), (n: nat) => TokenDuplicate(t, key.reach, n));
    AtMeans(t, image, key, ImageNfts(t, key), (n: nat) => ImageDuplicate(t, key.reach, n));
  }

  /** These are the counts of the tables, in every scope. */
  ghost predicate StageCounts(t: Table, tokenCounts: map<Key, Counts>, imageCounts: map<Key, Counts>)
    requires WellFormed(t)
  {
    forall key :: CountsOf(t, tokenCounts, key, TokenNfts(t, key)) && CountsOf(t, imageCounts, key, ImageNfts(t, key))
  }

  lemma AllCountsMean(t: Table, tokenCounts: map<Key, Counts>, imageCounts: map<Key, Counts>)
    requires WellFormed(t) && UriCounts(t, tokenCounts, imageCounts)
    ensures StageCounts(t, tokenCounts, imageCounts)
  {
    hide UriCounts, CountsOf;
    forall key ensures CountsOf(t, tokenCounts, key, TokenNfts(t, key)) && CountsOf(t, imageCounts, key, ImageNfts(t, key)) {
      CountsMean(t, tokenCounts, imageCounts, key);
    }
  }

  lemma AtMeans(t: Table, hits: set<Hit>, key: Key, nfts: set<nat>, hit: nat -> bool)
    requires WellFormed(t) && forall n: nat :: Hit(key.reach, n) in hits <==> hit(n)
    requires forall n: nat :: n in nfts <==> n < |t.nfts| && t.chainOf[t.nfts[n].contract] == key.primary && hit(n)
    ensures At(t, hits, key) == nfts && ContractsOf(t, nfts) == set n | n in nfts :: t.nfts[n].contract
  {
    forall n: nat ensures n in At(t, hits, key) <==> n in nfts {
      if n in nfts {
        assert Hit(key.reach, n) in hits;
      }
      if n in At(t, hits, key) {
        var h :| h in hits && h.nft == n && h.reach == key.reach && n < |t.nfts| && Chain(t, n) == key.primary;
        assert h == Hit(key.reach, n);
      }
    }
  }

  /** `run_uri`, for any thread count and any way of merging the workers. */
  method RunUri(t: Table, threads: nat, cut: (nat, nat) -> nat)
    returns (tokenCounts: map<Key, Counts>, imageCounts: map<Key, Counts>)
    requires WellFormed(t) && IdsFit(t)
    ensures UriCounts(t, tokenCounts, imageCounts)
    ensures StageCounts(t, tokenCounts, imageCounts)
  {
    ghost var token, image: set<Hit>;
    hide PostingsOf, HitsOf, WellFormed, Edge, TaskCount, Tallies, Duplicate, Runs, Counted, StageCounts;
    var tokenPostings := BuildUriPostings(t, TokenUri, threads);
    var size := if tokenPostings == [] then 1 else ChunkSize(|tokenPostings|, threads);
    var worker;
    worker, token := TokenTasks(t, tokenPostings, size, 0, TaskCount(|tokenPostings|, size), cut);
    WholeRange(t, TokenUri, tokenPostings, {}, size, token);
    forall h | h in token ensures h.nft < |t.nfts| && (h.reach.Against? ==> h.reach.other < t.chainCount) {
      DuplicateBounds(t, h);
    }
    var hits := PackTokenHits(t, worker, token);
    tokenCounts := Flush(worker.uri.scopes);
    FlushCounts(t, token, worker.uri.scopes);

    var imagePostings := BuildUriPostings(t, ImageUri, threads);
    size := if imagePostings == [] then 1 else ChunkSize(|imagePostings|, threads);
    var local;
    local, image := ImageTasks(t, imagePostings, size, 0, TaskCount(|imagePostings|, size), cut, hits, token);
    WholeRange(t, ImageUri, imagePostings, token, size, image);
    imageCounts := Flush(local.scopes);
    FlushCounts(t, image, local.scopes);
    AllCountsMean(t, tokenCounts, imageCounts);
  }

  // ----- totals

  ghost function NftsOf(t: Table, chain: nat): set<nat>
    requires WellFormed(t)
  {
    set n: nat | n < |t.nfts| && Chain(t, n) == chain
  }

  /** No NFT counts in both dimensions of a scope, so together they stay within the chain. */
  lemma WithinChainTotal(t: Table, tokenCounts: map<Key, Counts>, imageCounts: map<Key, Counts>, key: Key)
    requires WellFormed(t) && UriCounts(t, tokenCounts, imageCounts)
    ensures (if key in tokenCounts then tokenCounts[key].nfts else 0) + (if key in imageCounts then imageCounts[key].nfts else 0)
            <= |NftsOf(t, key.primary)|
  {
    hide ContractsOf, At, UriSpec.TokenHits, ImageHits, NftsOf;
    var token, image :|
      UriSpec.TokenHits(t, token) && ImageHits(t, token, image) && Counted(t, token, tokenCounts) && Counted(t, image, imageCounts);
    AtWithin(t, token, key);
    AtWithin(t, image, key);
    NotTwice(t, token, image, key);
    var x, y := At(t, token, key), At(t, image, key);
    assert |x + y| == |x| + |y|;
    SmallerSet(x + y, NftsOf(t, key.primary));
  }

  lemma NotTwice(t: Table, token: set<Hit>, image: set<Hit>, key: Key)
    requires WellFormed(t) && ImageHits(t, token, image)
    ensures At(t, token, key) !! At(t, image, key)
  {}

  lemma AtWithin(t: Table, hits: set<Hit>, key: Key)
    requires WellFormed(t)
    ensures At(t, hits, key) <= NftsOf(t, key.primary)
  {}

  lemma {:induction false} SmallerSet<T>(x: set<T>, y: set<T>)
    requires x <= y
    ensures |x| <= |y|
  {
    assert y == x + (y - x);
  }
}
