/** The radix sorter of `radix.rs`: counting passes on buffers, sequential or split over
    chunks whose writers interleave freely, and the sorts built from them. */
module Radix {
  import opened RadixSpec

  const PARALLEL_RADIX_MIN_LEN: nat := 32 * 1024

  /** The first `RADIX_SIZE` entries of `counts` become the running offsets. */
  ghost predicate Offsets<T>(counts: seq<nat>, s: seq<T>, digits: Digits<T>, p: nat, i: nat) {
    |counts| == RADIX_SIZE && i <= |s|
    && forall b :: 0 <= b < RADIX_SIZE ==> counts[b] == Below(s, digits, p, b) + Equal(s[..i], digits, p, b)
  }

  lemma BelowNext<T>(s: seq<T>, digits: Digits<T>, p: nat, b: nat)
    ensures Below(s, digits, p, 0) == 0
    ensures Below(s, digits, p, b + 1) == Below(s, digits, p, b) + Equal(s, digits, p, b)
  {}

  lemma SlotBound<T(!new)>(s: seq<T>, digits: Digits<T>, p: nat, i: nat)
    requires InRange(digits, RADIX_SIZE) && i < |s|
    ensures Slot(s, digits, p, i) < |s|
  {
    SlotHolds(s, digits, p, RADIX_SIZE, i);
    BucketedPermutes(s, digits, p, RADIX_SIZE);
    assert |multiset(Bucketed(s, digits, p, RADIX_SIZE))| == |multiset(s)|;
  }

  /** Counts the digits of `source`, then turns the counts into offsets. */
  method CountDigits<T(!new)>(source: array<T>, digits: Digits<T>, p: nat, counts: array<nat>)
    requires InRange(digits, RADIX_SIZE) && counts.Length == RADIX_SIZE
    requires source as object != counts
    modifies counts
    ensures Offsets(counts[..], source[..], digits, p, 0)
  {
    hide Bucket, Bucketed;
    ghost var s := source[..];
    var b := 0;
    while b < RADIX_SIZE
      invariant 0 <= b <= RADIX_SIZE
      invariant forall c :: 0 <= c < b ==> counts[c] == 0
    {
      counts[b] := 0;
      b := b + 1;
    }
    EqualNothing(s, digits, p);
    var i := 0;
    while i < source.Length
      invariant 0 <= i <= |s| && source[..] == s
      invariant forall c :: 0 <= c < RADIX_SIZE ==> counts[c] == Equal(s[..i], digits, p, c)
    {
      EqualNextAll(s, digits, p, i);
      var bucket := digits(p, source[i]);
      counts[bucket] := counts[bucket] + 1;
      i := i + 1;
    }
    assert s[..i] == s;
    BelowNext(s, digits, p, 0);
    var offset := 0;
    b := 0;
    while b < RADIX_SIZE
      invariant 0 <= b <= RADIX_SIZE && offset == Below(s, digits, p, b)
      invariant forall c :: 0 <= c < b ==> counts[c] == Below(s, digits, p, c)
      invariant forall c :: b <= c < RADIX_SIZE ==> counts[c] == Equal(s, digits, p, c)
    {
      BelowNext(s, digits, p, b);
      var next := offset + counts[b];
      counts[b] := offset;
      offset := next;
      b := b + 1;
    }
  }

  lemma EqualNextAll<T>(s: seq<T>, digits: Digits<T>, p: nat, i: nat)
    requires i < |s|
    ensures forall b: nat :: Equal(s[..i + 1], digits, p, b) ==
              Equal(s[..i], digits, p, b) + if digits(p, s[i]) == b then 1 else 0
  {
    assert s[..i + 1][..i] == s[..i];
  }

  lemma EqualNothing<T>(s: seq<T>, digits: Digits<T>, p: nat)
    ensures forall b: nat :: Equal(s[..0], digits, p, b) == 0
  {}

  /** The sequential stable pass. */
  method CountingPass<T(!new)>(source: array<T>, destination: array<T>, digits: Digits<T>, p: nat,
                               counts: array<nat>)
    requires InRange(digits, RADIX_SIZE) && counts.Length == RADIX_SIZE
    requires source != destination && source.Length == destination.Length
    requires source as object != counts && destination as object != counts
    modifies destination, counts
    ensures destination[..] == Bucketed(source[..], digits, p, RADIX_SIZE)
  {
    hide Bucket, Bucketed, Slot, Below, Equal;
    ghost var s := source[..];
    CountDigits(source, digits, p, counts);
    var i := 0;
    while i < source.Length
      invariant 0 <= i <= |s| && source[..] == s && Offsets(counts[..], s, digits, p, i)
      invariant Filled(s, digits, p, destination[..], UpTo(i))
    {
      OffsetsNext(counts[..], s, digits, p, i);
      SlotBound(s, digits, p, i);
      FillNext(s, digits, p, destination[..], UpTo(i), i);
      var bucket := digits(p, source[i]);
      destination[counts[bucket]] := source[i];
      counts[bucket] := counts[bucket] + 1;
      i := i + 1;
    }
    FilledAll(s, digits, p, destination[..]);
  }

  ghost function UpTo(i: nat): (r: set<nat>)
    ensures forall j: nat :: j in r <==> j < i
  {
    if i == 0 then {} else UpTo(i - 1) + {i - 1}
  }

  /** The elements in `which` are at their slots. */
  ghost predicate Filled<T>(s: seq<T>, digits: Digits<T>, p: nat, d: seq<T>, which: set<nat>) {
    |d| == |s|
    && forall j: nat :: j < |s| && j in which ==>
         Slot(s, digits, p, j) < |d| && d[Slot(s, digits, p, j)] == s[j]
  }

  lemma FillNext<T(!new)>(s: seq<T>, digits: Digits<T>, p: nat, d: seq<T>, which: set<nat>, i: nat)
    requires InRange(digits, RADIX_SIZE) && Filled(s, digits, p, d, which) && i < |s|
    ensures Slot(s, digits, p, i) < |d|
    ensures Filled(s, digits, p, d[Slot(s, digits, p, i) := s[i]], which + {i})
  {
    hide Slot;
    SlotBound(s, digits, p, i);
    forall j: nat | j < |s| && j != i ensures Slot(s, digits, p, j) != Slot(s, digits, p, i) {
      SlotInjective(s, digits, p, i, j);
    }
  }

  lemma FilledAll<T(!new)>(s: seq<T>, digits: Digits<T>, p: nat, d: seq<T>)
    requires InRange(digits, RADIX_SIZE) && Filled(s, digits, p, d, UpTo(|s|))
    ensures d == Bucketed(s, digits, p, RADIX_SIZE)
  {
    hide Slot;
    SlotsDecide(s, digits, p, RADIX_SIZE, d);
  }

  /** The digit's offset is the next element's slot; moving it on keeps the offsets. */
  lemma OffsetsNext<T(!new)>(counts: seq<nat>, s: seq<T>, digits: Digits<T>, p: nat, i: nat)
    requires InRange(digits, RADIX_SIZE) && Offsets(counts, s, digits, p, i) && i < |s|
    ensures var b := digits(p, s[i]);
            counts[b] == Slot(s, digits, p, i)
            && Offsets(counts[b := counts[b] + 1], s, digits, p, i + 1)
  {
    hide Bucket, Bucketed, Below, Equal;
    EqualNextAll(s, digits, p, i);
  }

  // ----- the parallel pass

  /** Where chunk `c` begins. */
  function ChunkStart(c: nat, size: nat, len: nat): (r: nat)
    ensures r <= len
  {
    if c * size <= len then c * size else len
  }

  function DivCeil(a: nat, b: nat): nat
    requires b > 0
  {
    (a + b - 1) / b
  }

  lemma ChunksCover(size: nat, len: nat)
    requires size > 0
    ensures ChunkStart(0, size, len) == 0
    ensures ChunkStart(DivCeil(len, size), size, len) == len
    ensures forall c: nat, e: nat :: c <= e ==> ChunkStart(c, size, len) <= ChunkStart(e, size, len)
  {
    var n := DivCeil(len, size);
    assert n * size >= len by {
      var q, r := (len + size - 1) / size, (len + size - 1) % size;
      assert len + size - 1 == q * size + r;
    }
    forall c: nat, e: nat | c <= e ensures c * size <= e * size {
      Product(e - c, size);
      assert (e - c) * size == e * size - c * size;
    }
  }

  /** The chunk an element is in. */
  lemma {:induction false} ChunkOf(i: nat, n: nat, size: nat, len: nat) returns (c: nat)
    requires i < ChunkStart(n, size, len)
    ensures c < n && ChunkStart(c, size, len) <= i < ChunkStart(c + 1, size, len)
  {
    if n == 0 {
      assert false;
    } else if ChunkStart(n - 1, size, len) <= i {
      c := n - 1;
    } else {
      c := ChunkOf(i, n - 1, size, len);
    }
  }

  lemma {:induction false} BucketJoin<T>(a: seq<T>, b: seq<T>, digits: Digits<T>, p: nat, d: nat)
    ensures Bucket(a + b, digits, p, d) == Bucket(a, digits, p, d) + Bucket(b, digits, p, d)
  {
    if b == [] {
      assert a + b == a;
    } else {
      assert (a + b)[..|a + b| - 1] == a + b[..|b| - 1];
      BucketJoin(a, b[..|b| - 1], digits, p, d);
    }
  }

  lemma EqualSplit<T>(s: seq<T>, digits: Digits<T>, p: nat, d: nat, i: nat, j: nat)
    requires i <= j <= |s|
    ensures Equal(s[..j], digits, p, d) == Equal(s[..i], digits, p, d) + Equal(s[i..j], digits, p, d)
  {
    assert s[..j] == s[..i] + s[i..j];
    BucketJoin(s[..i], s[i..j], digits, p, d);
  }

  ghost function Chunk<T>(s: seq<T>, size: nat, c: nat): seq<T> {
    var a, b := ChunkStart(c, size, |s|), ChunkStart(c + 1, size, |s|);
    if a <= b then s[a..b] else []
  }

  ghost predicate ChunkCounts<T>(counts: array2<nat>, s: seq<T>, digits: Digits<T>, p: nat, size: nat, n: nat)
    requires counts.Length1 == RADIX_SIZE && n <= counts.Length0
    reads counts
  {
    forall c: nat, d :: c < n && 0 <= d < RADIX_SIZE ==>
      counts[c, d] == Equal(Chunk(s, size, c), digits, p, d)
  }

  /** One worker of the first phase counts its own chunk, touching its own row only. */
  method CountChunk<T(!new)>(source: array<T>, digits: Digits<T>, p: nat, chunkSize: nat,
                             localCounts: array2<nat>, c: nat)
    requires InRange(digits, RADIX_SIZE) && chunkSize > 0
    requires c < localCounts.Length0 && localCounts.Length1 == RADIX_SIZE
    requires c * chunkSize <= source.Length && source as object != localCounts
    modifies localCounts
    ensures forall d :: 0 <= d < RADIX_SIZE ==>
              localCounts[c, d] == Equal(Chunk(source[..], chunkSize, c), digits, p, d)
    ensures forall e, d :: 0 <= e < localCounts.Length0 && 0 <= d < RADIX_SIZE && e != c ==>
              localCounts[e, d] == old(localCounts[e, d])
  {
    hide Bucket, Equal;
    ghost var s := source[..];
    ghost var chunk := Chunk(s, chunkSize, c);
    EqualNothing(chunk, digits, p);
    var b := 0;
    while b < RADIX_SIZE
      invariant 0 <= b <= RADIX_SIZE && source[..] == s
      invariant forall d :: 0 <= d < b ==> localCounts[c, d] == 0
      invariant forall e, d :: 0 <= e < localCounts.Length0 && 0 <= d < RADIX_SIZE && e != c ==>
                  localCounts[e, d] == old(localCounts[e, d])
    {
      localCounts[c, b] := 0;
      b := b + 1;
    }
    var start := c * chunkSize;
    var end := if start + chunkSize <= source.Length then start + chunkSize else source.Length;
    assert (c + 1) * chunkSize == start + chunkSize;
    assert chunk == s[start..end];
    var i := start;
    while i < end
      invariant start <= i <= end && source[..] == s
      invariant forall d :: 0 <= d < RADIX_SIZE ==> localCounts[c, d] == Equal(chunk[..i - start], digits, p, d)
      invariant forall e, d :: 0 <= e < localCounts.Length0 && 0 <= d < RADIX_SIZE && e != c ==>
                  localCounts[e, d] == old(localCounts[e, d])
    {
      EqualNextAll(chunk, digits, p, i - start);
      var bucket := digits(p, source[i]);
      localCounts[c, bucket] := localCounts[c, bucket] + 1;
      i := i + 1;
    }
    assert chunk[..end - start] == chunk;
  }

  lemma ChunkInside(c: nat, size: nat, len: nat)
    requires size > 0 && c < DivCeil(len, size)
    ensures c * size <= len
  {
    var n := DivCeil(len, size);
    var r := (len + size - 1) % size;
    assert len + size - 1 == n * size + r;
    Product(n - 1 - c, size);
    assert (n - 1 - c) * size == n * size - size - c * size;
  }

  /** The offsets of every chunk: where each of its digits starts in the output. */
  ghost predicate ChunkOffsets<T>(offsets: array2<nat>, s: seq<T>, digits: Digits<T>, p: nat, size: nat, n: nat)
    requires offsets.Length1 == RADIX_SIZE && n <= offsets.Length0
    reads offsets
  {
    forall c: nat, d :: c < n && 0 <= d < RADIX_SIZE ==>
      offsets[c, d] == Below(s, digits, p, d) + Equal(s[..ChunkStart(c, size, |s|)], digits, p, d)
  }

  lemma EqualChunk<T>(s: seq<T>, digits: Digits<T>, p: nat, size: nat, c: nat)
    requires size > 0
    ensures forall d: nat :: Equal(s[..ChunkStart(c + 1, size, |s|)], digits, p, d) ==
              Equal(s[..ChunkStart(c, size, |s|)], digits, p, d) + Equal(Chunk(s, size, c), digits, p, d)
  {
    hide Bucket, Equal, ChunkStart;
    ChunksCover(size, |s|);
    forall d: nat
      ensures Equal(s[..ChunkStart(c + 1, size, |s|)], digits, p, d) ==
              Equal(s[..ChunkStart(c, size, |s|)], digits, p, d) + Equal(Chunk(s, size, c), digits, p, d)
    {
      EqualSplit(s, digits, p, d, ChunkStart(c, size, |s|), ChunkStart(c + 1, size, |s|));
    }
  }

  /** Between the phases: where each digit starts, from the totals over the chunks. */
  method BucketStarts<T(!new)>(ghost s: seq<T>, digits: Digits<T>, p: nat, ghost chunkSize: nat,
                               localCounts: array2<nat>, starts: array<nat>)
    requires chunkSize > 0 && localCounts.Length1 == RADIX_SIZE && starts.Length == RADIX_SIZE
    requires localCounts.Length0 == DivCeil(|s|, chunkSize)
    requires ChunkCounts(localCounts, s, digits, p, chunkSize, localCounts.Length0)
    requires starts as object != localCounts
    modifies starts
    ensures Offsets(starts[..], s, digits, p, 0)
  {
    hide Bucket, Bucketed, Equal, Below, ChunkStart, Chunk;
    ChunksCover(chunkSize, |s|);
    EqualNothing(s, digits, p);
    BelowNext(s, digits, p, 0);
    assert s[..|s|] == s;
    var total := 0;
    var bucket := 0;
    while bucket < RADIX_SIZE
      invariant 0 <= bucket <= RADIX_SIZE && total == Below(s, digits, p, bucket)
      invariant forall b :: 0 <= b < bucket ==> starts[b] == Below(s, digits, p, b)
      invariant ChunkCounts(localCounts, s, digits, p, chunkSize, localCounts.Length0)
    {
      starts[bucket] := total;
      var sum := 0;
      var c := 0;
      while c < localCounts.Length0
        invariant 0 <= c <= localCounts.Length0
        invariant sum == Equal(s[..ChunkStart(c, chunkSize, |s|)], digits, p, bucket)
        invariant forall b :: 0 <= b <= bucket ==> starts[b] == Below(s, digits, p, b)
      {
        EqualChunk(s, digits, p, chunkSize, c);
        sum := sum + localCounts[c, bucket];
        c := c + 1;
      }
      assert c == DivCeil(|s|, chunkSize) && s[..ChunkStart(c, chunkSize, |s|)] == s;
      BelowNext(s, digits, p, bucket);
      total := total + sum;
      bucket := bucket + 1;
    }
  }

  /** Between the phases: each chunk's share of each digit's range. */
  method ShareOut<T(!new)>(ghost s: seq<T>, digits: Digits<T>, p: nat, ghost chunkSize: nat,
                           localCounts: array2<nat>, starts: array<nat>, chunkOffsets: array2<nat>)
    requires chunkSize > 0 && localCounts.Length1 == chunkOffsets.Length1 == RADIX_SIZE
    requires localCounts.Length0 == chunkOffsets.Length0 && localCounts != chunkOffsets
    requires ChunkCounts(localCounts, s, digits, p, chunkSize, localCounts.Length0)
    requires starts as object != localCounts && starts as object != chunkOffsets
    requires Offsets(starts[..], s, digits, p, 0)
    modifies starts, chunkOffsets
    ensures ChunkOffsets(chunkOffsets, s, digits, p, chunkSize, chunkOffsets.Length0)
  {
    hide Bucket, Bucketed, Equal, Below, ChunkStart, Chunk;
    ChunksCover(chunkSize, |s|);
    var c := 0;
    while c < localCounts.Length0
      invariant 0 <= c <= localCounts.Length0
      invariant Offsets(starts[..], s, digits, p, ChunkStart(c, chunkSize, |s|))
      invariant ChunkOffsets(chunkOffsets, s, digits, p, chunkSize, c)
      invariant ChunkCounts(localCounts, s, digits, p, chunkSize, localCounts.Length0)
    {
      EqualChunk(s, digits, p, chunkSize, c);
      ghost var before := starts[..];
      var b := 0;
      while b < RADIX_SIZE
        invariant 0 <= b <= RADIX_SIZE
        invariant ChunkOffsets(chunkOffsets, s, digits, p, chunkSize, c)
        invariant ChunkCounts(localCounts, s, digits, p, chunkSize, localCounts.Length0)
        invariant forall d :: 0 <= d < b ==> chunkOffsets[c, d] == before[d]
        invariant forall d :: 0 <= d < b ==> starts[d] == before[d] + Equal(Chunk(s, chunkSize, c), digits, p, d)
        invariant forall d :: b <= d < RADIX_SIZE ==> starts[d] == before[d]
      {
        chunkOffsets[c, b] := starts[b];
        starts[b] := starts[b] + localCounts[c, b];
        b := b + 1;
      }
      c := c + 1;
    }
  }

  /** One writer: its chunk of the input, how far it is, and its private cursors. */
  datatype Writer = Writer(start: nat, end: nat, next: nat, cursors: seq<nat>)

  ghost predicate WriterOk<T>(w: Writer, s: seq<T>, digits: Digits<T>, p: nat) {
    w.start <= w.next <= w.end <= |s| && Offsets(w.cursors, s, digits, p, w.next)
  }

  /** The writers' chunks divide the input between them. */
  ghost predicate Divides(ws: seq<Writer>, len: nat) {
    && (forall c, e :: 0 <= c < e < |ws| ==> ws[c].end <= ws[e].start)
    && (forall i: nat :: i < len ==> Owner(ws, i))
  }

  ghost predicate Owner(ws: seq<Writer>, i: nat) {
    exists c :: 0 <= c < |ws| && ws[c].start <= i < ws[c].end
  }

  ghost predicate Written(ws: seq<Writer>, i: nat) {
    exists c :: 0 <= c < |ws| && ws[c].start <= i < ws[c].next
  }

  /** Element `i` is at its slot, written there once, if its writer got to it; otherwise
      its slot is untouched. */
  ghost predicate Output<T>(ws: seq<Writer>, s: seq<T>, digits: Digits<T>, p: nat, d: seq<T>, writes: seq<nat>) {
    |d| == |writes| == |s|
    && forall i: nat :: i < |s| ==>
         Slot(s, digits, p, i) < |s|
         && writes[Slot(s, digits, p, i)] == (if Written(ws, i) then 1 else 0)
         && (Written(ws, i) ==> d[Slot(s, digits, p, i)] == s[i])
  }

  /** What writer `c` becomes by writing its next element. */
  function Advance<T>(ws: seq<Writer>, s: seq<T>, digits: Digits<T>, p: nat, c: nat): seq<Writer>
    requires c < |ws| && ws[c].next < |s| && digits(p, s[ws[c].next]) < |ws[c].cursors|
  {
    var w := ws[c];
    var b := digits(p, s[w.next]);
    ws[c := w.(next := w.next + 1, cursors := w.cursors[b := w.cursors[b] + 1])]
  }

  lemma WrittenAdvances<T>(ws: seq<Writer>, s: seq<T>, digits: Digits<T>, p: nat, c: nat, i: nat)
    requires c < |ws| && ws[c].start <= ws[c].next < ws[c].end && ws[c].next < |s|
    requires digits(p, s[ws[c].next]) < |ws[c].cursors|
    ensures Written(Advance(ws, s, digits, p, c), i) <==> Written(ws, i) || i == ws[c].next
  {
    var vs := Advance(ws, s, digits, p, c);
    if Written(ws, i) {
      var e :| 0 <= e < |ws| && ws[e].start <= i < ws[e].next;
      assert vs[e].start <= i < vs[e].next;
    } else if i == ws[c].next {
      assert vs[c].start <= i < vs[c].next;
    }
  }

  lemma NotYetWritten(ws: seq<Writer>, len: nat, c: nat)
    requires Divides(ws, len) && c < |ws| && ws[c].start <= ws[c].next < ws[c].end
    requires forall e :: 0 <= e < |ws| ==> ws[e].next <= ws[e].end
    ensures !Written(ws, ws[c].next)
  {}

  /** A single write by any writer keeps the output exact. */
  lemma WriteStep<T(!new)>(ws: seq<Writer>, s: seq<T>, digits: Digits<T>, p: nat, d: seq<T>,
                           writes: seq<nat>, c: nat)
    requires InRange(digits, RADIX_SIZE) && Divides(ws, |s|) && Output(ws, s, digits, p, d, writes)
    requires forall e :: 0 <= e < |ws| ==> WriterOk(ws[e], s, digits, p)
    requires c < |ws| && ws[c].next < ws[c].end && WriterOk(ws[c], s, digits, p)
    ensures var i := ws[c].next;
            var q := ws[c].cursors[digits(p, s[i])];
            var vs := Advance(ws, s, digits, p, c);
            && q == Slot(s, digits, p, i) < |s| && writes[q] == 0
            && Divides(vs, |s|) && Output(vs, s, digits, p, d[q := s[i]], writes[q := 1])
            && forall e :: 0 <= e < |vs| ==> WriterOk(vs[e], s, digits, p)
  {
    hide Slot, Offsets;
    var i := ws[c].next;
    var q := Slot(s, digits, p, i);
    OffsetsNext(ws[c].cursors, s, digits, p, i);
    OffsetsShape(ws[c].cursors, s, digits, p, i);
    NotYetWritten(ws, |s|, c);
    AdvanceDivides(ws, s, digits, p, c);
    var vs := Advance(ws, s, digits, p, c);
    hide Written, Advance;
    forall j: nat | j < |s|
      ensures Slot(s, digits, p, j) < |s|
      ensures writes[q := 1][Slot(s, digits, p, j)] == (if Written(vs, j) then 1 else 0)
      ensures Written(vs, j) ==> d[q := s[i]][Slot(s, digits, p, j)] == s[j]
    {
      WrittenAdvances(ws, s, digits, p, c, j);
      if j != i {
        SlotInjective(s, digits, p, i, j);
      }
    }
  }

  lemma OffsetsShape<T>(counts: seq<nat>, s: seq<T>, digits: Digits<T>, p: nat, i: nat)
    requires Offsets(counts, s, digits, p, i)
    ensures |counts| == RADIX_SIZE
  {}

  lemma AdvanceDivides<T>(ws: seq<Writer>, s: seq<T>, digits: Digits<T>, p: nat, c: nat)
    requires Divides(ws, |s|) && c < |ws| && ws[c].next < |s| && digits(p, s[ws[c].next]) < |ws[c].cursors|
    ensures Divides(Advance(ws, s, digits, p, c), |s|)
  {
    var vs := Advance(ws, s, digits, p, c);
    forall i: nat | i < |s| ensures Owner(vs, i) {
      assert Owner(ws, i);
      var e :| 0 <= e < |ws| && ws[e].start <= i < ws[e].end;
      assert vs[e].start <= i < vs[e].end;
    }
  }

  /** The first phase: the workers count their chunks, each in its own row. */
  method CountChunks<T(!new)>(source: array<T>, digits: Digits<T>, p: nat, chunkSize: nat,
                              localCounts: array2<nat>)
    requires InRange(digits, RADIX_SIZE) && chunkSize > 0
    requires localCounts.Length0 == DivCeil(source.Length, chunkSize) && localCounts.Length1 == RADIX_SIZE
    requires source as object != localCounts
    modifies localCounts
    ensures ChunkCounts(localCounts, source[..], digits, p, chunkSize, localCounts.Length0)
  {
    hide Bucket, Equal, Chunk, DivCeil;
    ghost var s := source[..];
    var c := 0;
    while c < localCounts.Length0
      invariant 0 <= c <= localCounts.Length0 && source[..] == s
      invariant ChunkCounts(localCounts, s, digits, p, chunkSize, c)
    {
      ChunkInside(c, chunkSize, source.Length);
      CountChunk(source, digits, p, chunkSize, localCounts, c);
      c := c + 1;
    }
  }

  /** The writers of the second phase, before any of them writes. */
  method Writers<T(!new)>(ghost s: seq<T>, len: nat, digits: Digits<T>, p: nat, chunkSize: nat,
                          chunkOffsets: array2<nat>)
    returns (writers: seq<Writer>)
    requires chunkSize > 0 && len == |s|
    requires chunkOffsets.Length0 == DivCeil(len, chunkSize) && chunkOffsets.Length1 == RADIX_SIZE
    requires ChunkOffsets(chunkOffsets, s, digits, p, chunkSize, chunkOffsets.Length0)
    ensures Divides(writers, len)
    ensures forall w :: 0 <= w < |writers| ==> WriterOk(writers[w], s, digits, p)
    ensures forall w :: 0 <= w < |writers| ==> writers[w].next == writers[w].start
  {
    hide Bucket, Bucketed, Equal, Below, ChunkStart, DivCeil;
    ChunksCover(chunkSize, len);
    writers := [];
    var c := 0;
    while c < chunkOffsets.Length0
      invariant 0 <= c <= chunkOffsets.Length0 == DivCeil(len, chunkSize) && |writers| == c
      invariant forall w :: 0 <= w < c ==> WriterOk(writers[w], s, digits, p)
      invariant forall w :: 0 <= w < c ==> writers[w].next == writers[w].start
      invariant forall w :: 0 <= w < c ==>
                  writers[w].start == ChunkStart(w, chunkSize, len) && writers[w].end == ChunkStart(w + 1, chunkSize, len)
    {
      var start := ChunkStart(c, chunkSize, len);
      var cursors := seq(RADIX_SIZE, b requires 0 <= b < RADIX_SIZE reads chunkOffsets => chunkOffsets[c, b]);
      var writer := Writer(start, ChunkStart(c + 1, chunkSize, len), start, cursors);
      assert Offsets(cursors, s, digits, p, start);
      writers := writers + [writer];
      c := c + 1;
    }
    forall a, e | 0 <= a < e < |writers| ensures writers[a].end <= writers[e].start {
      assert ChunkStart(a + 1, chunkSize, len) <= ChunkStart(e, chunkSize, len);
    }
    forall i: nat | i < len ensures Owner(writers, i) {
      var o := ChunkOf(i, c, chunkSize, len);
      assert writers[o].start <= i < writers[o].end;
    }
  }

  lemma NothingWritten<T(!new)>(ws: seq<Writer>, s: seq<T>, digits: Digits<T>, p: nat, d: seq<T>, writes: seq<nat>)
    requires InRange(digits, RADIX_SIZE) && |d| == |writes| == |s|
    requires forall q :: 0 <= q < |writes| ==> writes[q] == 0
    requires forall w :: 0 <= w < |ws| ==> ws[w].next == ws[w].start
    ensures Output(ws, s, digits, p, d, writes)
    ensures forall i: nat :: !Written(ws, i)
  {
    hide Slot;
    forall i: nat | i < |s| ensures Slot(s, digits, p, i) < |s| {
      SlotBound(s, digits, p, i);
    }
  }

  lemma AllWritten<T(!new)>(ws: seq<Writer>, s: seq<T>, digits: Digits<T>, p: nat, d: seq<T>, writes: seq<nat>)
    requires InRange(digits, RADIX_SIZE) && Divides(ws, |s|) && Output(ws, s, digits, p, d, writes)
    requires forall w :: 0 <= w < |ws| ==> ws[w].next >= ws[w].end
    ensures d == Bucketed(s, digits, p, RADIX_SIZE)
    ensures forall q :: 0 <= q < |s| ==> writes[q] == 1
  {
    hide Slot, Bucketed;
    forall i: nat | i < |s| ensures Written(ws, i) {
      assert Owner(ws, i);
    }
    FilledAll(s, digits, p, d);
    forall q | 0 <= q < |s| ensures writes[q] == 1 {
      PassLength(s, digits, p);
      var i := SlotOnto(s, digits, p, RADIX_SIZE, q);
      assert Written(ws, i);
    }
  }

  lemma PassLength<T(!new)>(s: seq<T>, digits: Digits<T>, p: nat)
    requires InRange(digits, RADIX_SIZE)
    ensures Below(s, digits, p, RADIX_SIZE) == |s|
  {
    BucketedPermutes(s, digits, p, RADIX_SIZE);
    assert |multiset(Bucketed(s, digits, p, RADIX_SIZE))| == |multiset(s)|;
  }

  /** The second phase. The writers run in any order, one write at a time: whichever
      unfinished writer goes next, every output slot is written exactly once and the
      output is the sequential pass's. */
  method WriteInterleaved<T(!new)>(source: array<T>, output: array<T>, digits: Digits<T>, p: nat,
                                   writers: seq<Writer>)
    returns (ghost writes: seq<nat>)
    requires InRange(digits, RADIX_SIZE) && source != output && source.Length == output.Length
    requires Divides(writers, source.Length)
    requires forall w :: 0 <= w < |writers| ==> WriterOk(writers[w], source[..], digits, p)
    requires forall w :: 0 <= w < |writers| ==> writers[w].next == writers[w].start
    modifies output
    ensures output[..] == Bucketed(source[..], digits, p, RADIX_SIZE)
    ensures |writes| == output.Length && forall q :: 0 <= q < |writes| ==> writes[q] == 1
  {
    hide Bucketed, Output, Divides, Offsets, Slot, Written;
    ghost var s := source[..];
    var ws := writers;
    writes := seq(output.Length, _ => 0);
    NothingWritten(ws, s, digits, p, output[..], writes);
    ghost var left := UpTo(source.Length);
    while exists w :: 0 <= w < |ws| && ws[w].next < ws[w].end
      invariant source[..] == s && Divides(ws, |s|) && |writes| == output.Length
      invariant forall w :: 0 <= w < |ws| ==> WriterOk(ws[w], s, digits, p)
      invariant Output(ws, s, digits, p, output[..], writes)
      invariant forall i: nat :: i < |s| && !Written(ws, i) ==> i in left
      decreases left
    {
      var w :| 0 <= w < |ws| && ws[w].next < ws[w].end;
      var i := ws[w].next;
      WriteStep(ws, s, digits, p, output[..], writes, w);
      OffsetsShape(ws[w].cursors, s, digits, p, i);
      NotYetWritten(ws, |s|, w);
      var bucket := digits(p, source[i]);
      var position := ws[w].cursors[bucket];
      ghost var vs := Advance(ws, s, digits, p, w);
      forall j: nat | j < |s| && !Written(vs, j) ensures j in left - {i} {
        WrittenAdvances(ws, s, digits, p, w, j);
      }
      output[position] := source[i];
      writes := writes[position := 1];
      left := left - {i};
      ws := ws[w := ws[w].(next := i + 1, cursors := ws[w].cursors[bucket := position + 1])];
    }
    AllWritten(ws, s, digits, p, output[..], writes);
  }

  method ParallelCountingPass<T(!new)>(source: array<T>, output: array<T>, digits: Digits<T>, p: nat,
                                       chunkSize: nat, localCounts: array2<nat>, chunkOffsets: array2<nat>)
    returns (ghost writes: seq<nat>)
    requires InRange(digits, RADIX_SIZE) && chunkSize > 0
    requires source != output && source.Length == output.Length
    requires localCounts.Length0 == chunkOffsets.Length0 == DivCeil(source.Length, chunkSize)
    requires localCounts.Length1 == chunkOffsets.Length1 == RADIX_SIZE && localCounts != chunkOffsets
    requires source as object != localCounts && source as object != chunkOffsets
    requires output as object != localCounts && output as object != chunkOffsets
    modifies output, localCounts, chunkOffsets
    ensures output[..] == Bucketed(source[..], digits, p, RADIX_SIZE)
    ensures |writes| == output.Length && forall q :: 0 <= q < |writes| ==> writes[q] == 1
  {
    hide Bucketed, ChunkCounts, ChunkOffsets, Divides, WriterOk, DivCeil, Offsets;
    ghost var s := source[..];
    CountChunks(source, digits, p, chunkSize, localCounts);
    var starts := new nat[RADIX_SIZE];
    BucketStarts(s, digits, p, chunkSize, localCounts, starts);
    ShareOut(s, digits, p, chunkSize, localCounts, starts, chunkOffsets);
    var writers := Writers(s, source.Length, digits, p, chunkSize, chunkOffsets);
    writes := WriteInterleaved(source, output, digits, p, writers);
  }
}
