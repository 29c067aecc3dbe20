/** The log scanner: blocks are scanned downwards in ranges, and a checkpoint is saved after
    each range, so that a stopped or crashed run can be taken up again. */
module LogScan {
  import opened Wrappers
  import opened Sorting
  import opened NftKeys

  /** A transfer found in the logs. */
  datatype Log = Log(block: int, key: NftKey)

  type Range = (int, int)

  /** The keys that the logs of a block hold; empty for blocks without transfers. */
  type Blocks = int -> set<NftKey>

  /** A fetch of `[from, to]` returns the logs of those blocks, in any order. */
  ghost predicate Fetches(blocks: Blocks, fetch: Range -> seq<Log>) {
    forall range: Range, key, b :: Log(b, key) in fetch(range) <==> range.0 <= b <= range.1 && key in blocks(b)
  }

  /** What lasts from run to run: the checkpoint and the keys in the tables. Workers move
      staged keys on, so what counts is which keys were ever there, and which contracts
      were ever blacklisted. */
  class Database {
    var checkpoint: Option<int>
    var tables: set<NftKey>
    ghost var ever: set<NftKey>
    ghost var blacklisted: set<string>

    constructor (tables: set<NftKey>)
      ensures checkpoint == None && this.tables == tables && ever == tables && blacklisted == {}
    {
      checkpoint, this.tables, ever, blacklisted := None, tables, tables, {};
    }

    /** `batch_insert_temp` */
    method BatchInsertTemp(keys: seq<NftKey>)
      modifies this`ever, this`tables
      ensures ever == old(ever) + (set k | k in keys) && tables == old(tables) + set k | k in keys
    {
      ever := ever + set k | k in keys;
      tables := tables + set k | k in keys;
    }

    /** Workers delete what they have dealt with, or what is blacklisted. */
    method WorkersDelete(gone: set<NftKey>)
      modifies this`tables
      ensures tables == old(tables) - gone
    {
      tables := tables - gone;
    }

    /** `save_progress` */
    method SaveProgress(block: int)
      modifies this`checkpoint
      ensures checkpoint == Some(block)
    {
      checkpoint := Some(block);
    }

    /** There is no gap above the checkpoint. */
    ghost predicate NoGap(blocks: Blocks, top: int)
      reads this
    {
      && tables <= ever
      && (checkpoint.Some? ==> ExtractedFrom(blocks, ever, blacklisted, checkpoint.value, top))
    }
  }

  /** Every key of these blocks was staged at some time, or its contract was blacklisted. */
  ghost predicate ExtractedFrom(blocks: Blocks, ever: set<NftKey>, blacklisted: set<string>, low: int, top: int) {
    forall b, key :: low <= b <= top && key in blocks(b) ==> key in ever || key.contract in blacklisted
  }

  lemma StillExtracted(blocks: Blocks, ever: set<NftKey>, blacklisted: set<string>, ever': set<NftKey>, blacklisted': set<string>,
                       low: int, top: int)
    requires ExtractedFrom(blocks, ever, blacklisted, low, top) && ever <= ever' && blacklisted <= blacklisted'
    ensures ExtractedFrom(blocks, ever', blacklisted', low, top)
  {}

  /** Ranges that follow one another downwards from `top` to `low`. */
  ghost predicate Descending(ranges: seq<Range>, top: int, low: int) {
    if ranges == [] then low == top + 1
    else
      && ranges[0].1 == top && ranges[0].0 <= ranges[0].1
      && Descending(ranges[1..], ranges[0].0 - 1, low)
  }

  lemma {:induction false} DescendingPush(ranges: seq<Range>, top: int, low: int, from: int)
    requires Descending(ranges, top, low) && from <= low - 1
    ensures Descending(ranges + [(from, low - 1)], top, from)
  {
    var more := ranges + [(from, low - 1)];
    if ranges == [] {
      assert more[1..] == [];
    } else {
      DescendingPush(ranges[1..], ranges[0].0 - 1, low, from);
      assert more[1..] == ranges[1..] + [(from, low - 1)];
    }
  }

  lemma DescendingPop(ranges: seq<Range>, top: int, low: int)
    requires Descending(ranges, top, low)
    ensures ranges == [] ==> low == top + 1
    ensures ranges != [] ==> ranges[0].1 == top && ranges[0].0 <= top && Descending(ranges[1..], ranges[0].0 - 1, low)
  {}

  lemma NothingQueued(top: int)
    ensures Descending([], top, top + 1)
  {}

  /** The ranges of a run are disjoint and leave nothing out. */
  lemma {:induction false} DescendingTiles(ranges: seq<Range>, top: int, low: int, b: int)
    requires Descending(ranges, top, low)
    ensures low <= top + 1
    ensures low <= b <= top <==> exists i :: 0 <= i < |ranges| && ranges[i].0 <= b <= ranges[i].1
    ensures forall i, j :: 0 <= i < j < |ranges| ==> ranges[j].1 < ranges[i].0
  {
    if ranges != [] {
      DescendingTiles(ranges[1..], ranges[0].0 - 1, low, b);
      forall j | 0 < j < |ranges| ensures ranges[j].1 < ranges[0].0 {
        DescendingTiles(ranges[1..], ranges[0].0 - 1, low, ranges[j].1);
        BelowTop(ranges[1..], ranges[0].0 - 1, low, j - 1);
      }
      if i :| 0 <= i < |ranges| && ranges[i].0 <= b <= ranges[i].1 {
        BelowTop(ranges, top, low, i);
        assert i > 0 ==> ranges[1..][i - 1] == ranges[i];
      }
    }
  }

  lemma {:induction false} BelowTop(ranges: seq<Range>, top: int, low: int, i: nat)
    requires Descending(ranges, top, low) && i < |ranges|
    ensures low <= ranges[i].0 <= ranges[i].1 <= top
  {
    if i > 0 {
      BelowTop(ranges[1..], ranges[0].0 - 1, low, i - 1);
    } else {
      LowBelow(ranges[1..], ranges[0].0 - 1, low);
    }
  }

  lemma {:induction false} LowBelow(ranges: seq<Range>, top: int, low: int)
    requires Descending(ranges, top, low)
    ensures low <= top + 1
  {
    if ranges != [] {
      LowBelow(ranges[1..], ranges[0].0 - 1, low);
    }
  }

  class Scanner {
    const stopBlock: int
    const batchSize: nat
    const blacklist: set<string>
    var curBlock: int
    var seen: set<NftKey>
    var window: seq<Range>

    /** Every range ever queued in this run. */
    ghost var queued: seq<Range>

    constructor (startBlock: int, stopBlock: int, batchSize: nat, seen: set<NftKey>, blacklist: set<string>)
      ensures this.stopBlock == stopBlock && this.batchSize == batchSize && this.blacklist == blacklist
      ensures curBlock == startBlock && this.seen == seen && window == [] && queued == []
    {
      this.stopBlock, this.batchSize, this.blacklist := stopBlock, batchSize, blacklist;
      curBlock, this.seen, window, queued := startBlock, seen, [], [];
    }

    /** `_next_range` */
    method NextRange() returns (range: Option<Range>)
      requires batchSize > 0
      modifies this`curBlock
      ensures range.None? <==> old(curBlock) < stopBlock
      ensures range.None? ==> curBlock == old(curBlock)
      ensures range.Some? ==>
                && range.value.1 == old(curBlock) && stopBlock <= range.value.0 <= range.value.1
                && range.value.1 - range.value.0 < batchSize
                && curBlock == range.value.0 - 1
    {
      if curBlock < stopBlock {
        return None;
      }
      var from := if curBlock - batchSize + 1 > stopBlock then curBlock - batchSize + 1 else stopBlock;
      range := Some((from, curBlock));
      curBlock := from - 1;
    }

    /** `_enqueue` */
    method Enqueue(stop: bool, ghost first: int, ghost head: int) returns (queuedOne: bool)
      requires batchSize > 0 && Descending(queued, first, curBlock + 1) && Descending(window, head, curBlock + 1)
      modifies this`curBlock, this`window, this`queued
      ensures Descending(queued, first, curBlock + 1) && Descending(window, head, curBlock + 1)
      ensures queuedOne <==> !stop && old(curBlock) >= stopBlock
      ensures !queuedOne ==> curBlock == old(curBlock) && window == old(window) && queued == old(queued)
      ensures queuedOne ==> |window| == |old(window)| + 1 && old(window) <= window && stopBlock - 1 <= curBlock < old(curBlock)
      ensures queuedOne ==> queued == old(queued) + [window[|old(window)|]]
    {
      if stop {
        return false;
      }
      var range := NextRange();
      if range.None? {
        return false;
      }
      DescendingPush(queued, first, old(curBlock) + 1, range.value.0);
      DescendingPush(window, head, old(curBlock) + 1, range.value.0);
      window, queued := window + [range.value], queued + [range.value];
      return true;
    }

    /** `_extract_records`: the keys not seen before, but for blacklisted contracts. */
    method ExtractRecords(logs: seq<Log>) returns (records: seq<NftKey>)
      modifies this`seen
      ensures forall k :: k in records <==> (exists i :: 0 <= i < |logs| && logs[i].key == k) && k !in old(seen) && k.contract !in blacklist
      ensures Distinct(records) && seen == old(seen) + set k | k in records
    {
      records := [];
      for n := 0 to |logs|
        invariant forall k :: k in records <==> (exists i :: 0 <= i < n && logs[i].key == k) && k !in old(seen) && k.contract !in blacklist
        invariant Distinct(records) && seen == old(seen) + set k | k in records
      {
        var key := logs[n].key;
        if key in seen {
          continue;
        }
        if key.contract in blacklist {
          continue;
        }
        assert forall i :: 0 <= i < |records| ==> records[i] in records;
        seen := seen + {key};
        records := records + [key];
      }
    }
  }

  /** How a run goes: its settings, and at which steps it is told to stop or crashes. */
  datatype Course = Course(batchSize: nat, windowSize: nat, blacklist: set<string>, stop: nat -> bool, crash: nat -> bool,
                           gone: set<NftKey>)

  /** A range whose logs are extracted and inserted has no keys left out. */
  lemma RangeExtracted(blocks: Blocks, fetch: Range -> seq<Log>, range: Range, seen: set<NftKey>, blacklist: set<string>,
                       records: seq<NftKey>, tables: set<NftKey>, b: int, key: NftKey)
    requires Fetches(blocks, fetch) && range.0 <= b <= range.1 && key in blocks(b)
    requires forall k :: k in records <==>
               (exists i :: 0 <= i < |fetch(range)| && fetch(range)[i].key == k) && k !in seen && k.contract !in blacklist
    requires seen <= tables && forall k :: k in records ==> k in tables
    ensures key in tables || key.contract in blacklist
  {
    assert Log(b, key) in fetch(range);
    var i :| 0 <= i < |fetch(range)| && fetch(range)[i] == Log(b, key);
  }

  /** What was added lies in these blocks, and is of no blacklisted contract. */
  ghost predicate OnlyFrom(blocks: Blocks, was: set<NftKey>, now: set<NftKey>, blacklist: set<string>, low: int, high: int) {
    was <= now && forall k :: k in now && k !in was ==> k.contract !in blacklist && InBlocks(blocks, k, low, high)
  }

  ghost predicate InBlocks(blocks: Blocks, key: NftKey, low: int, high: int) {
    exists b :: low <= b <= high && key in blocks(b)
  }

  lemma RecordsFrom(blocks: Blocks, fetch: Range -> seq<Log>, range: Range, seen: set<NftKey>, blacklist: set<string>,
                    records: seq<NftKey>, was: set<NftKey>, now: set<NftKey>)
    requires Fetches(blocks, fetch) && now == was + set k | k in records
    requires forall k :: k in records <==>
               (exists i :: 0 <= i < |fetch(range)| && fetch(range)[i].key == k) && k !in seen && k.contract !in blacklist
    ensures OnlyFrom(blocks, was, now, blacklist, range.0, range.1)
  {
    forall k | k in records ensures InBlocks(blocks, k, range.0, range.1) {
      var i :| 0 <= i < |fetch(range)| && fetch(range)[i].key == k;
      assert Log(fetch(range)[i].block, k) in fetch(range);
    }
  }

  lemma OnlyFromMore(blocks: Blocks, a: set<NftKey>, b: set<NftKey>, c: set<NftKey>, blacklist: set<string>, low: int, high: int,
                     low': int, high': int)
    requires OnlyFrom(blocks, a, b, blacklist, low, high) && OnlyFrom(blocks, b, c, blacklist, low', high')
    requires low <= low' && high' <= high
    ensures OnlyFrom(blocks, a, c, blacklist, low, high)
  {
    forall k | k in c && k !in a ensures k.contract !in blacklist && InBlocks(blocks, k, low, high) {
    }
  }

  /** A run that is never told to stop and never crashes. */
  ghost predicate Calm(course: Course) {
    course.windowSize > 0 && forall k :: !course.stop(k) && !course.crash(k)
  }

  /** One range more is extracted. */
  lemma RangeDone(blocks: Blocks, fetch: Range -> seq<Log>, range: Range, top: int, seen: set<NftKey>, blacklist: set<string>,
                  records: seq<NftKey>, was: set<NftKey>, now: set<NftKey>)
    requires Fetches(blocks, fetch) && seen <= was && now == was + set k | k in records
    requires forall k :: k in records <==>
               (exists i :: 0 <= i < |fetch(range)| && fetch(range)[i].key == k) && k !in seen && k.contract !in blacklist
    requires ExtractedFrom(blocks, was, blacklist, range.1 + 1, top)
    ensures ExtractedFrom(blocks, now, blacklist, range.0, top) && ExtractedFrom(blocks, now, blacklist, range.1 + 1, top)
  {
    forall b, key | range.0 <= b <= range.1 && key in blocks(b) ensures key in now || key.contract in blacklist {
      RangeExtracted(blocks, fetch, range, seen, blacklist, records, now, b, key);
    }
  }

  /** Extracts a range and inserts its records. */
  method InsertRange(db: Database, fetch: Range -> seq<Log>, scanner: Scanner, range: Range, ghost blocks: Blocks, ghost top: int)
    requires Fetches(blocks, fetch) && scanner.seen <= db.tables <= db.ever
    requires ExtractedFrom(blocks, db.tables, scanner.blacklist, range.1 + 1, top)
    modifies db`ever, db`tables, scanner`seen
    ensures scanner.seen <= db.tables && old(db.tables) <= db.tables && db.ever == old(db.ever) + db.tables
    ensures ExtractedFrom(blocks, db.tables, scanner.blacklist, range.0, top)
    ensures ExtractedFrom(blocks, db.tables, scanner.blacklist, range.1 + 1, top)
    ensures OnlyFrom(blocks, old(db.tables), db.tables, scanner.blacklist, range.0, range.1)
  {
    hide ExtractedFrom, Fetches, OnlyFrom;
    ghost var seen, was := scanner.seen, db.tables;
    var records := scanner.ExtractRecords(fetch(range));
    db.BatchInsertTemp(records);
    RecordsFrom(blocks, fetch, range, seen, scanner.blacklist, records, was, db.tables);
    RangeDone(blocks, fetch, range, top, seen, scanner.blacklist, records, was, db.tables);
  }

  /** A stop request keeps any later range from being queued: by the time of the k-th range
      taken, at most as many were queued as there were requests to queue one. */
  ghost predicate Heeds(course: Course, stopped: bool, queued: seq<Range>, over: bool, k: nat) {
    && |queued| <= course.windowSize + k
    && (forall n: nat :: course.stop(n) ==> |queued| <= n)
    && (stopped || over || forall n: nat :: n < course.windowSize + k ==> !course.stop(n))
  }

  lemma StopsHeeded(course: Course, stopped: bool, queued: seq<Range>, over: bool, k: nat)
    requires Heeds(course, stopped, queued, over, k)
    ensures forall n: nat :: course.stop(n) ==> |queued| <= n
  {}

  /** Takes the oldest range and queues one more, unless the run is stopped. */
  method TakeOne(scanner: Scanner, course: Course, wasStopped: bool, k: nat, ghost first: int, ghost head: int)
    returns (range: Range, stopped: bool)
    requires scanner.batchSize > 0 && scanner.curBlock >= scanner.stopBlock - 1 && scanner.window != []
    requires k < |scanner.queued| && scanner.window == scanner.queued[k..]
    requires Heeds(course, wasStopped, scanner.queued, scanner.curBlock < scanner.stopBlock, k)
    requires Descending(scanner.queued, first, scanner.curBlock + 1) && Descending(scanner.window, head, scanner.curBlock + 1)
    modifies scanner`curBlock, scanner`window, scanner`queued
    ensures range == old(scanner.window[0]) && range.1 == head && scanner.stopBlock <= range.0 <= range.1
    ensures k < |scanner.queued| && range == scanner.queued[k] && old(scanner.queued) <= scanner.queued
    ensures stopped <==> wasStopped || course.stop(course.windowSize + k)
    ensures scanner.window == scanner.queued[k + 1..]
    ensures Heeds(course, stopped, scanner.queued, scanner.curBlock < scanner.stopBlock, k + 1)
    ensures Descending(scanner.queued, first, scanner.curBlock + 1) && Descending(scanner.window, range.0 - 1, scanner.curBlock + 1)
    ensures stopped || scanner.curBlock < scanner.stopBlock || scanner.window != []
    ensures scanner.stopBlock - 1 <= scanner.curBlock <= old(scanner.curBlock)
    ensures scanner.curBlock == old(scanner.curBlock) ==> |scanner.window| < old(|scanner.window|)
  {
    hide Descending;
    DescendingPop(scanner.window, head, scanner.curBlock + 1);
    LowBelow(scanner.window[1..], scanner.window[0].0 - 1, scanner.curBlock + 1);
    range := scanner.window[0];
    scanner.window := scanner.window[1..];
    stopped := wasStopped || course.stop(course.windowSize + k);
    var _ := scanner.Enqueue(stopped, first, range.0 - 1);
  }

  /** The window loop: first in, first out, one range queued for each taken. */
  method Drain(db: Database, fetch: Range -> seq<Log>, scanner: Scanner, course: Course, wasStopped: bool,
               ghost blocks: Blocks, ghost first: int)
    returns (finished: bool, ghost head: int, ghost done: nat)
    requires Fetches(blocks, fetch) && scanner.batchSize > 0
    requires Descending(scanner.queued, first, scanner.curBlock + 1) && Descending(scanner.window, first, scanner.curBlock + 1)
    requires scanner.seen <= db.tables <= db.ever
    requires scanner.curBlock >= scanner.stopBlock - 1
    requires wasStopped || scanner.curBlock < scanner.stopBlock || scanner.window != []
    requires scanner.window == scanner.queued
    requires Heeds(course, wasStopped, scanner.queued, scanner.curBlock < scanner.stopBlock, 0)
    modifies db, scanner
    ensures done <= |scanner.queued| && head == if done == 0 then first else scanner.queued[done - 1].0 - 1
    ensures forall n: nat :: course.stop(n) ==> |scanner.queued| <= n
    ensures forall n: nat :: course.crash(n) ==> 2 * done <= n
    ensures (forall n: nat :: !course.crash(n)) ==> done == |scanner.queued|
    ensures head <= first && (done > 0 ==> head < first)
    ensures db.checkpoint == if done == 0 then old(db.checkpoint) else Some(head + 1)
    ensures db.ever == old(db.ever) + db.tables && db.blacklisted == old(db.blacklisted)
    ensures ExtractedFrom(blocks, db.tables, scanner.blacklist, head + 1, first)
    ensures OnlyFrom(blocks, old(db.tables), db.tables, scanner.blacklist, scanner.stopBlock, first)
    ensures Calm(course) && !wasStopped ==> finished
    ensures Descending(scanner.queued, first, scanner.curBlock + 1) && scanner.curBlock >= scanner.stopBlock - 1
    ensures finished && !wasStopped ==> head < scanner.stopBlock
  {
    hide ExtractedFrom, Fetches, Descending, OnlyFrom, Heeds;
    var stopped := wasStopped;
    head := first;
    NothingAbove(blocks, db.tables, scanner.blacklist, first);
    NothingAdded(blocks, db.tables, scanner.blacklist, scanner.stopBlock, first);
    var k: nat := 0;
    while scanner.window != []
      invariant k <= |scanner.queued| && scanner.window == scanner.queued[k..]
      invariant Heeds(course, stopped, scanner.queued, scanner.curBlock < scanner.stopBlock, k)
      invariant head == if k == 0 then first else scanner.queued[k - 1].0 - 1
      invariant forall n: nat :: course.crash(n) ==> 2 * k <= n
      invariant Descending(scanner.queued, first, scanner.curBlock + 1) && Descending(scanner.window, head, scanner.curBlock + 1)
      invariant head <= first && (k > 0 ==> head < first) && ExtractedFrom(blocks, db.tables, scanner.blacklist, head + 1, first)
      invariant db.checkpoint == if k == 0 then old(db.checkpoint) else Some(head + 1)
      invariant scanner.seen <= db.tables && db.ever == old(db.ever) + db.tables && db.blacklisted == old(db.blacklisted)
      invariant OnlyFrom(blocks, old(db.tables), db.tables, scanner.blacklist, scanner.stopBlock, first)
      invariant Calm(course) && !wasStopped ==> !stopped
      invariant scanner.curBlock >= scanner.stopBlock - 1
      invariant stopped || scanner.curBlock < scanner.stopBlock || scanner.window != []
      decreases scanner.curBlock - scanner.stopBlock, |scanner.window|
    {
      var range;
      range, stopped := TakeOne(scanner, course, stopped, k, first, head);
      if course.crash(2 * k) {
        StopsHeeded(course, stopped, scanner.queued, scanner.curBlock < scanner.stopBlock, k + 1);
        return false, head, k;
      }
      ghost var was := db.tables;
      InsertRange(db, fetch, scanner, range, blocks, first);
      OnlyFromMore(blocks, old(db.tables), was, db.tables, scanner.blacklist, scanner.stopBlock, first, range.0, range.1);
      if course.crash(2 * k + 1) {
        StopsHeeded(course, stopped, scanner.queued, scanner.curBlock < scanner.stopBlock, k + 1);
        return false, head, k;
      }
      db.SaveProgress(range.0);
      head := range.0 - 1;
      k := k + 1;
    }
    DescendingPop(scanner.window, head, scanner.curBlock + 1);
    StopsHeeded(course, stopped, scanner.queued, scanner.curBlock < scanner.stopBlock, k);
    finished, done := !stopped, k;
  }

  /** One run of `main`. It may stop or crash anywhere; what it leaves in the database is
      always complete above the checkpoint, and a run that finishes has reached the end. */
  method Scan(db: Database, fetch: Range -> seq<Log>, top: int, stopBlock: int, course: Course, ghost blocks: Blocks)
    returns (finished: bool, ghost queued: seq<Range>, ghost low: int, ghost done: nat)
    requires Fetches(blocks, fetch) && course.batchSize > 0 && db.NoGap(blocks, top)
    modifies db
    ensures db.NoGap(blocks, top) && db.blacklisted <= old(db.blacklisted) + course.blacklist
    ensures var first := if old(db.checkpoint).Some? then old(db.checkpoint).value - 1 else top;
            && OnlyFrom(blocks, old(db.tables), db.tables, course.blacklist, stopBlock, first)
            && ExtractedFrom(blocks, db.tables, course.blacklist, if db.checkpoint.Some? then db.checkpoint.value else top + 1, first)
    ensures db.ever == old(db.ever) + db.tables
    ensures Calm(course) ==> finished
    ensures done <= |queued| && db.checkpoint == if done == 0 then old(db.checkpoint) else Some(queued[done - 1].0)
    ensures (forall n: nat :: course.stop(n) ==> |queued| <= n) && (forall n: nat :: course.crash(n) ==> 2 * done <= n)
    ensures (forall n: nat :: !course.crash(n)) ==> done == |queued|
    ensures old(db.checkpoint).Some? ==> db.checkpoint.Some? && db.checkpoint.value <= old(db.checkpoint).value
    ensures old(db.checkpoint).None? && db.checkpoint.Some? ==> db.checkpoint.value <= top
    ensures Descending(queued, if old(db.checkpoint).Some? then old(db.checkpoint).value - 1 else top, low)
    ensures queued != [] ==> stopBlock <= low
    ensures finished ==> if db.checkpoint.Some? then db.checkpoint.value <= stopBlock else top < stopBlock
  {
    hide Fetches, Descending, ExtractedFrom, OnlyFrom;
    var current := if db.checkpoint.Some? then db.checkpoint.value - 1 else top;
    ghost var first := current;
    NothingQueued(first);
    NothingAdded(blocks, db.tables, course.blacklist, stopBlock, first);
    NothingAbove(blocks, db.tables, course.blacklist, first);
    if current < stopBlock {
      return true, [], first + 1, 0;
    }
    ghost var ever, blacklisted, checkpoint := db.ever, db.blacklisted, db.checkpoint;
    db.blacklisted := db.blacklisted + course.blacklist;
    var scanner := new Scanner(current, stopBlock, course.batchSize, db.tables, course.blacklist);
    var blocked := FillWindow(scanner, course, first);
    ghost var head;
    finished, head, done := Drain(db, fetch, scanner, course, blocked, blocks, first);
    RunDone(blocks, checkpoint, ever, blacklisted, db.tables, course.blacklist, head + 1, top);
    StillExtracted(blocks, ever + db.tables, blacklisted + course.blacklist, db.ever, db.blacklisted, head + 1, top);
    finished := finished && !blocked;
    queued, low := scanner.queued, scanner.curBlock + 1;
  }

  /** What a run extracted joins what earlier runs did. */
  lemma RunDone(blocks: Blocks, checkpoint: Option<int>, ever: set<NftKey>, blacklisted: set<string>, tables: set<NftKey>,
                blacklist: set<string>, low: int, top: int)
    requires checkpoint.Some? ==> ExtractedFrom(blocks, ever, blacklisted, checkpoint.value, top)
    requires ExtractedFrom(blocks, tables, blacklist, low, if checkpoint.Some? then checkpoint.value - 1 else top)
    ensures ExtractedFrom(blocks, ever + tables, blacklisted + blacklist, low, top)
  {}

  lemma NothingAdded(blocks: Blocks, ever: set<NftKey>, blacklist: set<string>, low: int, high: int)
    ensures OnlyFrom(blocks, ever, ever, blacklist, low, high)
  {}

  lemma NothingAbove(blocks: Blocks, ever: set<NftKey>, blacklisted: set<string>, top: int)
    ensures ExtractedFrom(blocks, ever, blacklisted, top + 1, top)
  {}

  /** Queues the first ranges. */
  method FillWindow(scanner: Scanner, course: Course, ghost first: int) returns (blocked: bool)
    requires scanner.batchSize > 0 && scanner.curBlock == first && scanner.curBlock >= scanner.stopBlock - 1
    requires scanner.window == [] && scanner.queued == []
    modifies scanner
    ensures Descending(scanner.queued, first, scanner.curBlock + 1) && Descending(scanner.window, first, scanner.curBlock + 1)
    ensures scanner.seen == old(scanner.seen) && scanner.curBlock >= scanner.stopBlock - 1
    ensures blocked || scanner.curBlock < scanner.stopBlock || scanner.window != []
    ensures Calm(course) ==> !blocked
    ensures scanner.window == scanner.queued
    ensures Heeds(course, blocked, scanner.queued, scanner.curBlock < scanner.stopBlock, 0)
  {
    hide Descending;
    NothingQueued(first);
    var stopped := false;
    for k: nat := 0 to course.windowSize
      invariant Descending(scanner.queued, first, scanner.curBlock + 1) && Descending(scanner.window, first, scanner.curBlock + 1)
      invariant scanner.seen == old(scanner.seen) && scanner.curBlock >= scanner.stopBlock - 1
      invariant !stopped && |scanner.queued| == k && scanner.window == scanner.queued
      invariant forall n: nat :: n < k ==> !course.stop(n)
    {
      stopped := course.stop(k);
      var more := scanner.Enqueue(stopped, first, first);
      if !more {
        break;
      }
    }
    blocked := stopped || course.windowSize == 0;
  }

  ghost function Blacklists(courses: seq<Course>): set<string> {
    set k, c | 0 <= k < |courses| && c in courses[k].blacklist :: c
  }

  lemma OnlyFromAny(blocks: Blocks, was: set<NftKey>, now: set<NftKey>, ever: set<NftKey>, blacklist: set<string>, low: int, high: int,
                    top: int)
    requires OnlyFrom(blocks, was, now, blacklist, low, high) && high <= top && was <= ever
    ensures OnlyFrom(blocks, ever, ever + now, {}, low, top)
  {
    forall k | k in now && k !in ever ensures InBlocks(blocks, k, low, top) {
      var b :| low <= b <= high && k in blocks(b);
    }
  }

  /** Any number of runs, between which workers empty the tables: no restart leaves a gap, and
      the checkpoint only moves down. */
  method Scans(db: Database, fetch: Range -> seq<Log>, top: int, stopBlock: int, courses: seq<Course>, ghost blocks: Blocks)
    returns (finished: bool)
    requires Fetches(blocks, fetch) && db.NoGap(blocks, top)
    requires forall k :: 0 <= k < |courses| ==> courses[k].batchSize > 0
    modifies db
    ensures db.NoGap(blocks, top) && db.blacklisted <= old(db.blacklisted) + Blacklists(courses)
    ensures OnlyFrom(blocks, old(db.ever), db.ever, {}, stopBlock,
                     if old(db.checkpoint).Some? then old(db.checkpoint).value - 1 else top)
    ensures courses != [] && Calm(courses[|courses| - 1]) ==> finished
    ensures old(db.checkpoint).Some? ==> db.checkpoint.Some? && db.checkpoint.value <= old(db.checkpoint).value
    ensures finished ==> if db.checkpoint.Some? then db.checkpoint.value <= stopBlock else top < stopBlock
  {
    hide ExtractedFrom, Fetches, OnlyFrom, Calm;
    finished := false;
    ghost var high := if db.checkpoint.Some? then db.checkpoint.value - 1 else top;
    NothingAdded(blocks, db.ever, {}, stopBlock, high);
    for k := 0 to |courses|
      invariant db.NoGap(blocks, top) && db.blacklisted <= old(db.blacklisted) + Blacklists(courses)
      invariant OnlyFrom(blocks, old(db.ever), db.ever, {}, stopBlock, high)
      invariant (if db.checkpoint.Some? then db.checkpoint.value - 1 else top) <= high
      invariant k > 0 && Calm(courses[k - 1]) ==> finished
      invariant old(db.checkpoint).Some? ==> db.checkpoint.Some? && db.checkpoint.value <= old(db.checkpoint).value
      invariant finished ==> if db.checkpoint.Some? then db.checkpoint.value <= stopBlock else top < stopBlock
    {
      ghost var was, ever, before := db.tables, db.ever, if db.checkpoint.Some? then db.checkpoint.value - 1 else top;
      var done, _, _, _ := Scan(db, fetch, top, stopBlock, courses[k], blocks);
      OnlyFromAny(blocks, was, db.tables, ever, courses[k].blacklist, stopBlock, before, high);
      OnlyFromMore(blocks, old(db.ever), ever, db.ever, {}, stopBlock, high, stopBlock, high);
      finished := done;
      db.WorkersDelete(courses[k].gone);
    }
  }
}
