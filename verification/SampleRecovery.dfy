/** Recovery of an unfinished commit, step by step: what a crash during recovery leaves, and
    when the next recovery still restores the old files. */
module SampleRecovery {
  import opened Wrappers
  import opened Sorting
  import opened SampleCommit

  // ----- what every step of a recovery keeps

  /** An item is in its backup, or as it was, or on its way out because it was not there. */
  ghost predicate ItemKept(d0: Disk, d: Disk, item: string) {
    if item in d.backup then item in d0.output && d.backup[item] == d0.output[item]
    else Agree(d.output, d0.output, item) || (item !in d0.output && item !in d.staged)
  }

  ghost predicate Kept(d0: Disk, d: Disk, items: seq<string>) {
    && (forall x :: x in items ==> ItemKept(d0, d, x))
    && (forall x :: x !in items ==> Agree(d.output, d0.output, x))
  }

  /** A disk in the middle of a recovery. The transaction directory goes once the old files
      are back, so its marker or its list is only missing then. */
  ghost predicate Midway(d0: Disk, d: Disk, items: seq<string>) {
    && Kept(d0, d, items) && d.phase != Committed
    && (d.listed.Some? ==> d.listed == Some(items))
    && (d.phase == Unmarked || d.listed.None? ==> d.output == d0.output)
  }

  ghost predicate AllMidway(d0: Disk, items: seq<string>, h: seq<Disk>, n: nat) {
    forall i :: n <= i < |h| ==> Midway(d0, h[i], items)
  }

  /** Every file that was there before still has a backup or a staged copy beside it. */
  ghost predicate NoneLost(d0: Disk, d: Disk, items: seq<string>) {
    forall x :: x in items && x in d0.output ==> x in d.backup || x in d.staged
  }

  lemma SafeIsMidway(d0: Disk, d: Disk, items: seq<string>)
    requires Safe(d0, d, items) && d.phase == Committing && d.listed == Some(items)
    ensures Midway(d0, d, items) && NoneLost(d0, d, items)
  {
    forall x | x in items ensures ItemKept(d0, d, x) && (x in d0.output ==> x in d.backup || x in d.staged) {
      var i :| 0 <= i < |items| && items[i] == x;
      assert ItemSafe(d0, d, items[i]);
    }
  }

  /** The next recovery after a crash restores the old files exactly when the transaction
      directory is no longer in force, or no old file has lost both its copies: a file with
      neither is taken for a new one and removed. */
  lemma RecoveryRestart(d0: Disk, d: Disk, items: seq<string>)
    requires Distinct(items) && Midway(d0, d, items)
    ensures Recover(d).output == d0.output
            <==> (d.phase == Committing && d.listed.Some? ==> NoneLost(d0, d, items))
  {
    if d.phase == Committing && d.listed.Some? {
      var r := RecoverItems(d, items, 0).output;
      assert items[0..] == items;
      forall x
        ensures Agree(r, d0.output, x) <==> (x in items && x in d0.output ==> x in d.backup || x in d.staged)
      {
        RecoverEach(d, items, 0, x);
      }
      if NoneLost(d0, d, items) {
        AgreeEverywhere(r, d0.output);
      }
    }
  }

  // ----- the items

  /** Only this item of the output directory has changed. */
  ghost predicate OnlyOutput(d: Disk, h: Disk, item: string) {
    h == d.(output := h.output) && forall x :: x != item ==> Agree(h.output, d.output, x)
  }

  /** An item on its way out may be in any state. */
  lemma Removable(d0: Disk, d: Disk, h: Disk, items: seq<string>, item: string)
    requires Midway(d0, d, items) && d.phase == Committing && d.listed.Some? && item in items && OnlyOutput(d, h, item)
    requires item in d.backup || (item !in d.staged && item !in d0.output)
    ensures Midway(d0, h, items)
  {
    forall x | x != item ensures Agree(d.output, d0.output, x) ==> Agree(h.output, d0.output, x) {
      assert Agree(h.output, d.output, x);
    }
    forall x | x in items ensures ItemKept(d0, h, x) {
      assert ItemKept(d0, d, x);
    }
  }

  lemma PutBack(d0: Disk, d: Disk, items: seq<string>, item: string)
    requires Midway(d0, d, items) && d.phase == Committing && d.listed.Some? && item in items && item in d.backup
    ensures Midway(d0, RecoverItem(d, item), items)
  {}

  /** `remove_path`; a directory goes piece by piece. */
  method RemovePath(t: Transaction, item: string, left: Content) returns (ok: bool)
    modifies t
    ensures old(t.history) <= t.history
    ensures OnlyOutput(old(t.disk), t.disk, item)
    ensures forall i :: |old(t.history)| <= i < |t.history| ==> OnlyOutput(old(t.disk), t.history[i], item)
    ensures ok ==> t.disk == old(t.disk).(output := old(t.disk).output - {item})
    ensures (forall n :: t.works(n)) ==> ok
  {
    if item !in t.disk.output {
      assert t.disk.output - {item} == t.disk.output;
      return true;
    }
    ok := t.Step(t.disk.(output := t.disk.output[item := left]));
    if ok {
      ok := t.Step(t.disk.(output := t.disk.output - {item}));
    }
  }

  /** Renames a backup to its place. A directory needs that place to be free. */
  method PutBackItem(t: Transaction, item: string) returns (ok: bool)
    requires item in t.disk.backup && item !in t.disk.output
    modifies t
    ensures t.history == old(t.history) + [t.disk] && ok == t.works(old(t.operations))
    ensures t.disk == if ok then old(t.disk).(output := old(t.disk).output[item := old(t.disk).backup[item]],
                                              backup := old(t.disk).backup - {item}) else old(t.disk)
  {
    ok := t.Step(t.disk.(output := t.disk.output[item := t.disk.backup[item]], backup := t.disk.backup - {item}));
  }

  /** The items still to be visited are not lost. */
  ghost predicate NoneLostTo(d0: Disk, d: Disk, items: seq<string>, k: nat) {
    forall i :: 0 <= i < k && i < |items| && items[i] in d0.output ==> items[i] in d.backup || items[i] in d.staged
  }

  /** `recover_sample_transaction`: the items from the last to the first, each put back from
      its backup, left alone, or removed. Every disk on the way is midway. */
  method RecoverSampleTransaction(t: Transaction, items: seq<string>, left: string -> Content, ghost d0: Disk)
    returns (ok: bool)
    requires t.disk.phase == Committing && t.disk.listed == Some(items)
    modifies t
    ensures old(t.history) <= t.history
    ensures ok ==> t.disk == RecoverItems(old(t.disk), items, 0)
    ensures (forall n :: t.works(n)) ==> ok
    ensures Distinct(items) && Midway(d0, old(t.disk), items) && NoneLost(d0, old(t.disk), items) ==>
              Midway(d0, t.disk, items) && AllMidway(d0, items, t.history, |old(t.history)|)
  {
    ghost var good := Distinct(items) && Midway(d0, t.disk, items) && NoneLost(d0, t.disk, items);
    hide Midway, NoneLost;
    NoneLostAll(d0, t.disk, items);
    NothingPassed(d0, items, t.history);
    hide RecoverItem, AllMidway, NoneLostTo;
    var i: nat := |items|;
    while i > 0
      invariant 0 <= i <= |items| && t.disk == RecoverItems(old(t.disk), items, i)
      invariant t.disk.phase == Committing && t.disk.listed == Some(items) && old(t.history) <= t.history
      invariant good ==> Midway(d0, t.disk, items) && NoneLostTo(d0, t.disk, items, i)
                         && AllMidway(d0, items, t.history, |old(t.history)|)
    {
      ok := RecoverOne(t, items, i - 1, left, d0, good, |old(t.history)|);
      if !ok {
        return false;
      }
      i := i - 1;
    }
    return true;
  }

  lemma NothingPassed(d0: Disk, items: seq<string>, h: seq<Disk>)
    ensures AllMidway(d0, items, h, |h|)
  {}

  lemma NoneLostAll(d0: Disk, d: Disk, items: seq<string>)
    ensures NoneLost(d0, d, items) ==> NoneLostTo(d0, d, items, |items|)
  {}

  method RecoverOne(t: Transaction, items: seq<string>, i: nat, left: string -> Content, ghost d0: Disk, ghost good: bool,
                    ghost from: nat)
    returns (ok: bool)
    requires i < |items| && t.disk.phase == Committing && t.disk.listed == Some(items)
    requires good ==> Distinct(items) && Midway(d0, t.disk, items) && NoneLostTo(d0, t.disk, items, i + 1)
                      && AllMidway(d0, items, t.history, from)
    modifies t
    ensures old(t.history) <= t.history
    ensures ok ==> t.disk == RecoverItem(old(t.disk), items[i])
    ensures t.disk.phase == Committing && t.disk.listed == Some(items)
    ensures (forall n :: t.works(n)) ==> ok
    ensures good ==> Midway(d0, t.disk, items) && AllMidway(d0, items, t.history, from)
    ensures good && ok ==> NoneLostTo(d0, t.disk, items, i)
  {
    hide Midway;
    var item := items[i];
    ghost var d := t.disk;
    forall h | good && OnlyOutput(d, h, item) && (item in d.backup || item !in d.staged) ensures Midway(d0, h, items) {
      Removable(d0, d, h, items, item);
    }
    ok := true;
    if item in t.disk.backup {
      ok := RemovePath(t, item, left(item));
      if !ok {
        return;
      }
      if good {
        PutBack(d0, d, items, item);
        assert Midway(d0, t.disk, items);
      }
      assert RecoverItem(d, item) == t.disk.(output := t.disk.output[item := t.disk.backup[item]], backup := t.disk.backup - {item});
      ok := PutBackItem(t, item);
    } else if item !in t.disk.staged {
      ok := RemovePath(t, item, left(item));
    }
  }

  // ----- the transaction directory

  datatype DirEntry = StagedItem(name: string) | BackupItem(name: string) | Marker | ItemList

  /** The directory has lost some entries, or parts of them; the output directory has not
      changed. */
  ghost predicate Removing(d: Disk, h: Disk) {
    && h.output == d.output && h.staged.Keys <= d.staged.Keys && h.backup.Keys <= d.backup.Keys
    && (h.phase == d.phase || h.phase == Unmarked) && (h.listed == d.listed || h.listed == None)
  }

  predicate Present(d: Disk, e: DirEntry) {
    match e
    case StagedItem(x) => x in d.staged
    case BackupItem(x) => x in d.backup
    case Marker => d.phase != Unmarked
    case ItemList => d.listed.Some?
  }

  /** An entry that is partly gone. */
  function Damaged(d: Disk, e: DirEntry, left: Content): Disk {
    match e
    case StagedItem(x) => d.(staged := d.staged[x := left])
    case BackupItem(x) => d.(backup := d.backup[x := left])
    case Marker => d
    case ItemList => d
  }

  function Without(d: Disk, e: DirEntry): Disk {
    match e
    case StagedItem(x) => d.(staged := d.staged - {x})
    case BackupItem(x) => d.(backup := d.backup - {x})
    case Marker => d.(phase := Unmarked)
    case ItemList => d.(listed := None)
  }

  function Size(d: Disk): nat {
    |d.staged| + |d.backup| + (if d.phase == Unmarked then 0 else 1) + (if d.listed == None then 0 else 1)
  }

  lemma KeyLess(m: map<string, Content>, x: string, c: Content)
    requires x in m
    ensures m[x := c].Keys == m.Keys && |m[x := c] - {x}| == |m| - 1
  {
    assert (m[x := c] - {x}).Keys == m.Keys - {x};
    assert |m.Keys - {x}| == |m.Keys| - 1;
  }

  lemma OneEntryLess(d: Disk, e: DirEntry, left: Content)
    requires Present(d, e)
    ensures Size(Without(Damaged(d, e, left), e)) < Size(d)
    ensures Removing(d, Damaged(d, e, left)) && Removing(d, Without(Damaged(d, e, left), e))
  {
    match e
    case StagedItem(x) => KeyLess(d.staged, x, left);
    case BackupItem(x) => KeyLess(d.backup, x, left);
    case Marker =>
    case ItemList =>
  }

  /** The entry that comes next, whichever it is. */
  method Choose(d: Disk, pick: Disk -> DirEntry) returns (e: DirEntry)
    requires Size(d) != 0
    ensures Present(d, e)
  {
    if Present(d, pick(d)) {
      return pick(d);
    }
    if d.phase != Unmarked {
      return Marker;
    }
    if d.listed != None {
      return ItemList;
    }
    if d.staged != map[] {
      var x :| x in d.staged;
      return StagedItem(x);
    }
    var x :| x in d.backup;
    return BackupItem(x);
  }

  lemma NothingLeft(d: Disk)
    requires Size(d) == 0
    ensures d.staged == map[] && d.backup == map[] && d.phase == Unmarked && d.listed == None
  {}

  /** `remove_dir_all`: the entries go one by one, in any order, each perhaps in parts. */
  method RemoveDirAll(t: Transaction, pick: Disk -> DirEntry, left: DirEntry -> Content) returns (ok: bool)
    modifies t
    ensures old(t.history) <= t.history && Removing(old(t.disk), t.disk)
    ensures forall i :: |old(t.history)| <= i < |t.history| ==> Removing(old(t.disk), t.history[i])
    ensures ok ==> t.disk == old(t.disk).(staged := map[], backup := map[], phase := Unmarked, listed := None)
    ensures (forall n :: t.works(n)) ==> ok
  {
    hide Damaged, Without, Present, Size;
    ghost var d := t.disk;
    while Size(t.disk) != 0
      invariant old(t.history) <= t.history && Removing(d, t.disk)
      invariant forall i :: |old(t.history)| <= i < |t.history| ==> Removing(d, t.history[i])
      decreases Size(t.disk)
    {
      var e := Choose(t.disk, pick);
      OneEntryLess(t.disk, e, left(e));
      ghost var was := t.disk;
      var gone := Without(Damaged(t.disk, e, left(e)), e);
      ok := t.Step(Damaged(t.disk, e, left(e)));
      if ok {
        ok := t.Step(gone);
      }
      if !ok {
        return;
      }
    }
    NothingLeft(t.disk);
    return true;
  }

  // ----- the whole recovery

  /** Once the items are back, losing entries of the directory keeps the disk midway. */
  lemma RemovingIsMidway(d0: Disk, d: Disk, h: Disk, items: seq<string>)
    requires Midway(d0, d, items) && d.output == d0.output && Removing(d, h)
    requires forall x :: x in items ==> x !in d.backup
    ensures Midway(d0, h, items)
  {}

  lemma ItemsAreBack(d0: Disk, d: Disk, items: seq<string>)
    requires Distinct(items) && Midway(d0, d, items) && NoneLost(d0, d, items)
    requires d.phase == Committing && d.listed == Some(items)
    ensures var r := RecoverItems(d, items, 0); r.output == d0.output && forall x :: x in items ==> x !in r.backup
  {
    RecoveryRestart(d0, d, items);
    assert items[0..] == items;
    forall x | x in items ensures x !in RecoverItems(d, items, 0).backup {
      RecoverEach(d, items, 0, x);
    }
  }

  /** `recover_sample_transactions` on one directory. Wherever a crash or a failing operation
      cuts it short, the disk is midway, so `RecoveryRestart` says what the next one does;
      clearing away a committed bundle never touches the output. */
  method RecoverSampleTransactions(t: Transaction, left: string -> Content, pick: Disk -> DirEntry,
                                   leftEntry: DirEntry -> Content, ghost d0: Disk)
    returns (ok: bool)
    modifies t
    ensures old(t.history) <= t.history
    ensures ok ==> t.disk == if old(t.disk).phase == Unmarked then old(t.disk) else Recover(old(t.disk))
    ensures (forall n :: t.works(n)) ==> (ok <==> !(old(t.disk).phase == Committing && old(t.disk).listed.None?))
    ensures old(t.disk).phase == Committed ==>
              forall i :: |old(t.history)| <= i < |t.history| ==> Recover(t.history[i]).output == old(t.disk).output
    ensures old(t.disk).phase == Committing && old(t.disk).listed.Some? && Distinct(old(t.disk).listed.value)
            && Midway(d0, old(t.disk), old(t.disk).listed.value) && NoneLost(d0, old(t.disk), old(t.disk).listed.value) ==>
              Midway(d0, t.disk, old(t.disk).listed.value) && AllMidway(d0, old(t.disk).listed.value, t.history, |old(t.history)|)
  {
    ghost var d := t.disk;
    if t.disk.phase == Unmarked {
      return true;
    }
    if t.disk.phase == Committed {
      ok := RemoveDirAll(t, pick, leftEntry);
      return;
    }
    if t.disk.listed == None {
      return false;
    }
    hide Midway, NoneLost, Removing;
    var items := t.disk.listed.value;
    ghost var good := Distinct(items) && Midway(d0, d, items) && NoneLost(d0, d, items);
    ok := RecoverSampleTransaction(t, items, left, d0);
    if !ok {
      return;
    }
    ghost var back, n := t.disk, |t.history|;
    ok := RemoveDirAll(t, pick, leftEntry);
    if good {
      ItemsAreBack(d0, d, items);
      forall h | Removing(back, h) ensures Midway(d0, h, items) {
        RemovingIsMidway(d0, back, h, items);
      }
      forall i | |old(t.history)| <= i < |t.history| ensures Midway(d0, t.history[i], items) {
        assert i >= n ==> Removing(back, t.history[i]);
      }
    }
  }

  // ----- what is lost, and when

  /** Between two items: the items put back so far must not have been installed already. */
  lemma RestartBetweenItems(d0: Disk, d: Disk, items: seq<string>, j: nat)
    requires Distinct(items) && Safe(d0, d, items) && d.phase == Committing && d.listed == Some(items) && j <= |items|
    ensures Recover(RecoverItems(d, items, j)).output == d0.output
            <==> forall k :: j <= k < |items| ==> items[k] !in d.backup || items[k] in d.staged
  {
    var e := RecoverItems(d, items, j);
    assert items[0..] == items;
    RecoverEach(d, items, j, "");
    forall x
      ensures x in items ==> ItemKept(d0, e, x)
      ensures x !in items ==> Agree(e.output, d0.output, x)
      ensures x in items && x in d0.output ==>
                ((x in e.backup || x in e.staged) <==> (x in items[j..] ==> x !in d.backup || x in d.staged))
    {
      RecoverEach(d, items, j, x);
      if x in items {
        var i :| 0 <= i < |items| && items[i] == x;
        assert ItemSafe(d0, d, items[i]);
      }
    }
    RecoveryRestart(d0, e, items);
    forall k | j <= k < |items| ensures items[k] in items[j..] && ItemSafe(d0, d, items[k]) {
      assert items[j..][k - j] == items[k];
    }
  }

  /** While the directory goes: an old file must keep its staged copy as long as marker and
      list are there. */
  lemma RestartDuringRemoval(d0: Disk, d: Disk, h: Disk, items: seq<string>)
    requires Distinct(items) && Midway(d0, d, items) && d.output == d0.output && Removing(d, h)
    requires forall x :: x in items ==> x !in d.backup
    ensures Recover(h).output == d0.output
            <==> (h.phase == Committing && h.listed.Some? ==> forall x :: x in items && x in d0.output ==> x in h.staged)
  {
    RemovingIsMidway(d0, d, h, items);
    RecoveryRestart(d0, h, items);
  }

  /** A file that was installed and put back is lost if recovery then starts over. */
  lemma RestartLosesFile()
    ensures var d0 := Disk(map["a" := "old"], map["a" := "new"], map[], Unmarked, None);
            var d := Disk(map["a" := "new"], map[], map["a" := "old"], Committing, Some(["a"]));
            && Stage(d0, d, ["a"], ["a"], 1)
            && RecoverItems(d, ["a"], 0).output == d0.output
            && Recover(RecoverItems(d, ["a"], 0)).output == map[]
  {
    var d := Disk(map["a" := "new"], map[], map["a" := "old"], Committing, Some(["a"]));
    assert ["a"][..1] == ["a"];
    assert RecoverItems(d, ["a"], 1) == d;
    var e := RecoverItems(d, ["a"], 0);
    assert e == Disk(map["a" := "old"], map[], map[], Committing, Some(["a"]));
    assert RecoverItems(e, ["a"], 1) == e;
  }

  /** Even after a complete rollback: if the staged copy goes before the marker, a crash there
      and one more recovery lose the old file. */
  lemma RemovalLosesFile()
    ensures var d0 := Disk(map["a" := "old"], map["a" := "new"], map[], Unmarked, None);
            var d := d0.(phase := Committing, listed := Some(["a"]));
            var h := Without(d, StagedItem("a"));
            && Stage(d0, d, ["a"], [], 0) && RecoverItems(d, ["a"], 0) == d && Removing(d, h)
            && Recover(h).output == map[]
  {
    var d0 := Disk(map["a" := "old"], map["a" := "new"], map[], Unmarked, None);
    var d := d0.(phase := Committing, listed := Some(["a"]));
    NothingDone(d0, d, ["a"]);
    assert RecoverItems(d, ["a"], 1) == d;
    var h := Without(d, StagedItem("a"));
    assert RecoverItems(h, ["a"], 1) == h;
  }

  /** If the list goes before the marker, nothing is lost, but every later recovery fails. */
  lemma MissingListBlocks(d: Disk)
    requires d.phase == Committing && d.listed == None
    ensures Recover(d) == d && Recover(Recover(d)).phase == Committing
  {}
}
