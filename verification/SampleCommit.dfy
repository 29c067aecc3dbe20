/** Publishing a sample bundle: several files are moved into the output directory in steps
    that a crash may cut short, and a later recovery undoes an unfinished move. */
module SampleCommit {
  import opened Wrappers
  import opened Sorting

  /** The bytes of a file or a directory tree. */
  type Content = string

  datatype Phase = Unmarked | Committing | Committed

  /** The output directory and the transaction directory beside it. */
  datatype Disk = Disk(
    output: map<string, Content>,
    staged: map<string, Content>,
    backup: map<string, Content>,
    phase: Phase,
    listed: Option<seq<string>>)

  // ----- recovery

  /** What recovery does with one item. */
  function RecoverItem(d: Disk, item: string): Disk {
    if item in d.backup then
      d.(output := d.output[item := d.backup[item]], backup := d.backup - {item})
    else if item !in d.staged then
      d.(output := d.output - {item})
    else d
  }

  /** The items from the last down to item `from`. */
  function RecoverItems(d: Disk, items: seq<string>, from: nat): Disk
    decreases |items| - from
  {
    if from >= |items| then d
    else RecoverItem(RecoverItems(d, items, from + 1), items[from])
  }

  /** `recover_sample_transactions` on one transaction directory, run to its end; without a
      readable item list it fails before it changes anything. */
  function Recover(d: Disk): Disk {
    match d.phase
    case Unmarked => d
    case Committed => d.(staged := map[], backup := map[], phase := Unmarked, listed := None)
    case Committing =>
      match d.listed
      case Some(items) =>
        RecoverItems(d, items, 0).(staged := map[], backup := map[], phase := Unmarked, listed := None)
      case None => d
  }

  /** Two directories hold the same under `item`. */
  ghost predicate Agree(a: map<string, Content>, b: map<string, Content>, item: string) {
    (item in a <==> item in b) && (item in a && item in b ==> a[item] == b[item])
  }

  lemma AgreeEverywhere(a: map<string, Content>, b: map<string, Content>)
    requires forall x :: Agree(a, b, x)
    ensures a == b
  {
    assert forall x :: x in a <==> x in b by {
      forall x ensures x in a <==> x in b {
        assert Agree(a, b, x);
      }
    }
    forall x | x in a ensures a[x] == b[x] {
      assert Agree(a, b, x);
    }
  }

  /** The item stands at least twice in the list from `from` on. */
  ghost predicate Repeated(items: seq<string>, from: nat, x: string) {
    exists i, j :: from <= i < j < |items| && items[i] == x && items[j] == x
  }

  /** Where recovery leaves an item. A second visit finds no backup any more: it removes the
      item if it has no staged copy either. */
  function Recovered(d: Disk, x: string, again: bool): map<string, Content> {
    if x in d.backup && again && x !in d.staged then d.output - {x} else RecoverItem(d, x).output
  }

  /** Each item is recovered from its own three places. */
  lemma {:induction false} RecoverEach(d: Disk, items: seq<string>, from: nat, x: string)
    requires from <= |items|
    ensures var r := RecoverItems(d, items, from);
            && r.staged == d.staged && r.phase == d.phase && r.listed == d.listed
            && Agree(r.backup, if x in items[from..] then d.backup - {x} else d.backup, x)
            && Agree(r.output, if x in items[from..] then Recovered(d, x, Repeated(items, from, x)) else d.output, x)
    decreases |items| - from
  {
    if from < |items| {
      RecoverEach(d, items, from + 1, x);
      assert items[from..] == [items[from]] + items[from + 1..];
      RepeatedFrom(items, from, x);
    }
  }

  lemma RepeatedFrom(items: seq<string>, from: nat, x: string)
    requires from < |items|
    ensures Repeated(items, from, x) <==> Repeated(items, from + 1, x) || (items[from] == x && x in items[from + 1..])
  {
    if items[from] == x && x in items[from + 1..] {
      var k :| 0 <= k < |items| - from - 1 && items[from + 1..][k] == x;
      assert items[from + 1 + k] == x;
    }
    if Repeated(items, from, x) {
      var i, j :| from <= i < j < |items| && items[i] == x && items[j] == x;
      assert items[from + 1..][j - from - 1] == x;
    }
  }

  // ----- what every step of a commit keeps

  /** The item can be put back: from its backup, or because it is still as it was, or
      because it was not there. */
  ghost predicate ItemSafe(d0: Disk, d: Disk, item: string) {
    if item in d.backup then item in d0.output && d.backup[item] == d0.output[item]
    else if item in d.staged then Agree(d.output, d0.output, item)
    else item !in d0.output
  }

  ghost predicate Safe(d0: Disk, d: Disk, items: seq<string>) {
    && (forall i :: 0 <= i < |items| ==> ItemSafe(d0, d, items[i]))
    && (forall x :: x !in items ==> Agree(d.output, d0.output, x))
  }

  ghost predicate NoneInstalledTwice(d: Disk, items: seq<string>) {
    forall x :: Repeated(items, 0, x) ==> x !in d.backup || x in d.staged
  }

  /** Recovery from a safe state restores the whole output directory exactly when no item
      that stands in the list twice has been installed over an old one. */
  lemma RecoveryOfAnyList(d0: Disk, d: Disk, items: seq<string>)
    requires Safe(d0, d, items)
    ensures RecoverItems(d, items, 0).output == d0.output
            <==> NoneInstalledTwice(d, items)
  {
    var r := RecoverItems(d, items, 0).output;
    assert items[0..] == items;
    forall x
      ensures Agree(r, d0.output, x) <==> (Repeated(items, 0, x) ==> x !in d.backup || x in d.staged)
    {
      RecoverEach(d, items, 0, x);
      if x in items {
        var i :| 0 <= i < |items| && items[i] == x;
        assert ItemSafe(d0, d, items[i]);
      }
    }
    if NoneInstalledTwice(d, items) {
      AgreeEverywhere(r, d0.output);
    }
  }

  lemma SafeRecovers(d0: Disk, d: Disk, items: seq<string>)
    requires Distinct(items) && Safe(d0, d, items)
    ensures RecoverItems(d, items, 0).output == d0.output
  {
    RecoveryOfAnyList(d0, d, items);
  }

  /** The output directory once every item is published. */
  ghost predicate Published(d0: Disk, out: map<string, Content>, items: seq<string>) {
    forall x :: Agree(out, if x in items then d0.staged else d0.output, x)
  }

  /** A crash here leaves everything old after recovery, or, once the committed marker is
      written, everything new. */
  ghost predicate CrashSafe(d0: Disk, items: seq<string>, d: Disk) {
    if d.phase == Committed then Published(d0, Recover(d).output, items)
    else Recover(d).output == d0.output
  }

  /** Where a commit of any item list may be cut: before it starts, within its moves, where
      every item can be put back, or with everything published. */
  ghost predicate Cut(d0: Disk, items: seq<string>, d: Disk) {
    match d.phase
    case Unmarked => d.output == d0.output
    case Committing => Safe(d0, d, items) && d.listed == Some(items)
    case Committed => Published(d0, d.output, items)
  }

  /** Recovery then keeps the promise of the commit, unless an item that the list repeats has
      been installed over an old one. */
  lemma CutCrashSafe(d0: Disk, items: seq<string>, d: Disk)
    requires Cut(d0, items, d)
    ensures CrashSafe(d0, items, d) <==> d.phase != Committing || NoneInstalledTwice(d, items)
    ensures Distinct(items) ==> CrashSafe(d0, items, d)
  {
    if d.phase == Committing {
      RecoveryOfAnyList(d0, d, items);
    }
  }

  // ----- how far a commit or its rollback is

  function Only(m: map<string, Content>, items: seq<string>): map<string, Content> {
    map x | x in m && x in items :: m[x]
  }

  function Minus(m: map<string, Content>, items: seq<string>): map<string, Content> {
    map x | x in m && x !in items :: m[x]
  }

  /** The items in `saved` have been moved to the backup and the first `k` items have
      been installed; no item is installed before every old one is saved. */
  ghost predicate Stage(d0: Disk, d: Disk, items: seq<string>, saved: seq<string>, k: nat) {
    && k <= |items| && Distinct(saved) && Distinct(items[..k])
    && (forall x :: x in saved ==> x in items && x in d0.output)
    && (k > 0 ==> forall x :: x in items && x in d0.output ==> x in saved)
    && d.output == Minus(d0.output, saved) + Only(d0.staged, items[..k])
    && d.staged == Minus(d0.staged, items[..k])
    && d.backup == Only(d0.output, saved)
    && d.listed == Some(items)
  }

  ghost predicate Staged(d0: Disk, items: seq<string>) {
    forall x :: x in items ==> x in d0.staged
  }

  lemma StageSafe(d0: Disk, d: Disk, items: seq<string>, saved: seq<string>, k: nat)
    requires Stage(d0, d, items, saved, k) && Staged(d0, items)
    ensures Safe(d0, d, items)
  {
    forall x | x !in items ensures Agree(d.output, d0.output, x) {
      assert x !in items[..k];
    }
  }

  lemma StageCut(d0: Disk, d: Disk, items: seq<string>, saved: seq<string>, k: nat)
    requires Staged(d0, items) && Stage(d0, d, items, saved, k) && d.phase == Committing
    ensures Cut(d0, items, d)
  {
    hide Stage, Safe, Staged;
    StageSafe(d0, d, items, saved, k);
    StageListed(d0, d, items, saved, k);
  }

  lemma StageListed(d0: Disk, d: Disk, items: seq<string>, saved: seq<string>, k: nat)
    requires Stage(d0, d, items, saved, k)
    ensures d.listed == Some(items) && k <= |items|
  {}

  lemma OneMoreKey(m: map<string, Content>, items: seq<string>, x: string)
    requires x !in items
    ensures Minus(m, items + [x]) == Minus(m, items) - {x}
    ensures Only(m, items + [x]) - {x} == Only(m, items)
    ensures x in m ==> Minus(m, items + [x])[x := m[x]] == Minus(m, items)
    ensures x in m ==> Only(m, items + [x]) == Only(m, items)[x := m[x]]
    ensures x in m ==> x in Minus(m, items) && Minus(m, items)[x] == m[x]
    ensures x in m ==> x in Only(m, items + [x]) && Only(m, items + [x])[x] == m[x]
    ensures x !in Only(m, items)
  {}

  lemma OverlayKey(a: map<string, Content>, b: map<string, Content>, x: string, c: Content)
    ensures (a + b)[x := c] == a + b[x := c]
    ensures x !in a ==> (a + b) - {x} == a + (b - {x})
    ensures x !in b ==> (a + b)[x := c] == a[x := c] + b
    ensures x !in b ==> (a + b) - {x} == (a - {x}) + b
  {}

  lemma OnlyNothing(m: map<string, Content>, items: seq<string>)
    ensures Only(m, items[..0]) == map[]
  {}

  lemma Saves(d0: Disk, d: Disk, items: seq<string>, saved: seq<string>, item: string)
    requires Stage(d0, d, items, saved, 0) && item in items && item in d.output
    ensures item in d0.output && item !in saved
    ensures Stage(d0, d.(output := d.output - {item}, backup := d.backup[item := d.output[item]]), items, saved + [item], 0)
  {
    OnlyNothing(d0.staged, items);
    assert item in Minus(d0.output, saved);
    hide Only, Minus;
    OneMoreKey(d0.output, saved, item);
    OverlayKey(Minus(d0.output, saved), map[], item, "");
  }

  /** Putting back the item saved last. */
  lemma Unsaves(d0: Disk, d: Disk, items: seq<string>, saved: seq<string>)
    requires Stage(d0, d, items, saved, 0) && saved != []
    ensures var item := saved[|saved| - 1];
            && item in d.backup
            && Stage(d0, d.(output := d.output[item := d.backup[item]], backup := d.backup - {item}), items, saved[..|saved| - 1], 0)
  {
    hide Only, Minus;
    var m := |saved| - 1;
    var rest, item := saved[..m], saved[m];
    OnlyNothing(d0.staged, items);
    assert saved == rest + [item] && item !in rest && item in d0.output;
    OneMoreKey(d0.output, rest, item);
    OverlayKey(Minus(d0.output, saved), map[], item, d.backup[item]);
  }

  lemma Installs(d0: Disk, d: Disk, items: seq<string>, saved: seq<string>, k: nat)
    requires Stage(d0, d, items, saved, k) && k < |items| && items[k] in d.staged
    requires forall x :: x in items && x in d0.output ==> x in saved
    ensures Stage(d0, d.(output := d.output[items[k] := d.staged[items[k]]], staged := d.staged - {items[k]}), items, saved, k + 1)
  {
    hide Only, Minus;
    var item := items[k];
    StagedLeft(d0, items, k, item);
    assert items[..k + 1] == items[..k] + [item] && item in items;
    OneMoreKey(d0.staged, items[..k], item);
    OverlayKey(Minus(d0.output, saved), Only(d0.staged, items[..k]), item, d.staged[item]);
  }

  /** A staged item is still there unless the list named it before. */
  lemma StagedLeft(d0: Disk, items: seq<string>, k: nat, item: string)
    requires k <= |items|
    ensures item in Minus(d0.staged, items[..k]) <==> item in d0.staged && item !in items[..k]
  {}

  lemma SavedGone(d0: Disk, saved: seq<string>, x: string)
    requires x in d0.output ==> x in saved
    ensures x !in Minus(d0.output, saved)
  {}

  lemma Uninstalls(d0: Disk, d: Disk, items: seq<string>, saved: seq<string>, k: nat)
    requires Staged(d0, items) && Stage(d0, d, items, saved, k) && 0 < k
    ensures var item := items[k - 1];
            && item in d.output
            && Stage(d0, d.(output := d.output - {item}, staged := d.staged[item := d.output[item]]), items, saved, k - 1)
  {
    hide Only, Minus;
    var item := items[k - 1];
    assert items[..k] == items[..k - 1] + [item] && item in items;
    assert item !in items[..k - 1] by {
      assert items[..k][k - 1] == item;
    }
    SavedGone(d0, saved, item);
    OneMoreKey(d0.staged, items[..k - 1], item);
    OverlayKey(Minus(d0.output, saved), Only(d0.staged, items[..k]), item, "");
  }

  lemma AllInstalled(d0: Disk, d: Disk, items: seq<string>, saved: seq<string>)
    requires Staged(d0, items) && Stage(d0, d, items, saved, |items|)
    requires forall x :: x in items && x in d0.output ==> x in saved
    ensures Published(d0, d.output, items)
  {
    assert items[..|items|] == items;
  }

  lemma AllRolledBack(d0: Disk, d: Disk, items: seq<string>)
    requires Stage(d0, d, items, [], 0) && Staged(d0, items) && d.phase == Committing
    ensures d.output == d0.output && d.backup == map[] && d.staged == d0.staged && Recover(d).output == d.output
  {
    assert items[..0] == [];
    StageSafe(d0, d, items, [], 0);
    RecoveryOfAnyList(d0, d, items);
  }

  lemma NothingDone(d0: Disk, d: Disk, items: seq<string>)
    requires d.output == d0.output && d.staged == d0.staged && d.backup == map[] && d.listed == Some(items)
    ensures Stage(d0, d, items, [], 0)
  {
    assert items[..0] == [];
  }

  // ----- the code

  datatype Outcome =
    | Done
    | Rejected        // an item is invalid or not staged
    | Unstarted       // the transaction files could not be written
    | RolledBack      // a move failed and every earlier move was undone
    | RollbackFailed  // a move failed and so did undoing
    | MarkerFailed    // everything is moved, but the committed marker could not be written

  /** Every state in `h` from position `n` on is one of those. */
  ghost predicate AllCut(d0: Disk, items: seq<string>, h: seq<Disk>, n: nat) {
    forall i :: n <= i < |h| ==> Cut(d0, items, h[i])
  }

  /** Every state in `h` from position `n` on is safe to crash in. */
  ghost predicate AllCrashSafe(d0: Disk, items: seq<string>, h: seq<Disk>, n: nat) {
    forall i :: n <= i < |h| ==> CrashSafe(d0, items, h[i])
  }

  lemma AllCutCrashSafe(d0: Disk, items: seq<string>, h: seq<Disk>, n: nat)
    requires Distinct(items) && AllCut(d0, items, h, n)
    ensures AllCrashSafe(d0, items, h, n)
  {
    hide Cut, CrashSafe;
    forall i | n <= i < |h| ensures CrashSafe(d0, items, h[i]) {
      CutCrashSafe(d0, items, h[i]);
    }
  }

  class Transaction {
    var disk: Disk
    /** Whether the n-th file system operation succeeds. */
    const works: nat -> bool
    var operations: nat
    /** Every state the disk was ever in: a crash leaves one of these. */
    ghost var history: seq<Disk>

    constructor (d: Disk, w: nat -> bool)
      ensures disk == d && history == [d] && works == w
    {
      disk, works, operations, history := d, w, 0, [d];
    }

    /** Performs one atomic file system operation, unless it fails. */
    method Step(next: Disk) returns (ok: bool)
      modifies this
      ensures disk == (if ok then next else old(disk)) && history == old(history) + [disk]
      ensures ok == works(old(operations)) && operations == old(operations) + 1
    {
      ok := works(operations);
      operations := operations + 1;
      if ok {
        disk := next;
      }
      history := history + [disk];
    }

    method MoveToBackup(item: string) returns (ok: bool)
      requires item in disk.output
      modifies this
      ensures disk == if ok then old(disk).(output := old(disk).output - {item}, backup := old(disk).backup[item := old(disk).output[item]]) else old(disk)
      ensures history == old(history) + [disk] && ok == works(old(operations))
    {
      ok := Step(disk.(output := disk.output - {item}, backup := disk.backup[item := disk.output[item]]));
    }

    method Install(item: string) returns (ok: bool)
      requires item in disk.staged
      modifies this
      ensures disk == if ok then old(disk).(output := old(disk).output[item := old(disk).staged[item]], staged := old(disk).staged - {item}) else old(disk)
      ensures history == old(history) + [disk] && ok == works(old(operations))
    {
      ok := Step(disk.(output := disk.output[item := disk.staged[item]], staged := disk.staged - {item}));
    }

    /** `restore_sample_bundle`: undo the installs, then the backups, last first. */
    method RestoreSampleBundle(ghost d0: Disk, items: seq<string>, installed: nat, backedUp: seq<string>)
      returns (ok: bool)
      requires Staged(d0, items) && disk.phase == Committing
      requires Stage(d0, disk, items, backedUp, installed)
      modifies this
      ensures old(history) <= history && AllCut(d0, items, history, |old(history)|)
      ensures disk.phase == Committing && Cut(d0, items, disk)
      ensures ok ==> Stage(d0, disk, items, [], 0)
      ensures (forall n :: works(n)) ==> ok
    {
      hide Stage, Cut, Staged;
      StageCut(d0, disk, items, backedUp, installed);
      StageListed(d0, disk, items, backedUp, installed);
      var k: nat := installed;
      while k > 0
        invariant 0 <= k <= installed && disk.phase == Committing && Stage(d0, disk, items, backedUp, k)
        invariant Cut(d0, items, disk)
        invariant old(history) <= history && AllCut(d0, items, history, |old(history)|)
      {
        StageListed(d0, disk, items, backedUp, k);
        Uninstalls(d0, disk, items, backedUp, k);
        var item := items[k - 1];
        StageCut(d0, disk, items, backedUp, k);
        var moved := Step(disk.(output := disk.output - {item}, staged := disk.staged[item := disk.output[item]]));
        if !moved {
          return false;
        }
        k := k - 1;
        StageCut(d0, disk, items, backedUp, k);
      }
      var saved := backedUp;
      while saved != []
        invariant disk.phase == Committing && Stage(d0, disk, items, saved, 0) && Cut(d0, items, disk)
        invariant old(history) <= history && AllCut(d0, items, history, |old(history)|)
      {
        Unsaves(d0, disk, items, saved);
        var item := saved[|saved| - 1];
        StageCut(d0, disk, items, saved, 0);
        var moved := Step(disk.(output := disk.output[item := disk.backup[item]], backup := disk.backup - {item}));
        if !moved {
          return false;
        }
        saved := saved[..|saved| - 1];
        StageCut(d0, disk, items, saved, 0);
      }
      return true;
    }

    /** Moves every old item to the backup, keeping the list of those moved. */
    method BackUp(ghost d0: Disk, items: seq<string>) returns (ok: bool, backedUp: seq<string>)
      requires Staged(d0, items) && disk.phase == Committing
      requires Stage(d0, disk, items, [], 0)
      modifies this
      ensures old(history) <= history && AllCut(d0, items, history, |old(history)|)
      ensures disk.phase == Committing && Stage(d0, disk, items, backedUp, 0)
      ensures ok ==> forall x :: x in items && x in d0.output ==> x in backedUp
      ensures (forall n :: works(n)) ==> ok
    {
      hide Stage, Cut, Staged;
      backedUp := [];
      var i := 0;
      while i < |items|
        invariant 0 <= i <= |items| && disk.phase == Committing && Stage(d0, disk, items, backedUp, 0)
        invariant forall x :: x in items[..i] && x in d0.output ==> x in backedUp
        invariant old(history) <= history && AllCut(d0, items, history, |old(history)|)
      {
        var item := items[i];
        assert items[..i + 1] == items[..i] + [item];
        if item in disk.output {
          Saves(d0, disk, items, backedUp, item);
          StageCut(d0, disk, items, backedUp, 0);
          var moved := MoveToBackup(item);
          if !moved {
            return false, backedUp;
          }
          backedUp := backedUp + [item];
          StageCut(d0, disk, items, backedUp, 0);
        } else {
          NotThere(d0, disk, items, backedUp, item);
        }
        i := i + 1;
      }
      assert items[..i] == items;
      return true, backedUp;
    }

    /** Installs the items one by one; one that the list has named before is there no more. */
    method InstallAll(ghost d0: Disk, items: seq<string>, backedUp: seq<string>, beforeInstall: (nat, string) -> bool)
      returns (ok: bool, installed: nat)
      requires Staged(d0, items) && disk.phase == Committing
      requires Stage(d0, disk, items, backedUp, 0)
      requires forall x :: x in items && x in d0.output ==> x in backedUp
      modifies this
      ensures old(history) <= history && AllCut(d0, items, history, |old(history)|)
      ensures disk.phase == Committing && Stage(d0, disk, items, backedUp, installed)
      ensures ok ==> installed == |items| && Distinct(items)
      ensures (forall n :: works(n)) && (forall n, x :: beforeInstall(n, x)) && Distinct(items) ==> ok
    {
      hide Stage, Cut, Staged;
      installed := 0;
      while installed < |items|
        invariant 0 <= installed <= |items| && disk.phase == Committing
        invariant Stage(d0, disk, items, backedUp, installed)
        invariant old(history) <= history && AllCut(d0, items, history, |old(history)|)
      {
        StageCut(d0, disk, items, backedUp, installed);
        StillStaged(d0, disk, items, backedUp, installed);
        var moved := beforeInstall(installed, items[installed]);
        if moved {
          moved := items[installed] in disk.staged;
        }
        if moved {
          Installs(d0, disk, items, backedUp, installed);
          moved := Install(items[installed]);
        }
        if !moved {
          return false, installed;
        }
        installed := installed + 1;
        StageCut(d0, disk, items, backedUp, installed);
      }
      StagedDistinct(d0, disk, items, backedUp, installed);
      assert items[..installed] == items;
      return true, installed;
    }

    /** Checks the items, then writes the item list and the `committing` marker and makes
        the backup directory. */
    method Prepare(items: seq<string>, valid: string -> bool) returns (started: bool, rejected: bool)
      requires disk.phase == Unmarked && disk.backup == map[]
      modifies this
      ensures old(history) <= history && AllCut(old(disk), items, history, |old(history)|)
      ensures Cut(old(disk), items, disk) && disk.phase != Committed
      ensures rejected <==> exists x :: x in items && (!valid(x) || x !in old(disk).staged)
      ensures rejected ==> !started && disk == old(disk)
      ensures !rejected ==> Staged(old(disk), items)
      ensures started ==> disk.phase == Committing && Stage(old(disk), disk, items, [], 0)
      ensures (forall n :: works(n)) ==> started || rejected
    {
      hide Stage, Cut;
      ghost var d0 := disk;
      UnmarkedCut(d0, d0, items);
      started, rejected := false, false;
      var i := 0;
      while i < |items|
        invariant 0 <= i <= |items| && disk == d0 && history == old(history)
        invariant forall x :: x in items[..i] ==> valid(x) && x in disk.staged
      {
        assert items[..i + 1] == items[..i] + [items[i]] && items[i] in items;
        if !valid(items[i]) || items[i] !in disk.staged {
          rejected := true;
          return;
        }
        i := i + 1;
      }
      assert items[..i] == items;
      UnmarkedCut(d0, disk.(listed := Some(items)), items);
      var listed := Step(disk.(listed := Some(items)));
      if !listed {
        return;
      }
      NothingDone(d0, disk.(phase := Committing), items);
      StageCut(d0, disk.(phase := Committing), items, [], 0);
      var marked := Step(disk.(phase := Committing));
      if !marked {
        return;
      }
      started := Step(disk);
    }

    /** `commit_sample_bundle_with`. Whatever operation fails, and wherever a crash cuts
        it short, recovery leaves every item old, unless the committed marker was
        written; then every item is new. A list that repeats an item is never committed. */
    method CommitSampleBundle(items: seq<string>, valid: string -> bool, beforeInstall: (nat, string) -> bool)
      returns (outcome: Outcome)
      requires disk.phase == Unmarked && disk.backup == map[]
      modifies this
      ensures old(history) <= history && AllCut(old(disk), items, history, |old(history)|)
      ensures Distinct(items) ==> AllCrashSafe(old(disk), items, history, |old(history)|)
      ensures Cut(old(disk), items, disk)
      ensures outcome == Rejected <==> exists x :: x in items && (!valid(x) || x !in old(disk).staged)
      ensures outcome == Rejected ==> disk == old(disk)
      ensures outcome == Done <==> disk.phase == Committed
      ensures outcome == Done ==> Published(old(disk), disk.output, items) && Distinct(items)
      ensures outcome == RolledBack ==>
                disk.output == old(disk).output && disk.staged == old(disk).staged && Recover(disk).output == disk.output
      ensures (forall n :: works(n)) && (forall n, x :: beforeInstall(n, x)) ==>
                outcome == Rejected || outcome == if Distinct(items) then Done else RolledBack
      ensures (forall n :: works(n)) ==> outcome == Rejected || outcome == Done || outcome == RolledBack
    {
      hide Stage, Cut, CrashSafe, Published, Staged;
      ghost var d0 := disk;
      var started, rejected := Prepare(items, valid);
      if !started {
        outcome := if rejected then Rejected else Unstarted;
      } else {
        var saved, backedUp := BackUp(d0, items);
        StageCut(d0, disk, items, backedUp, 0);
        var installed: nat := 0;
        var done := false;
        if saved {
          done, installed := InstallAll(d0, items, backedUp, beforeInstall);
          StageCut(d0, disk, items, backedUp, installed);
        }
        if done {
          AllInstalled(d0, disk, items, backedUp);
          CommittedCut(d0, disk.(phase := Committed), items);
          var committed := Step(disk.(phase := Committed));
          outcome := if committed then Done else MarkerFailed;
        } else {
          outcome := RollbackFailed;
          var restored := RestoreSampleBundle(d0, items, installed, backedUp);
          if restored {
            AllRolledBack(d0, disk, items);
            outcome := RolledBack;
          }
        }
      }
      if Distinct(items) {
        AllCutCrashSafe(d0, items, history, |old(history)|);
      }
    }
  }

  /** A list that names an item twice can lose its old copy: it has been backed up once,
      and installed once, when the commit is cut short. */
  lemma RepeatedItemLosesFile()
    ensures var d0 := Disk(map["a" := "old"], map["a" := "new"], map[], Unmarked, None);
            var d := Disk(map["a" := "new"], map[], map["a" := "old"], Committing, Some(["a", "a"]));
            && Stage(d0, d, ["a", "a"], ["a"], 1) && Safe(d0, d, ["a", "a"])
            && Recover(d).output == map[]
  {
    var d := Disk(map["a" := "new"], map[], map["a" := "old"], Committing, Some(["a", "a"]));
    assert ["a", "a"][..1] == ["a"];
    assert RecoverItems(d, ["a", "a"], 2) == d;
    var e := RecoverItems(d, ["a", "a"], 1);
    assert e == Disk(map["a" := "old"], map[], map[], Committing, Some(["a", "a"]));
  }

  lemma NotThere(d0: Disk, d: Disk, items: seq<string>, saved: seq<string>, item: string)
    requires Stage(d0, d, items, saved, 0) && item !in d.output
    ensures item in d0.output ==> item in saved
  {}

  /** The item to be installed is staged unless it was installed before. */
  lemma StillStaged(d0: Disk, d: Disk, items: seq<string>, saved: seq<string>, k: nat)
    requires Stage(d0, d, items, saved, k) && Staged(d0, items) && k < |items|
    ensures items[k] in d.staged <==> items[k] !in items[..k]
  {
    StagedLeft(d0, items, k, items[k]);
  }

  lemma StagedDistinct(d0: Disk, d: Disk, items: seq<string>, saved: seq<string>, k: nat)
    requires Stage(d0, d, items, saved, k)
    ensures k <= |items| && Distinct(items[..k])
  {}

  lemma UnmarkedCut(d0: Disk, d: Disk, items: seq<string>)
    requires d.phase == Unmarked && d.output == d0.output
    ensures Cut(d0, items, d)
  {}

  lemma CommittedCut(d0: Disk, d: Disk, items: seq<string>)
    requires d.phase == Committed && Published(d0, d.output, items)
    ensures Cut(d0, items, d)
  {}
}
