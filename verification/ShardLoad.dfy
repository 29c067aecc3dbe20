/** Loading in shards: row groups are ingested in chunks, and the shards are merged in an
    ordered tree. The result is that of one sequential ingest. */
module ShardLoad {
  import opened Wrappers
  import opened Catalog
  import opened CatalogMeaning
  import opened StoreTables
  import opened EntityStore
  import opened LoadMeaning

  datatype Shard = Loaded(store: Store) | Failed

  /** The shard is what ingesting `rows` in order gives. */
  ghost predicate Stands(shard: Shard, rows: seq<Row>)
    reads if shard.Loaded? then {shard.store} else {}
  {
    match shard
    case Loaded(store) => store.Valid() && IngestAll(EMPTY, rows) == Ok(store.catalog)
    case Failed => IngestAll(EMPTY, rows).Err?
  }

  function Flatten(rows: seq<seq<Row>>): seq<Row> {
    if rows == [] then [] else Flatten(rows[..|rows| - 1]) + rows[|rows| - 1]
  }

  lemma {:induction false} FlattenJoin(a: seq<seq<Row>>, b: seq<seq<Row>>)
    ensures Flatten(a + b) == Flatten(a) + Flatten(b)
  {
    if b == [] {
      assert a + b == a;
    } else {
      assert (a + b)[..|a + b| - 1] == a + b[..|b| - 1];
      FlattenJoin(a, b[..|b| - 1]);
    }
  }

  lemma FlattenOne(a: seq<Row>)
    ensures Flatten([a]) == a
  {}

  ghost function Stores(shards: seq<Shard>): set<Store> {
    set i | 0 <= i < |shards| && shards[i].Loaded? :: shards[i].store
  }

  ghost predicate Separate(shards: seq<Shard>) {
    forall i, j :: 0 <= i < j < |shards| && shards[i].Loaded? && shards[j].Loaded? ==>
      shards[i].store != shards[j].store
  }

  /** `merge_shards_ordered`, on the loads of consecutive row sequences. */
  method MergeShardsOrdered(shards: seq<Shard>, ghost rows: seq<seq<Row>>) returns (merged: Shard)
    requires |rows| == |shards| && Separate(shards)
    requires forall i :: 0 <= i < |shards| ==> Stands(shards[i], rows[i])
    modifies Stores(shards)
    ensures Stands(merged, Flatten(rows))
    ensures merged.Loaded? ==> merged.store in Stores(shards) || fresh(merged.store)
    decreases |shards|
  {
    hide EntityStore.Store.Valid, IngestAll, Flatten, Merge, Separate;
    if |shards| == 0 {
      var store := new Store();
      NoRows(rows);
      return Loaded(store);
    }
    if |shards| == 1 {
      FlattenOne(rows[0]);
      OwnStore(shards);
      assert rows == [rows[0]];
      return shards[0];
    }
    var half := |shards| / 2;
    ghost var a, b := rows[..half], rows[half..];
    assert rows == a + b;
    FlattenJoin(a, b);
    MergeIsIngest(Flatten(a), Flatten(b));
    StoresSplit(shards, half);
    OwnStore(shards[..half]);
    OwnStore(shards[half..]);
    var left := MergeShardsOrdered(shards[..half], a);
    var right := MergeShardsOrdered(shards[half..], b);
    if left.Failed? || right.Failed? {
      return Failed;
    }
    var ok := left.store.MergeShard(right.store);
    if !ok {
      return Failed;
    }
    return left;
  }

  lemma NoRows(rows: seq<seq<Row>>)
    requires rows == []
    ensures IngestAll(EMPTY, Flatten(rows)) == Ok(EMPTY)
  {}

  lemma OwnStore(shards: seq<Shard>)
    ensures forall i :: 0 <= i < |shards| && shards[i].Loaded? ==> shards[i].store in Stores(shards)
  {}

  lemma StoresSplit(shards: seq<Shard>, half: nat)
    requires half <= |shards| && Separate(shards)
    ensures Separate(shards[..half]) && Separate(shards[half..])
    ensures Stores(shards[..half]) !! Stores(shards[half..])
    ensures Stores(shards[..half]) + Stores(shards[half..]) == Stores(shards)
  {
    var l, r := shards[..half], shards[half..];
    forall s | s in Stores(shards) ensures s in Stores(l) + Stores(r) {
      var i :| 0 <= i < |shards| && shards[i].Loaded? && shards[i].store == s;
      if i < half {
        assert l[i] == shards[i];
      } else {
        assert r[i - half] == shards[i];
      }
    }
    forall s | s in Stores(l) ensures s in Stores(shards) && s !in Stores(r) {
      var i :| 0 <= i < |l| && l[i].Loaded? && l[i].store == s;
      assert shards[i] == l[i];
      forall j | 0 <= j < |r| && r[j].Loaded? ensures r[j].store != s {
        assert shards[half + j] == r[j];
      }
    }
    forall s | s in Stores(r) ensures s in Stores(shards) {
      var i :| 0 <= i < |r| && r[i].Loaded? && r[i].store == s;
      assert shards[half + i] == r[i];
    }
  }

  /** One chunk's shard: its rows, one after the other. */
  method IngestRows(rows: seq<Row>) returns (shard: Shard)
    ensures Stands(shard, rows)
    ensures shard.Loaded? ==> fresh(shard.store)
  {
    hide EntityStore.Store.Valid, AddRow;
    var store := new Store();
    var i := 0;
    IngestNone(rows);
    while i < |rows|
      invariant 0 <= i <= |rows| && fresh(store) && store.Valid()
      invariant IngestAll(EMPTY, rows[..i]) == Ok(store.catalog)
    {
      IngestNext(rows, i);
      var ok := store.TryIngestRow(rows[i]);
      if !ok {
        IngestFails(rows, i + 1);
        return Failed;
      }
      i := i + 1;
    }
    return Loaded(store);
  }

  lemma IngestNone(rows: seq<Row>)
    ensures IngestAll(EMPTY, rows[..0]) == Ok(EMPTY) && rows[..|rows|] == rows
  {}

  lemma IngestNext(rows: seq<Row>, i: nat)
    requires i < |rows|
    ensures IngestAll(EMPTY, rows[..i + 1])
            == if IngestAll(EMPTY, rows[..i]).Ok? then AddRow(IngestAll(EMPTY, rows[..i]).value, rows[i]) else Err(())
  {
    assert rows[..i + 1][..i] == rows[..i];
  }

  lemma {:induction false} IngestFails(rows: seq<Row>, i: nat)
    requires i <= |rows| && IngestAll(EMPTY, rows[..i]).Err?
    ensures IngestAll(EMPTY, rows).Err?
    decreases |rows| - i
  {
    if i < |rows| {
      IngestNext(rows, i);
      IngestFails(rows, i + 1);
    } else {
      assert rows[..i] == rows;
    }
  }

  /** The share of one chunk, when there are two chunks for each thread. */
  function GroupsPerChunk(groups: nat, threads: nat): (share: nat)
    ensures share > 0
  {
    var targetChunks := if threads == 0 then 1 else threads * 2;
    var share := (groups + targetChunks - 1) / targetChunks;
    if share == 0 then 1 else share
  }

  /** `scan_file_to_shard`: consecutive row groups share a chunk, however many threads
      there are, and the chunks' shards are merged in order. */
  method ScanFileToShard(rowGroups: seq<seq<Row>>, threads: nat) returns (shard: Shard)
    ensures Stands(shard, Flatten(rowGroups))
    ensures shard.Loaded? ==> fresh(shard.store)
  {
    hide EntityStore.Store.Valid, IngestAll, GroupsPerChunk;
    var perChunk := GroupsPerChunk(|rowGroups|, threads);
    var shards: seq<Shard> := [];
    ghost var parts: seq<seq<Row>> := [];
    var start := 0;
    while start < |rowGroups|
      invariant 0 <= start <= |rowGroups| && |parts| == |shards| && Separate(shards)
      invariant forall i :: 0 <= i < |shards| ==> Stands(shards[i], parts[i])
      invariant forall i :: 0 <= i < |shards| && shards[i].Loaded? ==> fresh(shards[i].store)
      invariant Flatten(parts) == Flatten(rowGroups[..start])
      decreases |rowGroups| - start
    {
      var end := if start + perChunk <= |rowGroups| then start + perChunk else |rowGroups|;
      var rows := Flatten(rowGroups[start..end]);
      var next := IngestRows(rows);
      NextPart(rowGroups, start, end, parts, rows);
      shards := shards + [next];
      parts := parts + [rows];
      start := end;
    }
    assert rowGroups[..start] == rowGroups;
    shard := MergeShardsOrdered(shards, parts);
  }

  lemma NextPart(groups: seq<seq<Row>>, start: nat, end: nat, parts: seq<seq<Row>>, rows: seq<Row>)
    requires start <= end <= |groups| && Flatten(parts) == Flatten(groups[..start])
    requires rows == Flatten(groups[start..end])
    ensures Flatten(parts + [rows]) == Flatten(groups[..end])
  {
    assert groups[..end] == groups[..start] + groups[start..end];
    FlattenJoin(groups[..start], groups[start..end]);
    FlattenJoin(parts, [rows]);
    FlattenOne(rows);
  }

  /** All the rows of some files, in file order. */
  function AllRows(files: seq<seq<seq<Row>>>): seq<Row> {
    if files == [] then [] else AllRows(files[..|files| - 1]) + Flatten(files[|files| - 1])
  }

  /** What a shard says about its rows. */
  lemma ShardMeans(shard: Shard, rows: seq<Row>)
    requires Stands(shard, rows)
    ensures shard.Failed? <==> RowsConflict(rows)
    ensures shard.Loaded? ==> TablesFrom(rows, shard.store.Snapshot())
  {
    IngestMeans(rows);
    hide IngestAll, RowsConflict, Represents, TablesFrom;
    if shard.Loaded? {
      TablesMean(rows, shard.store.Snapshot(), shard.store.catalog);
    }
  }

  /** `load_entities_with_options`, from the decoded row groups of its input files: the
      store of one sequential ingest of every row, with the tables that the rows' fields
      say, and a failure exactly when two complete rows give one NFT different URIs. */
  method LoadEntities(files: seq<seq<seq<Row>>>, threads: nat) returns (loaded: Shard)
    ensures Stands(loaded, AllRows(files))
    ensures loaded.Failed? <==> RowsConflict(AllRows(files))
    ensures loaded.Loaded? ==> TablesFrom(AllRows(files), loaded.store.Snapshot())
  {
    hide EntityStore.Store.Valid, IngestAll, RowsConflict, TablesFrom;
    var shards: seq<Shard> := [];
    ghost var parts: seq<seq<Row>> := [];
    var i := 0;
    while i < |files|
      invariant 0 <= i <= |files| && |parts| == |shards| == i && Separate(shards)
      invariant forall k :: 0 <= k < i ==> Stands(shards[k], parts[k])
      invariant forall k :: 0 <= k < i && shards[k].Loaded? ==> fresh(shards[k].store)
      invariant Flatten(parts) == AllRows(files[..i])
    {
      var next := ScanFileToShard(files[i], threads);
      FlattenJoin(parts, [Flatten(files[i])]);
      FlattenOne(Flatten(files[i]));
      assert files[..i + 1][..i] == files[..i];
      shards := shards + [next];
      parts := parts + [Flatten(files[i])];
      i := i + 1;
    }
    assert files[..i] == files;
    loaded := MergeShardsOrdered(shards, parts);
    ShardMeans(loaded, AllRows(files));
  }
}
