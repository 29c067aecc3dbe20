/** What a snapshot load means: tables in order of first appearance, and values that
    combine when a key appears again. Ingesting row by row and merging two loads are both
    defined here, and shown to agree. */
module Catalog {
  import opened Wrappers
  import opened Sorting
  import opened Text

  datatype SourceOrder = SourceOrder(fileOrdinal: nat, fileRowNumber: nat)

  datatype Row = Row(chain: string, contractAddress: string, tokenId: string,
                     name: string, tokenUri: string, imageUri: string, order: SourceOrder)

  type NftKey = (string, string, string)

  datatype Value = Value(name: Option<string>, tokenUri: Option<string>, imageUri: Option<string>,
                         order: SourceOrder)

  datatype Entry = Entry(key: NftKey, value: Value)

  /** NFTs in order of first appearance. */
  datatype NftTable = NftTable(order: seq<NftKey>, values: map<NftKey, Value>) {
    ghost predicate Valid() {
      Distinct(order) && forall k :: k in order <==> k in values
    }

    function Get(k: NftKey): Option<Value> {
      if k in values then Some(values[k]) else None
    }

    function Entries(): seq<Entry>
      requires forall k :: k in order ==> k in values
    {
      seq(|order|, i requires 0 <= i < |order| => Entry(order[i], values[order[i]]))
    }
  }

  const NO_NFTS := NftTable([], map[])

  /** Chains, contracts and NFTs by their natural keys. */
  datatype Catalog = Catalog(chains: seq<string>, contracts: seq<(string, string)>, nfts: NftTable)

  const EMPTY := Catalog([], [], NO_NFTS)

  // ----- combining two sightings of one NFT

  /** One URI at most: the first value stands, an equal one agrees, another conflicts. */
  function MergeUri(existing: Option<string>, incoming: Option<string>): Result<Option<string>, ()> {
    if existing.None? then Ok(incoming)
    else if incoming.None? || incoming == existing then Ok(existing)
    else Err(())
  }

  function Combine(a: Value, b: Value): Result<Value, ()> {
    var t := MergeUri(a.tokenUri, b.tokenUri);
    var i := MergeUri(a.imageUri, b.imageUri);
    if t.Err? || i.Err? then Err(())
    else Ok(Value(if a.name.Some? then a.name else b.name, t.value, i.value, a.order))
  }

  // ----- ordered tables

  function AppendNew<K(==)>(s: seq<K>, k: K): seq<K> {
    if k in s then s else s + [k]
  }

  function AppendAll<K(==)>(s: seq<K>, more: seq<K>): seq<K> {
    if more == [] then s else AppendNew(AppendAll(s, more[..|more| - 1]), more[|more| - 1])
  }

  lemma {:induction false} AppendAllMembers<K>(s: seq<K>, more: seq<K>, k: K)
    ensures k in AppendAll(s, more) <==> k in s || k in more
  {
    if more != [] {
      var m := |more| - 1;
      AppendAllMembers(s, more[..m], k);
      assert more == more[..m] + [more[m]];
    }
  }

  /** Registering keys one by one, or registering the table they would make on their own. */
  lemma {:induction false} AppendAllCanonical<K>(s: seq<K>, more: seq<K>)
    ensures AppendAll(s, AppendAll([], more)) == AppendAll(s, more)
  {
    if more != [] {
      var m := |more| - 1;
      var table := AppendAll([], more[..m]);
      AppendAllCanonical(s, more[..m]);
      AppendAllMembers([], more[..m], more[m]);
      AppendAllMembers(s, more[..m], more[m]);
      if more[m] !in table {
        assert (table + [more[m]])[..|table|] == table;
      }
    }
  }

  lemma {:induction false} AppendAllJoin<K>(s: seq<K>, a: seq<K>, b: seq<K>)
    ensures AppendAll(s, a + b) == AppendAll(AppendAll(s, a), b)
  {
    if b == [] {
      assert a + b == a;
    } else {
      var m := |b| - 1;
      assert (a + b)[..|a + b| - 1] == a + b[..m] && (a + b)[|a + b| - 1] == b[m];
      AppendAllJoin(s, a, b[..m]);
    }
  }

  /** Adds an entry at the end, or combines it with the entry of its key. */
  function Put(t: NftTable, e: Entry): Result<NftTable, ()> {
    if e.key in t.values then
      var v := Combine(t.values[e.key], e.value);
      if v.Ok? then Ok(NftTable(t.order, t.values[e.key := v.value])) else Err(())
    else
      Ok(NftTable(t.order + [e.key], t.values[e.key := e.value]))
  }

  function PutAll(t: NftTable, es: seq<Entry>): Result<NftTable, ()> {
    if es == [] then Ok(t)
    else
      var r := PutAll(t, es[..|es| - 1]);
      if r.Ok? then Put(r.value, es[|es| - 1]) else Err(())
  }

  function KeysOf(es: seq<Entry>): (r: seq<NftKey>)
    ensures |r| == |es| && forall i :: 0 <= i < |r| ==> r[i] == es[i].key
  {
    if es == [] then [] else KeysOf(es[..|es| - 1]) + [es[|es| - 1].key]
  }

  // ----- what one key gathers

  /** `v`, combined with every value `es` has for `k`, in order. */
  function Gather(v: Option<Value>, es: seq<Entry>, k: NftKey): Result<Option<Value>, ()> {
    if es == [] then Ok(v)
    else
      var r := Gather(v, es[..|es| - 1], k);
      var e := es[|es| - 1];
      if r.Err? || e.key != k then r else Link(r.value, Some(e.value))
  }

  function Link(v: Option<Value>, w: Option<Value>): Result<Option<Value>, ()> {
    if v.None? then Ok(w)
    else if w.None? then Ok(v)
    else
      var c := Combine(v.value, w.value);
      if c.Ok? then Ok(Some(c.value)) else Err(())
  }

  function LinkResult(v: Option<Value>, w: Result<Option<Value>, ()>): Result<Option<Value>, ()> {
    if w.Err? then Err(()) else Link(v, w.value)
  }

  lemma LinkAssociative(u: Option<Value>, v: Option<Value>, w: Option<Value>)
    ensures Link(u, v).Ok? && Link(v, w).Ok? ==>
              Link(Link(u, v).value, w) == Link(u, Link(v, w).value)
    ensures Link(u, v).Err? && Link(v, w).Ok? ==> Link(u, Link(v, w).value).Err?
    ensures Link(u, v).Ok? && Link(v, w).Err? ==> Link(Link(u, v).value, w).Err?
  {}

  /** Gathering onto `v` is combining `v` with what is gathered onto nothing. */
  lemma {:induction false} GatherFromNothing(v: Option<Value>, es: seq<Entry>, k: NftKey)
    ensures Gather(v, es, k) == LinkResult(v, Gather(None, es, k))
  {
    if es != [] {
      var m := |es| - 1;
      GatherFromNothing(v, es[..m], k);
      var g := Gather(None, es[..m], k);
      if g.Ok? && es[m].key == k {
        LinkAssociative(v, g.value, Some(es[m].value));
      }
    }
  }

  ghost predicate GathersTo(t: NftTable, es: seq<Entry>, r: NftTable) {
    forall k :: Gather(t.Get(k), es, k) == Ok(r.Get(k))
  }

  lemma PutStep(t: NftTable, e: Entry)
    requires t.Valid()
    ensures Put(t, e) == Err(()) <==> Link(t.Get(e.key), Some(e.value)).Err?
    ensures Put(t, e).Ok? ==>
              var r := Put(t, e).value;
              && r.Valid() && r.order == AppendNew(t.order, e.key)
              && Link(t.Get(e.key), Some(e.value)) == Ok(r.Get(e.key))
              && forall k :: k != e.key ==> r.Get(k) == t.Get(k)
  {}

  /** A fold of entries succeeds exactly when every key's values combine, and holds what
      each key gathers, keys in order of first appearance. */
  lemma {:induction false} PutAllGathers(t: NftTable, es: seq<Entry>)
    requires t.Valid()
    ensures PutAll(t, es).Ok? ==>
              var r := PutAll(t, es).value;
              r.Valid() && r.order == AppendAll(t.order, KeysOf(es)) && GathersTo(t, es, r)
    ensures PutAll(t, es).Err? ==> exists k :: Gather(t.Get(k), es, k).Err?
  {
    if es != [] {
      var m := |es| - 1;
      PutAllGathers(t, es[..m]);
      var p := PutAll(t, es[..m]);
      assert KeysOf(es)[..m] == KeysOf(es[..m]);
      if p.Ok? {
        PutStep(p.value, es[m]);
        if PutAll(t, es).Err? {
          assert Gather(t.Get(es[m].key), es, es[m].key).Err?;
        }
      } else {
        var k :| Gather(t.Get(k), es[..m], k).Err?;
        assert Gather(t.Get(k), es, k).Err?;
      }
    }
  }

  /** A table's own entries give each key its value once. */
  lemma {:induction false} GatherEntries(v: Option<Value>, es: seq<Entry>, k: NftKey, w: Option<Value>)
    requires forall i, j :: 0 <= i < j < |es| ==> es[i].key != es[j].key
    requires w.Some? ==> Entry(k, w.value) in es
    requires w.None? ==> forall i :: 0 <= i < |es| ==> es[i].key != k
    ensures Gather(v, es, k) == Link(v, w)
  {
    if es != [] {
      var m := |es| - 1;
      var rest := es[..m];
      if es[m].key == k {
        assert w.Some? && es[m] == Entry(k, w.value);
        GatherEntries(v, rest, k, None);
      } else {
        if w.Some? {
          var i :| 0 <= i < |es| && es[i] == Entry(k, w.value);
          assert rest[i] == Entry(k, w.value);
        }
        GatherEntries(v, rest, k, w);
      }
    }
  }

  lemma OneEntryPerKey(r: NftTable, k: NftKey, v: Option<Value>)
    requires r.Valid()
    ensures Gather(v, r.Entries(), k) == Link(v, r.Get(k))
    ensures KeysOf(r.Entries()) == r.order
  {
    var es := r.Entries();
    if k in r.values {
      var i :| 0 <= i < |r.order| && r.order[i] == k;
      assert es[i] == Entry(k, r.values[k]);
    }
    GatherEntries(v, es, k, r.Get(k));
  }

  lemma SameTable(x: NftTable, y: NftTable)
    requires x.Valid() && y.Valid() && x.order == y.order && forall k :: x.Get(k) == y.Get(k)
    ensures x == y
  {
    assert x.values.Keys == y.values.Keys;
    forall k | k in x.values ensures x.values[k] == y.values[k] {
      assert x.Get(k) == y.Get(k);
    }
  }

  /** Adding entries to `t` directly, or first making a table of them and then adding the
      table's entries, is the same, conflicts included. */
  lemma EntriesReplay(t: NftTable, es: seq<Entry>)
    requires t.Valid()
    ensures PutAll(NO_NFTS, es).Err? ==> PutAll(t, es).Err?
    ensures PutAll(NO_NFTS, es).Ok? ==>
              PutAll(NO_NFTS, es).value.Valid()
              && PutAll(t, PutAll(NO_NFTS, es).value.Entries()) == PutAll(t, es)
  {
    var r := PutAll(NO_NFTS, es);
    PutAllGathers(NO_NFTS, es);
    PutAllGathers(t, es);
    if r.Err? {
      var k :| Gather(NO_NFTS.Get(k), es, k).Err?;
      GatherFromNothing(t.Get(k), es, k);
    } else {
      SameGathers(t, es, r.value);
    }
  }

  lemma SameGathers(t: NftTable, es: seq<Entry>, r: NftTable)
    requires t.Valid() && r.Valid() && GathersTo(NO_NFTS, es, r) && r.order == AppendAll([], KeysOf(es))
    ensures PutAll(t, r.Entries()) == PutAll(t, es)
  {
    hide PutAll, Gather, AppendAll, KeysOf, NftTable.Entries;
    var fs := r.Entries();
    PutAllGathers(t, es);
    PutAllGathers(t, fs);
    forall k ensures Gather(t.Get(k), fs, k) == Gather(t.Get(k), es, k) {
      OneEntryPerKey(r, k, t.Get(k));
      GatherFromNothing(t.Get(k), es, k);
      assert Gather(NO_NFTS.Get(k), es, k) == Ok(r.Get(k));
    }
    if PutAll(t, es).Ok? && PutAll(t, fs).Ok? {
      OneEntryPerKey(r, ("", "", ""), None);
      AppendAllCanonical(t.order, KeysOf(es));
      var x, y := PutAll(t, fs).value, PutAll(t, es).value;
      forall k ensures x.Get(k) == y.Get(k) {
        assert Gather(t.Get(k), fs, k) == Ok(x.Get(k)) && Gather(t.Get(k), es, k) == Ok(y.Get(k));
      }
      SameTable(x, y);
    } else {
      assert PutAll(t, es).Err? && PutAll(t, fs).Err?;
      OneError(PutAll(t, es).error, PutAll(t, fs).error);
    }
  }

  lemma OneError(x: (), y: ())
    ensures x == y
  {}

  lemma {:induction false} PutAllJoin(t: NftTable, a: seq<Entry>, b: seq<Entry>)
    ensures PutAll(t, a + b) == if PutAll(t, a).Ok? then PutAll(PutAll(t, a).value, b) else Err(())
  {
    if b == [] {
      assert a + b == a;
    } else {
      var m := |b| - 1;
      assert (a + b)[..|a + b| - 1] == a + b[..m] && (a + b)[|a + b| - 1] == b[m];
      PutAllJoin(t, a, b[..m]);
    }
  }

  // ----- rows

  function NonEmpty(s: string): Option<string> {
    if s == "" then None else Some(s)
  }

  function NonBlank(s: string): Option<string> {
    if Blank(s) then None else Some(s)
  }

  /** A row without its whole key is passed over. */
  predicate Skipped(row: Row) {
    row.chain == "" || row.contractAddress == "" || row.tokenId == ""
  }

  function EntryOf(row: Row): Entry {
    Entry((row.chain, row.contractAddress, row.tokenId),
          Value(NonBlank(row.name), NonEmpty(row.tokenUri), NonEmpty(row.imageUri), row.order))
  }

  function AddRow(c: Catalog, row: Row): Result<Catalog, ()> {
    if Skipped(row) then Ok(c)
    else
      var nfts := Put(c.nfts, EntryOf(row));
      if nfts.Err? then Err(())
      else Ok(Catalog(AppendNew(c.chains, row.chain),
                      AppendNew(c.contracts, (row.chain, row.contractAddress)), nfts.value))
  }

  /** Sequential ingest, row by row. */
  function IngestAll(c: Catalog, rows: seq<Row>): Result<Catalog, ()> {
    if rows == [] then Ok(c)
    else
      var r := IngestAll(c, rows[..|rows| - 1]);
      if r.Ok? then AddRow(r.value, rows[|rows| - 1]) else Err(())
  }

  /** Adding one load's tables to another's: chains, then contracts, then NFTs. */
  function Merge(a: Catalog, b: Catalog): Result<Catalog, ()>
    requires forall k :: k in b.nfts.order ==> k in b.nfts.values
  {
    var nfts := PutAll(a.nfts, b.nfts.Entries());
    if nfts.Err? then Err(())
    else Ok(Catalog(AppendAll(a.chains, b.chains), AppendAll(a.contracts, b.contracts), nfts.value))
  }

  function Kept(rows: seq<Row>): seq<Row> {
    if rows == [] then []
    else Kept(rows[..|rows| - 1]) + if Skipped(rows[|rows| - 1]) then [] else [rows[|rows| - 1]]
  }

  function Chains(rows: seq<Row>): seq<string> {
    if rows == [] then [] else Chains(rows[..|rows| - 1]) + [rows[|rows| - 1].chain]
  }

  function Contracts(rows: seq<Row>): seq<(string, string)> {
    if rows == [] then []
    else Contracts(rows[..|rows| - 1]) + [(rows[|rows| - 1].chain, rows[|rows| - 1].contractAddress)]
  }

  function EntriesOf(rows: seq<Row>): seq<Entry> {
    if rows == [] then [] else EntriesOf(rows[..|rows| - 1]) + [EntryOf(rows[|rows| - 1])]
  }

  lemma OneMoreRow(c: Catalog, k: seq<Row>, row: Row)
    ensures AppendAll(c.chains, Chains(k + [row])) == AppendNew(AppendAll(c.chains, Chains(k)), row.chain)
    ensures AppendAll(c.contracts, Contracts(k + [row]))
            == AppendNew(AppendAll(c.contracts, Contracts(k)), (row.chain, row.contractAddress))
    ensures PutAll(c.nfts, EntriesOf(k + [row]))
            == if PutAll(c.nfts, EntriesOf(k)).Ok? then Put(PutAll(c.nfts, EntriesOf(k)).value, EntryOf(row)) else Err(())
  {
    var l := k + [row];
    assert l[..|l| - 1] == k;
    assert Chains(l)[..|Chains(l)| - 1] == Chains(k);
    assert Contracts(l)[..|Contracts(l)| - 1] == Contracts(k);
    assert EntriesOf(l)[..|EntriesOf(l)| - 1] == EntriesOf(k);
  }

  /** Ingest fills each table on its own. */
  lemma {:induction false} IngestByTable(c: Catalog, rows: seq<Row>)
    ensures var k := Kept(rows);
            var nfts := PutAll(c.nfts, EntriesOf(k));
            IngestAll(c, rows) ==
            if nfts.Err? then Err(())
            else Ok(Catalog(AppendAll(c.chains, Chains(k)), AppendAll(c.contracts, Contracts(k)), nfts.value))
  {
    if rows != [] {
      var m := |rows| - 1;
      IngestByTable(c, rows[..m]);
      if Skipped(rows[m]) {
        assert Kept(rows) == Kept(rows[..m]);
      } else {
        OneMoreRow(c, Kept(rows[..m]), rows[m]);
      }
    }
  }

  lemma {:induction false} KeptJoin(a: seq<Row>, b: seq<Row>)
    ensures Kept(a + b) == Kept(a) + Kept(b)
  {
    if b == [] {
      assert a + b == a;
    } else {
      assert (a + b)[..|a + b| - 1] == a + b[..|b| - 1];
      KeptJoin(a, b[..|b| - 1]);
    }
  }

  lemma Associate<T>(a: seq<T>, b: seq<T>, c: seq<T>)
    ensures a + (b + c) == a + b + c
  {}

  lemma {:induction false} ColumnsJoin(a: seq<Row>, b: seq<Row>)
    ensures Chains(a + b) == Chains(a) + Chains(b)
    ensures Contracts(a + b) == Contracts(a) + Contracts(b)
    ensures EntriesOf(a + b) == EntriesOf(a) + EntriesOf(b)
  {
    if b == [] {
      assert a + b == a;
    } else {
      var m := |b| - 1;
      ColumnsJoin(a, b[..m]);
      assert (a + b)[..|a + b| - 1] == a + b[..m] && (a + b)[|a + b| - 1] == b[m];
      Associate(Chains(a), Chains(b[..m]), [b[m].chain]);
      Associate(Contracts(a), Contracts(b[..m]), [(b[m].chain, b[m].contractAddress)]);
      Associate(EntriesOf(a), EntriesOf(b[..m]), [EntryOf(b[m])]);
    }
  }

  lemma IngestValid(rows: seq<Row>)
    ensures IngestAll(EMPTY, rows).Ok? ==> IngestAll(EMPTY, rows).value.nfts.Valid()
  {
    IngestByTable(EMPTY, rows);
    PutAllGathers(NO_NFTS, EntriesOf(Kept(rows)));
  }

  /** Merging the loads of two row sequences is loading the one sequence they form; it
      fails exactly when that load fails. */
  lemma MergeIsIngest(a: seq<Row>, b: seq<Row>)
    ensures var x, y := IngestAll(EMPTY, a), IngestAll(EMPTY, b);
            (y.Ok? ==> y.value.nfts.Valid())
            && IngestAll(EMPTY, a + b) == if x.Ok? && y.Ok? then Merge(x.value, y.value) else Err(())
  {
    var x, y := IngestAll(EMPTY, a), IngestAll(EMPTY, b);
    var j, k := Kept(a), Kept(b);
    IngestValid(a);
    IngestValid(b);
    IngestByTable(EMPTY, a);
    IngestByTable(EMPTY, b);
    IngestByTable(EMPTY, a + b);
    KeptJoin(a, b);
    ColumnsJoin(j, k);
    PutAllJoin(NO_NFTS, EntriesOf(j), EntriesOf(k));
    if x.Ok? {
      EntriesReplay(x.value.nfts, EntriesOf(k));
      AppendAllJoin([], Chains(j), Chains(k));
      AppendAllJoin([], Contracts(j), Contracts(k));
      AppendAllCanonical(x.value.chains, Chains(k));
      AppendAllCanonical(x.value.contracts, Contracts(k));
    }
  }
}
