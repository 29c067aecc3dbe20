/** What an ingested catalog says about the rows, without mentioning how it was folded: first
    on the entries that rows give, then on the fields of the rows themselves. */
module CatalogMeaning {
  import opened Wrappers
  import opened Sorting
  import opened Text
  import opened Catalog

  ghost predicate Clash(a: Option<string>, b: Option<string>) {
    a.Some? && b.Some? && a != b
  }

  /** Two sightings of one NFT disagree on a URI. */
  ghost predicate Disagree(a: Value, b: Value) {
    Clash(a.tokenUri, b.tokenUri) || Clash(a.imageUri, b.imageUri)
  }

  ghost predicate SightingOf(es: seq<Entry>, i: int, k: NftKey) {
    0 <= i < |es| && es[i].key == k
  }

  ghost predicate Conflict(es: seq<Entry>, k: NftKey) {
    exists i, j :: i < j && SightingOf(es, i, k) && SightingOf(es, j, k) && Disagree(es[i].value, es[j].value)
  }

  /** The first sighting of `k`. */
  ghost predicate First(es: seq<Entry>, i: int, k: NftKey) {
    SightingOf(es, i, k) && forall j :: 0 <= j < i ==> es[j].key != k
  }

  /** The first sighting of `k` that names it. */
  ghost predicate FirstNamed(es: seq<Entry>, i: int, k: NftKey) {
    SightingOf(es, i, k) && es[i].value.name.Some?
    && forall j :: 0 <= j < i && es[j].key == k ==> es[j].value.name.None?
  }

  /** `v` is the first row's place, the first name, and the URIs any row has. */
  ghost predicate Summary(es: seq<Entry>, k: NftKey, v: Value) {
    && (exists i :: First(es, i, k) && v.order == es[i].value.order)
    && (v.name.Some? ==> exists i :: FirstNamed(es, i, k) && v.name == es[i].value.name)
    && (v.name.None? ==> forall i :: SightingOf(es, i, k) ==> es[i].value.name.None?)
    && (forall i :: SightingOf(es, i, k) && es[i].value.tokenUri.Some? ==> es[i].value.tokenUri == v.tokenUri)
    && (v.tokenUri.Some? ==> exists i :: SightingOf(es, i, k) && es[i].value.tokenUri == v.tokenUri)
    && (forall i :: SightingOf(es, i, k) && es[i].value.imageUri.Some? ==> es[i].value.imageUri == v.imageUri)
    && (v.imageUri.Some? ==> exists i :: SightingOf(es, i, k) && es[i].value.imageUri == v.imageUri)
  }

  ghost predicate Unseen(es: seq<Entry>, k: NftKey) {
    forall i :: 0 <= i < |es| ==> es[i].key != k
  }

  lemma ConflictGrows(es: seq<Entry>, e: Entry, k: NftKey)
    ensures Conflict(es + [e], k) <==>
              Conflict(es, k)
              || (e.key == k && exists i :: SightingOf(es, i, k) && Disagree(es[i].value, e.value))
  {
    var fs := es + [e];
    if Conflict(es, k) {
      var i, j :| i < j && SightingOf(es, i, k) && SightingOf(es, j, k) && Disagree(es[i].value, es[j].value);
      assert SightingOf(fs, i, k) && SightingOf(fs, j, k);
    }
    if e.key == k && exists i :: SightingOf(es, i, k) && Disagree(es[i].value, e.value) {
      var i :| SightingOf(es, i, k) && Disagree(es[i].value, e.value);
      assert SightingOf(fs, i, k) && SightingOf(fs, |es|, k);
    }
    if Conflict(fs, k) {
      var i, j :| i < j && SightingOf(fs, i, k) && SightingOf(fs, j, k) && Disagree(fs[i].value, fs[j].value);
      assert SightingOf(es, i, k);
      if j < |es| {
        assert SightingOf(es, j, k);
      }
    }
  }

  /** With a summary in hand, the next sighting disagrees with some earlier one exactly
      when it disagrees with the summary. */
  lemma SummaryDisagrees(es: seq<Entry>, k: NftKey, v: Value, w: Value)
    requires Summary(es, k, v)
    ensures Disagree(v, w) <==> exists i :: SightingOf(es, i, k) && Disagree(es[i].value, w)
  {}

  lemma SummaryStarts(es: seq<Entry>, e: Entry)
    requires Unseen(es, e.key)
    ensures Summary(es + [e], e.key, e.value)
  {
    var fs := es + [e];
    assert First(fs, |es|, e.key) && SightingOf(fs, |es|, e.key);
    assert e.value.name.Some? ==> FirstNamed(fs, |es|, e.key);
  }

  lemma SummarySkips(es: seq<Entry>, e: Entry, k: NftKey, v: Value)
    requires Summary(es, k, v) && e.key != k
    ensures Summary(es + [e], k, v)
  {
    var fs := es + [e];
    var i :| First(es, i, k) && v.order == es[i].value.order;
    assert First(fs, i, k);
    if v.name.Some? {
      var n :| FirstNamed(es, n, k) && v.name == es[n].value.name;
      assert FirstNamed(fs, n, k);
    }
    UrisStay(es, e, k, v);
  }

  lemma UrisStay(es: seq<Entry>, e: Entry, k: NftKey, v: Value)
    ensures var fs := es + [e];
            && (forall i :: SightingOf(es, i, k) ==> SightingOf(fs, i, k) && fs[i] == es[i])
            && (forall i :: SightingOf(fs, i, k) ==> (i < |es| && SightingOf(es, i, k)) || (i == |es| && e.key == k))
  {}

  lemma SummaryContinues(es: seq<Entry>, e: Entry, v: Value)
    requires Summary(es, e.key, v) && !Disagree(v, e.value)
    ensures Combine(v, e.value).Ok? && Summary(es + [e], e.key, Combine(v, e.value).value)
  {
    var fs, k, w := es + [e], e.key, Combine(v, e.value).value;
    UrisStay(es, e, k, v);
    assert SightingOf(fs, |es|, k);
    var i :| First(es, i, k) && v.order == es[i].value.order;
    assert First(fs, i, k);
    if v.name.Some? {
      var n :| FirstNamed(es, n, k) && v.name == es[n].value.name;
      assert FirstNamed(fs, n, k);
    } else if e.value.name.Some? {
      assert FirstNamed(fs, |es|, k);
    }
    if v.tokenUri.Some? {
      var j :| SightingOf(es, j, k) && es[j].value.tokenUri == v.tokenUri;
      assert fs[j].value.tokenUri == w.tokenUri;
    }
    if v.imageUri.Some? {
      var j :| SightingOf(es, j, k) && es[j].value.imageUri == v.imageUri;
      assert fs[j].value.imageUri == w.imageUri;
    }
  }

  /** What one key gathers: a conflict, nothing, or the summary of its sightings. */
  lemma {:induction false} GatherMeans(es: seq<Entry>, k: NftKey)
    ensures var g := Gather(None, es, k);
            && (g.Err? <==> Conflict(es, k))
            && (g == Ok(None) <==> Unseen(es, k))
            && (g.Ok? && g.value.Some? ==> Summary(es, k, g.value.value))
  {
    if es != [] {
      hide Conflict, Summary, Disagree, Unseen;
      var m := |es| - 1;
      var rest, e := es[..m], es[m];
      assert es == rest + [e];
      GatherMeans(rest, k);
      ConflictGrows(rest, e, k);
      UnseenGrows(rest, e, k);
      var g := Gather(None, rest, k);
      if g.Ok? && e.key == k {
        if g.value.None? {
          SummaryStarts(rest, e);
          UnseenNoSighting(rest, k);
        } else {
          CombineFails(g.value.value, e.value);
          SummaryDisagrees(rest, k, g.value.value, e.value);
          if !Disagree(g.value.value, e.value) {
            SummaryContinues(rest, e, g.value.value);
          }
        }
      } else if g.Ok? && g.value.Some? {
        SummarySkips(rest, e, k, g.value.value);
      }
    }
  }

  lemma CombineFails(a: Value, b: Value)
    ensures Combine(a, b).Err? <==> Disagree(a, b)
  {}

  lemma UnseenGrows(es: seq<Entry>, e: Entry, k: NftKey)
    ensures Unseen(es + [e], k) <==> Unseen(es, k) && e.key != k
  {
    assert (es + [e])[|es|] == e;
    assert forall i :: 0 <= i < |es| ==> (es + [e])[i] == es[i];
  }

  lemma UnseenNoSighting(es: seq<Entry>, k: NftKey)
    requires Unseen(es, k)
    ensures forall i :: !SightingOf(es, i, k)
  {}

  // ----- on the rows

  /** The row has its whole key. */
  ghost predicate Complete(row: Row) {
    row.chain != "" && row.contractAddress != "" && row.tokenId != ""
  }

  ghost predicate RowOf(rows: seq<Row>, i: int, k: NftKey) {
    && 0 <= i < |rows| && Complete(rows[i])
    && rows[i].chain == k.0 && rows[i].contractAddress == k.1 && rows[i].tokenId == k.2
  }

  ghost predicate Differ(a: string, b: string) {
    a != "" && b != "" && a != b
  }

  /** Two complete rows of one NFT give it different URIs. */
  ghost predicate KeyConflict(rows: seq<Row>, k: NftKey) {
    exists i, j :: RowOf(rows, i, k) && RowOf(rows, j, k)
                   && (Differ(rows[i].tokenUri, rows[j].tokenUri) || Differ(rows[i].imageUri, rows[j].imageUri))
  }

  ghost predicate RowsConflict(rows: seq<Row>) {
    exists k :: KeyConflict(rows, k)
  }

  /** The row names its NFT with something other than whitespace. */
  ghost predicate Names(row: Row) {
    exists n :: 0 <= n < |row.name| && row.name[n] !in WHITE_SPACE
  }

  /** The name of the first row that names the NFT. */
  ghost predicate NameFrom(rows: seq<Row>, k: NftKey, name: Option<string>) {
    match name
    case None => forall i :: RowOf(rows, i, k) ==> !Names(rows[i])
    case Some(s) =>
      exists i :: RowOf(rows, i, k) && Names(rows[i]) && rows[i].name == s
                  && forall j :: 0 <= j < i && RowOf(rows, j, k) ==> !Names(rows[j])
  }

  ghost predicate TokenUriFrom(rows: seq<Row>, k: NftKey, uri: Option<string>) {
    match uri
    case None => forall i :: RowOf(rows, i, k) ==> rows[i].tokenUri == ""
    case Some(s) => s != "" && exists i :: RowOf(rows, i, k) && rows[i].tokenUri == s
  }

  ghost predicate ImageUriFrom(rows: seq<Row>, k: NftKey, uri: Option<string>) {
    match uri
    case None => forall i :: RowOf(rows, i, k) ==> rows[i].imageUri == ""
    case Some(s) => s != "" && exists i :: RowOf(rows, i, k) && rows[i].imageUri == s
  }

  ghost predicate OrderFrom(rows: seq<Row>, k: NftKey, order: SourceOrder) {
    exists i :: RowOf(rows, i, k) && rows[i].order == order && forall j :: 0 <= j < i ==> !RowOf(rows, j, k)
  }

  /** The column of the keys that complete rows give, and nothing for the other rows. */
  ghost function ChainColumn(rows: seq<Row>): seq<Option<string>> {
    seq(|rows|, i requires 0 <= i < |rows| => if Complete(rows[i]) then Some(rows[i].chain) else None)
  }

  ghost function ContractColumn(rows: seq<Row>): seq<Option<(string, string)>> {
    seq(|rows|, i requires 0 <= i < |rows| => if Complete(rows[i]) then Some((rows[i].chain, rows[i].contractAddress)) else None)
  }

  ghost function KeyColumn(rows: seq<Row>): seq<Option<NftKey>> {
    seq(|rows|, i requires 0 <= i < |rows| =>
      if Complete(rows[i]) then Some((rows[i].chain, rows[i].contractAddress, rows[i].tokenId)) else None)
  }

  /** The keys of a column, each once, in the order in which they first appear there. */
  ghost predicate FirstOrder<K(!new)>(order: seq<K>, column: seq<Option<K>>) {
    && Distinct(order)
    && (forall k :: k in order <==> Some(k) in column)
    && (forall m, n :: 0 <= m < n < |order| ==> AppearsBefore(column, order[m], order[n]))
  }

  ghost predicate AppearsBefore<K(!new)>(column: seq<Option<K>>, a: K, b: K) {
    exists i :: 0 <= i < |column| && column[i] == Some(a) && Some(b) !in column[..i]
  }

  /** The catalog is that of the rows. */
  ghost predicate RowsLoaded(rows: seq<Row>, c: Catalog) {
    && !RowsConflict(rows)
    && FirstOrder(c.chains, ChainColumn(rows))
    && FirstOrder(c.contracts, ContractColumn(rows))
    && FirstOrder(c.nfts.order, KeyColumn(rows))
    && (forall k :: k in c.nfts.values <==> exists i :: RowOf(rows, i, k))
    && (forall k :: k in c.nfts.values ==> ValueFrom(rows, k, c.nfts.values[k]))
  }

  ghost predicate ValueFrom(rows: seq<Row>, k: NftKey, v: Value) {
    && NameFrom(rows, k, v.name) && TokenUriFrom(rows, k, v.tokenUri) && ImageUriFrom(rows, k, v.imageUri)
    && OrderFrom(rows, k, v.order)
  }

  // ----- from entries to rows

  ghost predicate WholeKey(k: NftKey) {
    k.0 != "" && k.1 != "" && k.2 != ""
  }

  lemma EntryMeans(row: Row)
    ensures EntryOf(row).key == (row.chain, row.contractAddress, row.tokenId) && (Skipped(row) <==> !Complete(row))
    ensures EntryOf(row).value.order == row.order
    ensures EntryOf(row).value.name == if Names(row) then Some(row.name) else None
    ensures EntryOf(row).value.tokenUri == if row.tokenUri == "" then None else Some(row.tokenUri)
    ensures EntryOf(row).value.imageUri == if row.imageUri == "" then None else Some(row.imageUri)
  {
    hide IsSpace;
    forall n | 0 <= n < |row.name| ensures IsSpace(row.name[n]) <==> row.name[n] in WHITE_SPACE {
      SpacesMean(row.name[n]);
    }
  }

  lemma OneMoreKept(rows: seq<Row>)
    requires rows != []
    ensures var init, row := rows[..|rows| - 1], rows[|rows| - 1];
            EntriesOf(Kept(rows)) == EntriesOf(Kept(init)) + if Skipped(row) then [] else [EntryOf(row)]
  {
    var init, row := rows[..|rows| - 1], rows[|rows| - 1];
    if Skipped(row) {
      assert Kept(rows) == Kept(init);
    } else {
      assert (Kept(init) + [row])[..|Kept(init)|] == Kept(init);
    }
  }

  /** A row that is passed over gives nothing to a whole key, and no key that is not whole
      gets anything. */
  lemma {:induction false} KeptGathers(rows: seq<Row>, k: NftKey)
    ensures Gather(None, EntriesOf(Kept(rows)), k) == if WholeKey(k) then Gather(None, EntriesOf(rows), k) else Ok(None)
  {
    if rows != [] {
      KeptGathers(rows[..|rows| - 1], k);
      hide Gather, EntriesOf, Kept;
      KeptStep(rows, k);
    }
  }

  lemma KeptStep(rows: seq<Row>, k: NftKey)
    requires rows != []
    requires var init := rows[..|rows| - 1];
             Gather(None, EntriesOf(Kept(init)), k) == if WholeKey(k) then Gather(None, EntriesOf(init), k) else Ok(None)
    ensures Gather(None, EntriesOf(Kept(rows)), k) == if WholeKey(k) then Gather(None, EntriesOf(rows), k) else Ok(None)
  {
    var init, row := rows[..|rows| - 1], rows[|rows| - 1];
    OneMoreKept(rows);
    EntryMeans(row);
    assert EntriesOf(rows) == EntriesOf(init) + [EntryOf(row)];
    hide Kept, EntryOf, Skipped, Link, EntriesOf, Names;
    OneMoreGather(EntriesOf(init), EntryOf(row), k);
    OneMoreGather(EntriesOf(Kept(init)), EntryOf(row), k);
    hide Gather;
    assert EntriesOf(Kept(init)) + [] == EntriesOf(Kept(init));
  }

  lemma OneMoreGather(es: seq<Entry>, e: Entry, k: NftKey)
    ensures Gather(None, es + [e], k)
            == if Gather(None, es, k).Err? || e.key != k then Gather(None, es, k) else Link(Gather(None, es, k).value, Some(e.value))
  {
    assert (es + [e])[..|es|] == es;
  }

  lemma {:induction false} EntriesAt(rows: seq<Row>)
    ensures |EntriesOf(rows)| == |rows| && forall i :: 0 <= i < |rows| ==> EntriesOf(rows)[i] == EntryOf(rows[i])
  {
    if rows != [] {
      EntriesAt(rows[..|rows| - 1]);
    }
  }

  /** The entries of a whole key are its rows. */
  lemma SightingsAreRows(rows: seq<Row>, k: NftKey)
    requires WholeKey(k)
    ensures |EntriesOf(rows)| == |rows|
    ensures forall i :: SightingOf(EntriesOf(rows), i, k) <==> RowOf(rows, i, k)
    ensures forall i :: RowOf(rows, i, k) ==> EntriesOf(rows)[i] == EntryOf(rows[i])
  {
    EntriesAt(rows);
    hide EntriesOf, EntryOf;
    forall i | 0 <= i < |rows| ensures EntriesOf(rows)[i].key == (rows[i].chain, rows[i].contractAddress, rows[i].tokenId) {
      EntryMeans(rows[i]);
    }
  }

  lemma DisagreeMeans(x: Row, y: Row)
    ensures Disagree(EntryOf(x).value, EntryOf(y).value)
            <==> Differ(x.tokenUri, y.tokenUri) || Differ(x.imageUri, y.imageUri)
  {
    hide EntryOf, Names;
    EntryMeans(x);
    EntryMeans(y);
  }

  lemma ConflictOnRows(rows: seq<Row>, k: NftKey)
    requires WholeKey(k)
    ensures Conflict(EntriesOf(rows), k) <==> KeyConflict(rows, k)
  {
    var es := EntriesOf(rows);
    SightingsAreRows(rows, k);
    hide EntriesOf, EntryOf, SightingOf, RowOf, Disagree, Differ;
    if Conflict(es, k) {
      var i, j :| i < j && SightingOf(es, i, k) && SightingOf(es, j, k) && Disagree(es[i].value, es[j].value);
      RowBounds(rows, i, k);
      RowBounds(rows, j, k);
      DisagreeMeans(rows[i], rows[j]);
    }
    if KeyConflict(rows, k) {
      var i, j :| RowOf(rows, i, k) && RowOf(rows, j, k)
                  && (Differ(rows[i].tokenUri, rows[j].tokenUri) || Differ(rows[i].imageUri, rows[j].imageUri));
      NotItself(rows[i], rows[j]);
      RowBounds(rows, i, k);
      RowBounds(rows, j, k);
      DisagreeMeans(rows[i], rows[j]);
      DisagreeMeans(rows[j], rows[i]);
      assert SightingOf(es, i, k) && SightingOf(es, j, k);
      assert i < j || j < i;
    }
  }

  lemma NotItself(x: Row, y: Row)
    requires Differ(x.tokenUri, y.tokenUri) || Differ(x.imageUri, y.imageUri)
    ensures x != y && (Differ(y.tokenUri, x.tokenUri) || Differ(y.imageUri, x.imageUri))
  {}

  lemma RowBounds(rows: seq<Row>, i: int, k: NftKey)
    requires RowOf(rows, i, k)
    ensures 0 <= i < |rows| && WholeKey(k)
  {}

  lemma SummaryOnRows(rows: seq<Row>, k: NftKey, v: Value)
    requires WholeKey(k) && Summary(EntriesOf(rows), k, v)
    ensures ValueFrom(rows, k, v)
  {
    var es := EntriesOf(rows);
    SightingsAreRows(rows, k);
    hide EntriesOf, EntryOf, Names, Complete;
    forall i | RowOf(rows, i, k)
      ensures es[i].value.order == rows[i].order
      ensures es[i].value.name == if Names(rows[i]) then Some(rows[i].name) else None
      ensures es[i].value.tokenUri == if rows[i].tokenUri == "" then None else Some(rows[i].tokenUri)
      ensures es[i].value.imageUri == if rows[i].imageUri == "" then None else Some(rows[i].imageUri)
    {
      EntryMeans(rows[i]);
    }
    assert forall i :: 0 <= i < |rows| ==> (RowOf(rows, i, k) <==> es[i].key == k);
    hide RowOf;
  }

  // ----- the order of first appearance

  lemma FirstOrderStays<K(!new)>(order: seq<K>, column: seq<Option<K>>)
    requires FirstOrder(order, column)
    ensures FirstOrder(order, column + [None])
  {
    AppearanceStays(order, column, None);
    hide AppearsBefore;
  }

  lemma FirstOrderGrows<K(!new)>(order: seq<K>, column: seq<Option<K>>, k: K)
    requires FirstOrder(order, column)
    ensures FirstOrder(AppendNew(order, k), column + [Some(k)])
  {
    if k in order {
      FirstOrderRepeats(order, column, k);
    } else {
      FirstOrderNew(order, column, k);
    }
    hide FirstOrder;
  }

  lemma FirstOrderRepeats<K(!new)>(order: seq<K>, column: seq<Option<K>>, k: K)
    requires FirstOrder(order, column) && k in order
    ensures FirstOrder(order, column + [Some(k)])
  {
    hide AppearsBefore;
    AppearanceStays(order, column, Some(k));
    SeenGrows(order, column, k);
  }

  lemma FirstOrderNew<K(!new)>(order: seq<K>, column: seq<Option<K>>, k: K)
    requires FirstOrder(order, column) && k !in order
    ensures FirstOrder(order + [k], column + [Some(k)])
  {
    hide AppearsBefore;
    AppearanceStays(order, column, Some(k));
    SeenGrows(order, column, k);
    NewDistinct(order, k);
    NewComesLast(order, column, k);
    OrderGrows(order, column + [Some(k)], k);
  }

  lemma OrderGrows<K(!new)>(order: seq<K>, column: seq<Option<K>>, k: K)
    requires forall m, n :: 0 <= m < n < |order| ==> AppearsBefore(column, order[m], order[n])
    requires forall m :: 0 <= m < |order| ==> AppearsBefore(column, order[m], k)
    ensures var more := order + [k];
            forall m, n :: 0 <= m < n < |more| ==> AppearsBefore(column, more[m], more[n])
  {
    hide AppearsBefore;
  }

  lemma SeenGrows<K(!new)>(order: seq<K>, column: seq<Option<K>>, k: K)
    requires forall x :: x in order <==> Some(x) in column
    ensures forall x :: x in AppendNew(order, k) <==> Some(x) in column + [Some(k)]
  {
    assert (column + [Some(k)])[|column|] == Some(k);
  }

  lemma NewDistinct<K(!new)>(order: seq<K>, k: K)
    requires Distinct(order) && k !in order
    ensures Distinct(order + [k])
  {}

  lemma NewComesLast<K(!new)>(order: seq<K>, column: seq<Option<K>>, k: K)
    requires k !in order && forall x :: x in order <==> Some(x) in column
    ensures forall m :: 0 <= m < |order| ==> AppearsBefore(column + [Some(k)], order[m], k)
  {
    forall m | 0 <= m < |order| ensures AppearsBefore(column + [Some(k)], order[m], k) {
      var i :| 0 <= i < |column| && column[i] == Some(order[m]);
      assert (column + [Some(k)])[..i] == column[..i];
    }
  }

  lemma AppearanceStays<K(!new)>(order: seq<K>, column: seq<Option<K>>, x: Option<K>)
    requires FirstOrder(order, column)
    ensures forall m, n :: 0 <= m < n < |order| ==> AppearsBefore(column + [x], order[m], order[n])
  {
    forall m, n | 0 <= m < n < |order| ensures AppearsBefore(column + [x], order[m], order[n]) {
      var i :| 0 <= i < |column| && column[i] == Some(order[m]) && Some(order[n]) !in column[..i];
      assert (column + [x])[..i] == column[..i];
    }
  }

  /** Registering the keys of the complete rows gives that order. */
  lemma {:induction false} TablesInOrder(rows: seq<Row>)
    ensures FirstOrder(AppendAll([], Chains(Kept(rows))), ChainColumn(rows))
    ensures FirstOrder(AppendAll([], Contracts(Kept(rows))), ContractColumn(rows))
    ensures FirstOrder(AppendAll([], KeysOf(EntriesOf(Kept(rows)))), KeyColumn(rows))
  {
    if rows != [] {
      var init, row := rows[..|rows| - 1], rows[|rows| - 1];
      TablesInOrder(init);
      EntryMeans(row);
      OneMoreColumns(rows);
      ColumnsGrow(rows);
      hide FirstOrder, Complete, EntryOf, Kept, AppendAll, Chains, Contracts, KeysOf, EntriesOf, ChainColumn, ContractColumn,
           KeyColumn, AppendNew;
      if Complete(row) {
        FirstOrderGrows(AppendAll([], Chains(Kept(init))), ChainColumn(init), row.chain);
        FirstOrderGrows(AppendAll([], Contracts(Kept(init))), ContractColumn(init), (row.chain, row.contractAddress));
        FirstOrderGrows(AppendAll([], KeysOf(EntriesOf(Kept(init)))), KeyColumn(init),
                        (row.chain, row.contractAddress, row.tokenId));
      } else {
        FirstOrderStays(AppendAll([], Chains(Kept(init))), ChainColumn(init));
        FirstOrderStays(AppendAll([], Contracts(Kept(init))), ContractColumn(init));
        FirstOrderStays(AppendAll([], KeysOf(EntriesOf(Kept(init)))), KeyColumn(init));
      }
    }
  }

  lemma ColumnsGrow(rows: seq<Row>)
    requires rows != []
    ensures var init, row := rows[..|rows| - 1], rows[|rows| - 1];
            && ChainColumn(rows) == ChainColumn(init) + [if Complete(row) then Some(row.chain) else None]
            && ContractColumn(rows) == ContractColumn(init) + [if Complete(row) then Some((row.chain, row.contractAddress)) else None]
            && KeyColumn(rows)
               == KeyColumn(init) + [if Complete(row) then Some((row.chain, row.contractAddress, row.tokenId)) else None]
  {
    hide Complete;
  }

  lemma OneMoreColumns(rows: seq<Row>)
    requires rows != []
    ensures var init, row := rows[..|rows| - 1], rows[|rows| - 1];
            var c, n, k := Chains(Kept(init)), Contracts(Kept(init)), KeysOf(EntriesOf(Kept(init)));
            if Skipped(row) then
              Chains(Kept(rows)) == c && Contracts(Kept(rows)) == n && KeysOf(EntriesOf(Kept(rows))) == k
            else
              && AppendAll([], Chains(Kept(rows))) == AppendNew(AppendAll([], c), row.chain)
              && AppendAll([], Contracts(Kept(rows))) == AppendNew(AppendAll([], n), (row.chain, row.contractAddress))
              && AppendAll([], KeysOf(EntriesOf(Kept(rows)))) == AppendNew(AppendAll([], k), EntryOf(row).key)
  {
    var init, row := rows[..|rows| - 1], rows[|rows| - 1];
    OneMoreKept(rows);
    hide EntryOf;
    if Skipped(row) {
      assert Kept(rows) == Kept(init);
    } else {
      assert Kept(rows) == Kept(init) + [row];
      OneMoreRow(EMPTY, Kept(init), row);
      hide Skipped, AppendNew, Chains, Contracts, EntriesOf, Kept;
      OneMoreKey(EntriesOf(Kept(init)), EntryOf(row));
    }
  }

  lemma OneMoreKey(es: seq<Entry>, e: Entry)
    ensures AppendAll([], KeysOf(es + [e])) == AppendNew(AppendAll([], KeysOf(es)), e.key)
  {
    assert (es + [e])[..|es|] == es;
    assert KeysOf(es + [e]) == KeysOf(es) + [e.key];
    assert (KeysOf(es) + [e.key])[..|es|] == KeysOf(es);
  }

  // ----- the load

  lemma GatherOnRows(rows: seq<Row>, k: NftKey)
    ensures var g := Gather(None, EntriesOf(Kept(rows)), k);
            && (g.Err? <==> KeyConflict(rows, k))
            && (g == Ok(None) <==> forall i :: !RowOf(rows, i, k))
            && (g.Ok? && g.value.Some? ==> ValueFrom(rows, k, g.value.value))
  {
    KeptGathers(rows, k);
    if WholeKey(k) {
      GatherMeans(EntriesOf(rows), k);
      ConflictOnRows(rows, k);
      UnseenOnRows(rows, k);
      hide Conflict, Summary, Unseen, KeyConflict, ValueFrom, Gather, EntriesOf, Kept, RowOf;
      var g := Gather(None, EntriesOf(rows), k);
      if g.Ok? && g.value.Some? {
        SummaryOnRows(rows, k, g.value.value);
      }
    }
  }

  lemma UnseenOnRows(rows: seq<Row>, k: NftKey)
    requires WholeKey(k)
    ensures Unseen(EntriesOf(rows), k) <==> forall i :: !RowOf(rows, i, k)
  {
    SightingsAreRows(rows, k);
    hide EntriesOf, RowOf, EntryOf;
    assert Unseen(EntriesOf(rows), k) <==> forall i :: !SightingOf(EntriesOf(rows), i, k);
  }

  lemma ValuesOnRows(rows: seq<Row>, t: NftTable)
    requires GathersTo(NO_NFTS, EntriesOf(Kept(rows)), t)
    ensures !RowsConflict(rows)
    ensures forall k :: k in t.values <==> exists i :: RowOf(rows, i, k)
    ensures forall k :: k in t.values ==> ValueFrom(rows, k, t.values[k])
  {
    hide Gather, ValueFrom, KeyConflict, EntriesOf, Kept, RowOf;
    forall k
      ensures !KeyConflict(rows, k)
      ensures k in t.values <==> exists i :: RowOf(rows, i, k)
      ensures k in t.values ==> ValueFrom(rows, k, t.values[k])
    {
      GatherOnRows(rows, k);
      assert Gather(NO_NFTS.Get(k), EntriesOf(Kept(rows)), k) == Ok(t.Get(k));
    }
  }

  /** A load fails exactly when two complete rows give one NFT different URIs. Otherwise it
      holds the chains, contracts and NFTs of the complete rows in order of appearance, and
      each NFT has the place of its first row, its first name and its URIs. */
  lemma IngestMeans(rows: seq<Row>)
    ensures if IngestAll(EMPTY, rows).Ok? then RowsLoaded(rows, IngestAll(EMPTY, rows).value) else RowsConflict(rows)
  {
    var es := EntriesOf(Kept(rows));
    IngestByTable(EMPTY, rows);
    PutAllGathers(NO_NFTS, es);
    TablesInOrder(rows);
    hide IngestAll, Gather, GathersTo, FirstOrder, ValueFrom, EntriesOf, Kept, RowOf, PutAll, AppendAll, KeyConflict;
    if PutAll(NO_NFTS, es).Ok? {
      ValuesOnRows(rows, PutAll(NO_NFTS, es).value);
    } else {
      var k :| Gather(NO_NFTS.Get(k), es, k).Err?;
      GatherOnRows(rows, k);
    }
  }
}
