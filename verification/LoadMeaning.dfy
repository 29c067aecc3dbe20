/** What the tables of a loaded store say about the rows. */
module LoadMeaning {
  import opened Wrappers
  import opened Catalog
  import opened CatalogMeaning
  import opened StoreTables

  /** The ids of the tables fit, and index the tables they belong to. */
  ghost predicate IdsFit(t: Tables) {
    && (forall i :: 0 <= i < |t.contracts| ==> t.contracts[i].chainId < |t.chains|)
    && (forall i :: 0 <= i < |t.nfts| ==>
          && t.nfts[i].contractId < |t.contracts|
          && (t.nfts[i].nameId.Some? ==> t.nfts[i].nameId.value < |t.strings|)
          && (t.nfts[i].tokenUriId.Some? ==> t.nfts[i].tokenUriId.value < |t.strings|)
          && (t.nfts[i].imageUriId.Some? ==> t.nfts[i].imageUriId.value < |t.strings|))
  }

  ghost function Read(t: Tables, id: Option<nat>): Option<string>
    requires id.Some? ==> id.value < |t.strings|
  {
    match id
    case None => None
    case Some(n) => Some(t.strings[n])
  }

  ghost function ContractKeys(t: Tables): seq<(string, string)>
    requires IdsFit(t)
  {
    seq(|t.contracts|, i requires 0 <= i < |t.contracts| => (t.chains[t.contracts[i].chainId], t.contracts[i].address))
  }

  ghost function NftKeys(t: Tables): seq<NftKey>
    requires IdsFit(t)
  {
    seq(|t.nfts|, i requires 0 <= i < |t.nfts| =>
      var c := t.contracts[t.nfts[i].contractId]; (t.chains[c.chainId], c.address, t.nfts[i].tokenId))
  }

  /** The tables hold the chains, contracts and NFTs of the complete rows, in order of first
      appearance; each NFT has the place of its first row, its first name and its URIs. */
  ghost predicate TablesFrom(rows: seq<Row>, t: Tables) {
    && IdsFit(t)
    && FirstOrder(t.chains, ChainColumn(rows))
    && FirstOrder(ContractKeys(t), ContractColumn(rows))
    && FirstOrder(NftKeys(t), KeyColumn(rows))
    && forall i :: 0 <= i < |t.nfts| ==> NftFrom(rows, t, i)
  }

  ghost predicate NftFrom(rows: seq<Row>, t: Tables, i: nat)
    requires IdsFit(t) && i < |t.nfts|
  {
    && NameFrom(rows, NftKeys(t)[i], Read(t, t.nfts[i].nameId))
    && TokenUriFrom(rows, NftKeys(t)[i], Read(t, t.nfts[i].tokenUriId))
    && ImageUriFrom(rows, NftKeys(t)[i], Read(t, t.nfts[i].imageUriId))
    && OrderFrom(rows, NftKeys(t)[i], t.nfts[i].order)
  }

  /** The tables of a catalog that the rows load are those of the rows. */
  lemma TablesMean(rows: seq<Row>, t: Tables, c: Catalog)
    requires Represents(t, c) && RowsLoaded(rows, c)
    ensures TablesFrom(rows, t)
  {
    hide Represents, RowsLoaded, NftFrom;
    RepresentedIds(t, c);
    RepresentedKeys(t, c);
    LoadedOrders(rows, c);
    forall i | 0 <= i < |t.nfts| ensures NftFrom(rows, t, i) {
      NftMeans(rows, t, c, i);
    }
  }

  lemma LoadedOrders(rows: seq<Row>, c: Catalog)
    requires RowsLoaded(rows, c)
    ensures FirstOrder(c.chains, ChainColumn(rows)) && FirstOrder(c.contracts, ContractColumn(rows))
    ensures FirstOrder(c.nfts.order, KeyColumn(rows))
  {}

  lemma NftMeans(rows: seq<Row>, t: Tables, c: Catalog, i: nat)
    requires Represents(t, c) && RowsLoaded(rows, c) && IdsFit(t) && i < |t.nfts|
    ensures NftFrom(rows, t, i)
  {
    hide Represents, FirstOrder, NameFrom, TokenUriFrom, ImageUriFrom, OrderFrom, RowOf, RowsConflict, IdsFit;
    RepresentedIds(t, c);
    RepresentedKeys(t, c);
    assert c.nfts.order[i] in c.nfts.order;
    RepresentedValue(t, c, i);
  }

  lemma RepresentedIds(t: Tables, c: Catalog)
    requires Represents(t, c)
    ensures IdsFit(t) && t.chains == c.chains && c.nfts.Valid() && |t.nfts| == |c.nfts.order|
  {}

  lemma RepresentedKeys(t: Tables, c: Catalog)
    requires Represents(t, c) && IdsFit(t)
    ensures ContractKeys(t) == c.contracts && NftKeys(t) == c.nfts.order
  {}

  lemma RepresentedValue(t: Tables, c: Catalog, i: nat)
    requires Represents(t, c) && IdsFit(t) && i < |t.nfts| && |t.nfts| == |c.nfts.order| && c.nfts.order[i] in c.nfts.values
    ensures c.nfts.values[c.nfts.order[i]]
            == Value(Read(t, t.nfts[i].nameId), Read(t, t.nfts[i].tokenUriId), Read(t, t.nfts[i].imageUriId), t.nfts[i].order)
  {}
}
