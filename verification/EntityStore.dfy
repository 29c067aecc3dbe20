/** The snapshot store: `EntityStore::try_ingest_row` and `EntityStore::merge_shard`. */
module EntityStore {
  import opened Wrappers
  import opened Catalog
  import opened Text
  import opened StoreTables

  class Store {
    var chains: seq<string>
    var chainIds: map<string, nat>
    var contracts: seq<Contract>
    var contractIndex: map<(nat, string), nat>
    var nfts: seq<Nft>
    var nftIndex: map<(nat, string), nat>
    var strings: seq<string>
    var stringIds: map<string, nat>
    var totals: map<nat, ChainTotals>
    var rowsLoaded: nat
    /** What the tables stand for. */
    ghost var catalog: Catalog

    ghost function Snapshot(): Tables
      reads this
    {
      Tables(chains, chainIds, contracts, contractIndex, nfts, nftIndex, strings, stringIds, totals, rowsLoaded)
    }

    ghost predicate Valid()
      reads this
    {
      Represents(Snapshot(), catalog)
    }

    constructor ()
      ensures Valid() && catalog == EMPTY
    {
      chains, chainIds := [], map[];
      contracts, contractIndex := [], map[];
      nfts, nftIndex := [], map[];
      strings, stringIds := [], map[];
      totals, rowsLoaded := map[], 0;
      catalog := EMPTY;
      new;
      hide Represents;
      EmptyMeans();
    }

    method EnsureChain(chain: string) returns (id: nat)
      requires Valid()
      modifies this
      ensures Valid() && catalog == old(catalog).(chains := AppendNew(old(catalog.chains), chain))
      ensures id < |chains| && chains[id] == chain && old(chains) <= chains
      ensures contracts == old(contracts) && nfts == old(nfts) && nftIndex == old(nftIndex) && strings == old(strings)
    {
      hide ContractsOk, NftsOk, CountsOk, ContractsMean, NftsMean;
      ChainKnown(Snapshot(), catalog, chain);
      if chain in chainIds {
        return chainIds[chain];
      }
      AddChain(Snapshot(), catalog, chain);
      id := |chains|;
      chains := chains + [chain];
      chainIds := chainIds[chain := id];
      totals := totals[id := ChainTotals(0, 0)];
      catalog := catalog.(chains := catalog.chains + [chain]);
    }

    method InternString(value: string) returns (id: nat)
      requires Valid()
      modifies this
      ensures Valid() && catalog == old(catalog)
      ensures id < |strings| && strings[id] == value && old(strings) <= strings
      ensures chains == old(chains) && contracts == old(contracts) && nfts == old(nfts) && nftIndex == old(nftIndex)
    {
      hide ContractsOk, NftsOk, CountsOk, ContractsMean, NftsMean;
      if value in stringIds {
        return stringIds[value];
      }
      AddString(Snapshot(), catalog, value);
      id := |strings|;
      strings := strings + [value];
      stringIds := stringIds[value := id];
    }

    method EnsureContract(chainId: nat, address: string) returns (id: nat)
      requires Valid() && chainId < |chains|
      modifies this
      ensures Valid() && chains == old(chains)
      ensures catalog == old(catalog).(contracts := AppendNew(old(catalog.contracts), (chains[chainId], address)))
      ensures id < |contracts| && contracts[id].chainId == chainId && contracts[id].address == address
      ensures old(contracts) <= contracts && nfts == old(nfts) && nftIndex == old(nftIndex) && strings == old(strings)
    {
      hide NftsOk, CountsOk, ContractsMean, NftsMean, Interned;
      var key := (chainId, address);
      ContractKnown(Snapshot(), catalog, chainId, address);
      if key in contractIndex {
        return contractIndex[key];
      }
      AddContract(Snapshot(), catalog, chainId, address);
      id := |contracts|;
      catalog := catalog.(contracts := catalog.contracts + [(chains[chainId], address)]);
      contracts := contracts + [Contract(id, chainId, address, 0)];
      contractIndex := contractIndex[key := id];
      totals := totals[chainId := totals[chainId].(contracts := totals[chainId].contracts + 1)];
    }

    /** `merge_uri_value`: an empty value changes nothing, an equal one agrees. */
    method MergeUriValue(existing: Option<nat>, incoming: string) returns (r: Result<Option<nat>, ()>)
      requires Valid() && InRange(existing, |strings|)
      modifies this
      ensures Valid() && catalog == old(catalog) && old(strings) <= strings
      ensures chains == old(chains) && contracts == old(contracts) && nfts == old(nfts) && nftIndex == old(nftIndex)
      ensures var m := MergeUri(StringAt(old(Snapshot()), existing), NonEmpty(incoming));
              (r.Ok? <==> m.Ok?)
              && (r.Ok? ==> InRange(r.value, |strings|) && StringAt(Snapshot(), r.value) == m.value)
    {
      hide Represents;
      if incoming == "" {
        return Ok(existing);
      }
      if existing.Some? {
        if strings[existing.value] != incoming {
          return Err(());
        }
        return Ok(existing);
      }
      var id := InternString(incoming);
      return Ok(Some(id));
    }

    method InternNonBlank(value: string) returns (r: Option<nat>)
      requires Valid()
      modifies this
      ensures Valid() && catalog == old(catalog) && old(strings) <= strings
      ensures chains == old(chains) && contracts == old(contracts) && nfts == old(nfts) && nftIndex == old(nftIndex)
      ensures InRange(r, |strings|) && StringAt(Snapshot(), r) == NonBlank(value)
    {
      hide Represents;
      if Blank(value) {
        return None;
      }
      var id := InternString(value);
      return Some(id);
    }

    method InternNonEmpty(value: string) returns (r: Option<nat>)
      requires Valid()
      modifies this
      ensures Valid() && catalog == old(catalog) && old(strings) <= strings
      ensures chains == old(chains) && contracts == old(contracts) && nfts == old(nfts) && nftIndex == old(nftIndex)
      ensures InRange(r, |strings|) && StringAt(Snapshot(), r) == NonEmpty(value)
    {
      hide Represents;
      if value == "" {
        return None;
      }
      var id := InternString(value);
      return Some(id);
    }

    /** The ids a known NFT gets from another row of it. */
    method MergedIds(existing: Nft, row: Row)
      returns (r: Result<(Option<nat>, Option<nat>, Option<nat>), ()>)
      requires Valid() && InRange(existing.nameId, |strings|)
      requires InRange(existing.tokenUriId, |strings|) && InRange(existing.imageUriId, |strings|)
      modifies this
      ensures Valid() && catalog == old(catalog)
      ensures chains == old(chains) && contracts == old(contracts) && nfts == old(nfts) && nftIndex == old(nftIndex)
      ensures var c := Combine(ValueAt(old(Snapshot()), existing), EntryOf(row).value);
              (r.Ok? <==> c.Ok?)
              && (r.Ok? ==>
                    && InRange(r.value.0, |strings|) && InRange(r.value.1, |strings|) && InRange(r.value.2, |strings|)
                    && c.value == Value(StringAt(Snapshot(), r.value.0), StringAt(Snapshot(), r.value.1),
                                        StringAt(Snapshot(), r.value.2), existing.order))
    {
      hide Represents, StringAt, MergeUri, NonBlank, NonEmpty;
      ghost var t := Snapshot();
      MissingString(t, existing.nameId);
      var nameId := existing.nameId;
      if existing.nameId.None? {
        nameId := InternNonBlank(row.name);
      }
      ghost var t1 := Snapshot();
      StringsGrow(t, t1, existing.nameId);
      StringsGrow(t, t1, existing.tokenUriId);
      StringsGrow(t, t1, existing.imageUriId);
      var tokenUriId := MergeUriValue(existing.tokenUriId, row.tokenUri);
      if tokenUriId.Err? {
        return Err(());
      }
      ghost var t2 := Snapshot();
      StringsGrow(t1, t2, nameId);
      StringsGrow(t1, t2, existing.imageUriId);
      var imageUriId := MergeUriValue(existing.imageUriId, row.imageUri);
      if imageUriId.Err? {
        return Err(());
      }
      StringsGrow(t2, Snapshot(), nameId);
      StringsGrow(t2, Snapshot(), tokenUriId.value);
      return Ok((nameId, tokenUriId.value, imageUriId.value));
    }

    /** `merge_duplicate_nft`: the first name stands, each URI may be filled in once. */
    method MergeDuplicateNft(nftId: nat, row: Row) returns (ok: bool)
      requires Valid() && nftId < |nfts|
      requires nfts[nftId].contractId < |contracts| && contracts[nfts[nftId].contractId].chainId < |chains|
      requires KeyAt(Snapshot(), nfts[nftId]) == EntryOf(row).key
      modifies this
      ensures ok <==> Put(old(catalog.nfts), EntryOf(row)).Ok?
      ensures ok ==> Valid() && catalog == old(catalog).(nfts := Put(old(catalog.nfts), EntryOf(row)).value)
    {
      hide Represents, StringAt, Combine, Put, EntryOf, ValueAt;
      ghost var t := Snapshot();
      NftAt(t, catalog, nftId);
      PutKnown(catalog.nfts, EntryOf(row));
      var ids := MergedIds(nfts[nftId], row);
      if ids.Err? {
        return false;
      }
      assert KeyAt(Snapshot(), nfts[nftId]) == KeyAt(t, nfts[nftId]);
      ReplaceNft(Snapshot(), catalog, nftId, ids.value.0, ids.value.1, ids.value.2, EntryOf(row));
      nfts := nfts[nftId := nfts[nftId].(nameId := ids.value.0, tokenUriId := ids.value.1, imageUriId := ids.value.2)];
      catalog := catalog.(nfts := Put(catalog.nfts, EntryOf(row)).value);
      return true;
    }

    method PushNft(contractId: nat, tokenId: string, nameId: Option<nat>, tokenUriId: Option<nat>,
                   imageUriId: Option<nat>, order: SourceOrder, ghost e: Entry)
      requires Valid() && contractId < |contracts| && (contractId, tokenId) !in nftIndex
      requires InRange(nameId, |strings|) && InRange(tokenUriId, |strings|) && InRange(imageUriId, |strings|)
      requires contracts[contractId].chainId < |chains|
      requires e == Entry((chains[contracts[contractId].chainId], contracts[contractId].address, tokenId),
                          Value(StringAt(Snapshot(), nameId), StringAt(Snapshot(), tokenUriId),
                                StringAt(Snapshot(), imageUriId), order))
      modifies this
      ensures Valid() && Put(old(catalog.nfts), e).Ok?
      ensures catalog == old(catalog).(nfts := Put(old(catalog.nfts), e).value)
      ensures chains == old(chains) && strings == old(strings) && |contracts| == |old(contracts)|
      ensures forall i :: 0 <= i < |contracts| ==>
                contracts[i].chainId == old(contracts)[i].chainId && contracts[i].address == old(contracts)[i].address
    {
      hide Represents, Put, StringAt;
      var nft := Nft(|nfts|, contractId, tokenId, nameId, tokenUriId, imageUriId, order);
      assert e == Entry(KeyAt(Snapshot(), nft), ValueAt(Snapshot(), nft));
      ghost var t := Snapshot();
      AddNft(t, catalog, nft);
      catalog := catalog.(nfts := Put(catalog.nfts, e).value);
      nfts := nfts + [nft];
      nftIndex := nftIndex[(contractId, tokenId) := nft.id];
      var contract := contracts[contractId];
      contracts := contracts[contractId := contract.(nftCount := contract.nftCount + 1)];
      var total := totals[contract.chainId];
      totals := totals[contract.chainId := total.(nfts := total.nfts + 1)];
      rowsLoaded := rowsLoaded + 1;
      assert Snapshot() == WithNft(t, nft);
    }

    /** One row: its chain and contract are registered, and its NFT is added or combined
        with the earlier rows of its key; a URI conflict fails. */
    method TryIngestRow(row: Row) returns (ok: bool)
      requires Valid()
      modifies this
      ensures ok <==> AddRow(old(catalog), row).Ok?
      ensures ok ==> Valid() && AddRow(old(catalog), row) == Ok(catalog)
      ensures row.chain == "" || row.contractAddress == "" || row.tokenId == "" ==> ok && Snapshot() == old(Snapshot())
      ensures row.chain != "" && row.contractAddress != "" && row.tokenId != "" && ok ==>
                (row.chain, row.contractAddress, row.tokenId) in catalog.nfts.values
    {
      RowIsThere(catalog, row);
      hide Represents, Put, StringAt, AppendNew, NonBlank, NonEmpty;
      if Skipped(row) {
        return true;
      }
      var chainId := EnsureChain(row.chain);
      var contractId := EnsureContract(chainId, row.contractAddress);
      var key := (contractId, row.tokenId);
      if key in nftIndex {
        NftKeyAt(Snapshot(), catalog, key);
        ok := MergeDuplicateNft(nftIndex[key], row);
        return;
      }
      var tokenUriId := InternNonEmpty(row.tokenUri);
      ghost var t1 := Snapshot();
      var imageUriId := InternNonEmpty(row.imageUri);
      ghost var t2 := Snapshot();
      StringsGrow(t1, t2, tokenUriId);
      var nameId := InternNonBlank(row.name);
      StringsGrow(t2, Snapshot(), tokenUriId);
      StringsGrow(t2, Snapshot(), imageUriId);
      PushNft(contractId, row.tokenId, nameId, tokenUriId, imageUriId, row.order, EntryOf(row));
      return true;
    }

    /** `merge_shard`'s update of an NFT both stores know. */
    method MergeKnown(id: nat, nameId: Option<nat>, tokenUriId: Option<nat>, imageUriId: Option<nat>,
                      ghost e: Entry)
      returns (ok: bool)
      requires Valid() && id < |nfts|
      requires InRange(nameId, |strings|) && InRange(tokenUriId, |strings|) && InRange(imageUriId, |strings|)
      requires nfts[id].contractId < |contracts| && contracts[nfts[id].contractId].chainId < |chains|
      requires KeyAt(Snapshot(), nfts[id]) == e.key
      requires e.value == Value(StringAt(Snapshot(), nameId), StringAt(Snapshot(), tokenUriId),
                                StringAt(Snapshot(), imageUriId), e.value.order)
      modifies this
      ensures ok <==> Put(old(catalog.nfts), e).Ok?
      ensures ok ==> Valid() && catalog == old(catalog).(nfts := Put(old(catalog.nfts), e).value)
      ensures chains == old(chains) && contracts == old(contracts) && strings == old(strings)
    {
      hide Represents, StringAt, Put, MergeMappedUri, InRange, ValueAt, KeyAt;
      MergeKnownMeans(Snapshot(), catalog, id, nameId, tokenUriId, imageUriId, e);
      var existing := nfts[id];
      var name := if existing.nameId.None? then nameId else existing.nameId;
      var token := MergeMappedUri(existing.tokenUriId, tokenUriId);
      var image := MergeMappedUri(existing.imageUriId, imageUriId);
      if token.Err? || image.Err? {
        return false;
      }
      nfts := nfts[id := existing.(nameId := name, tokenUriId := token.value, imageUriId := image.value)];
      catalog := catalog.(nfts := Put(catalog.nfts, e).value);
      return true;
    }

    method MergeChains(shardChains: seq<string>) returns (chainMap: seq<nat>)
      requires Valid()
      modifies this
      ensures Valid() && catalog == old(catalog).(chains := AppendAll(old(catalog.chains), shardChains))
      ensures contracts == old(contracts) && strings == old(strings)
      ensures |chainMap| == |shardChains|
      ensures forall i :: 0 <= i < |chainMap| ==> chainMap[i] < |chains| && chains[chainMap[i]] == shardChains[i]
    {
      hide Represents;
      chainMap := [];
      while |chainMap| < |shardChains|
        invariant |chainMap| <= |shardChains| && Valid()
        invariant catalog == old(catalog).(chains := AppendAll(old(catalog.chains), shardChains[..|chainMap|]))
        invariant contracts == old(contracts) && strings == old(strings)
        invariant forall i :: 0 <= i < |chainMap| ==> chainMap[i] < |chains| && chains[chainMap[i]] == shardChains[i]
      {
        AppendAllNext(old(catalog.chains), shardChains, |chainMap|);
        var id := EnsureChain(shardChains[|chainMap|]);
        chainMap := chainMap + [id];
      }
      assert shardChains[..|chainMap|] == shardChains;
    }

    method MergeStrings(shardStrings: seq<string>) returns (stringMap: seq<nat>)
      requires Valid()
      modifies this
      ensures Valid() && catalog == old(catalog)
      ensures contracts == old(contracts) && chains == old(chains)
      ensures |stringMap| == |shardStrings|
      ensures forall i :: 0 <= i < |stringMap| ==>
                stringMap[i] < |strings| && strings[stringMap[i]] == shardStrings[i]
    {
      hide Represents;
      stringMap := [];
      while |stringMap| < |shardStrings|
        invariant |stringMap| <= |shardStrings| && Valid() && catalog == old(catalog)
        invariant contracts == old(contracts) && chains == old(chains)
        invariant forall i :: 0 <= i < |stringMap| ==>
                    stringMap[i] < |strings| && strings[stringMap[i]] == shardStrings[i]
      {
        var id := InternString(shardStrings[|stringMap|]);
        stringMap := stringMap + [id];
      }
    }

    method MergeContracts(shardContracts: seq<Contract>, ghost shard: Tables, ghost other: Catalog, chainMap: seq<nat>)
      returns (contractMap: seq<nat>)
      requires Valid() && Represents(shard, other) && shard.contracts == shardContracts
      requires |chainMap| == |shard.chains|
      requires forall i :: 0 <= i < |chainMap| ==> chainMap[i] < |chains| && chains[chainMap[i]] == shard.chains[i]
      modifies this
      ensures Valid()
      ensures catalog == old(catalog).(contracts := AppendAll(old(catalog.contracts), other.contracts))
      ensures chains == old(chains) && strings == old(strings)
      ensures |contractMap| == |shardContracts| && MapsContracts(Snapshot(), shard, contractMap)
    {
      hide Represents, MapsContracts, AppendNew, AppendAll;
      contractMap := [];
      ContractsStand(shard, other);
      AppendAllNone(old(catalog.contracts), other.contracts);
      MapsNothing(Snapshot(), shard);
      while |contractMap| < |shardContracts|
        invariant |contractMap| <= |shardContracts| && Valid() && chains == old(chains) && strings == old(strings)
        invariant catalog == old(catalog).(contracts :=
                    AppendAll(old(catalog.contracts), other.contracts[..|contractMap|]))
        invariant MapsContracts(Snapshot(), shard, contractMap)
      {
        AppendAllNext(old(catalog.contracts), other.contracts, |contractMap|);
        var contract := shardContracts[|contractMap|];
        ghost var t := Snapshot();
        var id := EnsureContract(chainMap[contract.chainId], contract.address);
        MapsGrow(t, Snapshot(), shard, contractMap, id);
        contractMap := contractMap + [id];
      }
    }

    method MergeNft(nft: Nft, stringMap: seq<nat>, contractMap: seq<nat>, ghost shard: Tables, ghost e: Entry)
      returns (ok: bool)
      requires Valid() && NftStands(shard, nft, e)
      requires MapsStrings(Snapshot(), shard, stringMap)
      requires MapsContracts(Snapshot(), shard, contractMap) && |contractMap| == |shard.contracts|
      modifies this
      ensures ok <==> Put(old(catalog.nfts), e).Ok?
      ensures ok ==> Valid() && catalog == old(catalog).(nfts := Put(old(catalog.nfts), e).value)
      ensures ok ==> MapsStrings(Snapshot(), shard, stringMap) && MapsContracts(Snapshot(), shard, contractMap)
    {
      hide Represents, Put, StringAt, InRange, KeyAt, ValueAt, MapsStrings, MapsContracts, NftStands;
      ghost var t := Snapshot();
      MappedStands(t, shard, nft, stringMap, contractMap, e);
      var contractId := contractMap[nft.contractId];
      var nameId := MapId(nft.nameId, stringMap);
      var tokenUriId := MapId(nft.tokenUriId, stringMap);
      var imageUriId := MapId(nft.imageUriId, stringMap);
      var key := (contractId, nft.tokenId);
      if key in nftIndex {
        NftKeyAt(t, catalog, key);
        KeyAtIs(t, nfts[nftIndex[key]]);
        ok := MergeKnown(nftIndex[key], nameId, tokenUriId, imageUriId, e);
      } else {
        PushNft(contractId, nft.tokenId, nameId, tokenUriId, imageUriId, nft.order, e);
        ok := true;
      }
      if ok {
        MapsKept(t, Snapshot(), shard, stringMap, contractMap);
      }
    }

    method MergeNfts(shardNfts: seq<Nft>, stringMap: seq<nat>, contractMap: seq<nat>, ghost shard: Tables,
                     ghost other: Catalog)
      returns (ok: bool)
      requires Valid() && Represents(shard, other) && shard.nfts == shardNfts
      requires MapsStrings(Snapshot(), shard, stringMap)
      requires MapsContracts(Snapshot(), shard, contractMap) && |contractMap| == |shard.contracts|
      modifies this
      ensures other.nfts.Valid()
      ensures ok <==> PutAll(old(catalog.nfts), other.nfts.Entries()).Ok?
      ensures ok ==> Valid() && catalog == old(catalog).(nfts := PutAll(old(catalog.nfts), other.nfts.Entries()).value)
    {
      hide Represents, Put, PutAll, MapsStrings, MapsContracts, NftStands;
      NftsStand(shard, other);
      ghost var es := other.nfts.Entries();
      ghost var before := catalog.nfts;
      var i := 0;
      PutAllNone(before, es);
      while i < |shardNfts|
        invariant 0 <= i <= |shardNfts| && Valid() && catalog == old(catalog).(nfts := catalog.nfts)
        invariant PutAll(before, es[..i]) == Ok(catalog.nfts)
        invariant MapsStrings(Snapshot(), shard, stringMap) && MapsContracts(Snapshot(), shard, contractMap)
      {
        PutAllNext(before, es, i);
        var merged := MergeNft(shardNfts[i], stringMap, contractMap, shard, es[i]);
        if !merged {
          PutAllFails(before, es, i + 1);
          return false;
        }
        i := i + 1;
      }
      return true;
    }

    /** `merge_shard`: chains, strings and contracts are registered first, then every NFT
        of the shard is added or combined; a URI conflict fails. */
    method MergeShard(shard: Store) returns (ok: bool)
      requires Valid() && shard.Valid() && shard != this
      modifies this
      ensures shard.catalog.nfts.Valid()
      ensures ok <==> Merge(old(catalog), shard.catalog).Ok?
      ensures ok ==> Valid() && Merge(old(catalog), shard.catalog) == Ok(catalog)
    {
      hide Represents, PutAll, AppendAll, MapsStrings, MapsContracts, NftTable.Entries;
      ghost var other, tables := shard.catalog, shard.Snapshot();
      ChainsStand(tables, other);
      var chainMap := MergeChains(shard.chains);
      var stringMap := MergeStrings(shard.strings);
      var contractMap := MergeContracts(shard.contracts, tables, other, chainMap);
      StringsMapped(Snapshot(), tables, stringMap);
      ok := MergeNfts(shard.nfts, stringMap, contractMap, tables, other);
    }
  }

  lemma RowIsThere(c: Catalog, row: Row)
    ensures row.chain != "" && row.contractAddress != "" && row.tokenId != "" && AddRow(c, row).Ok? ==>
              (row.chain, row.contractAddress, row.tokenId) in AddRow(c, row).value.nfts.values
  {}

  function MapId(id: Option<nat>, stringMap: seq<nat>): Option<nat>
    requires InRange(id, |stringMap|)
  {
    if id.Some? then Some(stringMap[id.value]) else None
  }

  ghost predicate MapsStrings(t: Tables, shard: Tables, stringMap: seq<nat>) {
    |stringMap| == |shard.strings|
    && forall i :: 0 <= i < |stringMap| ==> stringMap[i] < |t.strings| && t.strings[stringMap[i]] == shard.strings[i]
  }

  lemma StringsMapped(t: Tables, shard: Tables, stringMap: seq<nat>)
    requires |stringMap| == |shard.strings|
    requires forall i :: 0 <= i < |stringMap| ==> stringMap[i] < |t.strings| && t.strings[stringMap[i]] == shard.strings[i]
    ensures MapsStrings(t, shard, stringMap)
  {}

  /** A shard's NFT, with the entry it stands for. */
  ghost predicate NftStands(shard: Tables, n: Nft, e: Entry) {
    && n.contractId < |shard.contracts| && shard.contracts[n.contractId].chainId < |shard.chains|
    && InRange(n.nameId, |shard.strings|) && InRange(n.tokenUriId, |shard.strings|)
    && InRange(n.imageUriId, |shard.strings|)
    && e == Entry(KeyAt(shard, n), ValueAt(shard, n))
  }

  lemma NftsStand(t: Tables, c: Catalog)
    requires Represents(t, c)
    ensures c.nfts.Valid() && |c.nfts.Entries()| == |t.nfts|
    ensures forall i :: 0 <= i < |t.nfts| ==> NftStands(t, t.nfts[i], c.nfts.Entries()[i])
  {}

  lemma ChainsStand(t: Tables, c: Catalog)
    requires Represents(t, c)
    ensures t.chains == c.chains
  {}

  lemma KeyAtIs(t: Tables, n: Nft)
    requires n.contractId < |t.contracts| && t.contracts[n.contractId].chainId < |t.chains|
    ensures var c := t.contracts[n.contractId];
            KeyAt(t, n) == (t.chains[c.chainId], c.address, n.tokenId)
  {}

  lemma MappedStands(t: Tables, shard: Tables, n: Nft, stringMap: seq<nat>, contractMap: seq<nat>, e: Entry)
    requires NftStands(shard, n, e) && MapsStrings(t, shard, stringMap)
    requires MapsContracts(t, shard, contractMap) && |contractMap| == |shard.contracts|
    ensures n.contractId < |contractMap| && contractMap[n.contractId] < |t.contracts|
    ensures InRange(n.nameId, |stringMap|) && InRange(n.tokenUriId, |stringMap|) && InRange(n.imageUriId, |stringMap|)
    ensures InRange(MapId(n.nameId, stringMap), |t.strings|)
    ensures InRange(MapId(n.tokenUriId, stringMap), |t.strings|)
    ensures InRange(MapId(n.imageUriId, stringMap), |t.strings|)
    ensures var c := t.contracts[contractMap[n.contractId]];
            c.chainId < |t.chains|
            && e == Entry((t.chains[c.chainId], c.address, n.tokenId),
                          Value(StringAt(t, MapId(n.nameId, stringMap)), StringAt(t, MapId(n.tokenUriId, stringMap)),
                                StringAt(t, MapId(n.imageUriId, stringMap)), n.order))
  {}

  lemma MapsKept(t: Tables, u: Tables, shard: Tables, stringMap: seq<nat>, contractMap: seq<nat>)
    requires MapsStrings(t, shard, stringMap) && MapsContracts(t, shard, contractMap)
    requires u.chains == t.chains && u.strings == t.strings && |u.contracts| == |t.contracts|
    requires forall i :: 0 <= i < |t.contracts| ==>
               u.contracts[i].chainId == t.contracts[i].chainId && u.contracts[i].address == t.contracts[i].address
    ensures MapsStrings(u, shard, stringMap) && MapsContracts(u, shard, contractMap)
  {}

  lemma PutAllNone(t: NftTable, es: seq<Entry>)
    ensures PutAll(t, es[..0]) == Ok(t) && es[..|es|] == es
  {}

  lemma PutAllNext(t: NftTable, es: seq<Entry>, i: nat)
    requires i < |es|
    ensures PutAll(t, es[..i + 1])
            == if PutAll(t, es[..i]).Ok? then Put(PutAll(t, es[..i]).value, es[i]) else Err(())
  {
    assert es[..i + 1][..i] == es[..i];
  }

  lemma {:induction false} PutAllFails(t: NftTable, es: seq<Entry>, i: nat)
    requires i <= |es| && PutAll(t, es[..i]).Err?
    ensures PutAll(t, es).Err?
    decreases |es| - i
  {
    if i < |es| {
      PutAllNext(t, es, i);
      PutAllFails(t, es, i + 1);
    } else {
      assert es[..i] == es;
    }
  }

  lemma EmptyMeans()
    ensures Represents(Tables([], map[], [], map[], [], map[], [], map[], map[], 0), EMPTY)
  {}

  lemma AppendAllNext<K>(s: seq<K>, more: seq<K>, i: nat)
    requires i < |more|
    ensures AppendAll(s, more[..i + 1]) == AppendNew(AppendAll(s, more[..i]), more[i])
  {
    assert more[..i + 1][..i] == more[..i];
  }

  lemma AppendAllNone<K>(s: seq<K>, more: seq<K>)
    ensures AppendAll(s, more[..0]) == s && more[..|more|] == more
  {}

  /** Each shard contract so far is mapped to the one with its chain and address. */
  ghost predicate MapsContracts(t: Tables, shard: Tables, contractMap: seq<nat>) {
    |contractMap| <= |shard.contracts|
    && forall i :: 0 <= i < |contractMap| ==>
         && contractMap[i] < |t.contracts|
         && t.contracts[contractMap[i]].chainId < |t.chains|
         && shard.contracts[i].chainId < |shard.chains|
         && t.contracts[contractMap[i]].address == shard.contracts[i].address
         && t.chains[t.contracts[contractMap[i]].chainId] == shard.chains[shard.contracts[i].chainId]
  }

  lemma MapsNothing(t: Tables, shard: Tables)
    ensures MapsContracts(t, shard, [])
  {}

  lemma MapsGrow(t: Tables, u: Tables, shard: Tables, contractMap: seq<nat>, id: nat)
    requires MapsContracts(t, shard, contractMap) && |contractMap| < |shard.contracts|
    requires t.contracts <= u.contracts && t.chains == u.chains && id < |u.contracts|
    requires u.contracts[id].chainId < |u.chains|
    requires var c := shard.contracts[|contractMap|];
             c.chainId < |shard.chains| && u.contracts[id].address == c.address
             && u.chains[u.contracts[id].chainId] == shard.chains[c.chainId]
    ensures MapsContracts(u, shard, contractMap + [id])
  {}

  /** `merge_mapped_uri`: ids of one intern table agree exactly when their strings do. */
  function MergeMappedUri(existing: Option<nat>, incoming: Option<nat>): Result<Option<nat>, ()> {
    if existing.None? then Ok(incoming)
    else if incoming.None? || incoming == existing then Ok(existing)
    else Err(())
  }

  lemma MappedMeans(t: Tables, n: Nft, nameId: Option<nat>, tokenUriId: Option<nat>, imageUriId: Option<nat>, v: Value)
    requires Interned(t.strings, t.stringIds)
    requires InRange(n.nameId, |t.strings|) && InRange(n.tokenUriId, |t.strings|) && InRange(n.imageUriId, |t.strings|)
    requires InRange(nameId, |t.strings|) && InRange(tokenUriId, |t.strings|) && InRange(imageUriId, |t.strings|)
    requires v == Value(StringAt(t, nameId), StringAt(t, tokenUriId), StringAt(t, imageUriId), v.order)
    ensures var k, i := MergeMappedUri(n.tokenUriId, tokenUriId), MergeMappedUri(n.imageUriId, imageUriId);
            var name := if n.nameId.None? then nameId else n.nameId;
            (Combine(ValueAt(t, n), v).Ok? <==> k.Ok? && i.Ok?)
            && InRange(name, |t.strings|)
            && (k.Ok? && i.Ok? ==>
                  InRange(k.value, |t.strings|) && InRange(i.value, |t.strings|)
                  && Combine(ValueAt(t, n), v)
                     == Ok(Value(StringAt(t, name), StringAt(t, k.value), StringAt(t, i.value), n.order)))
  {}

  lemma PutKnown(t: NftTable, e: Entry)
    requires e.key in t.values
    ensures Put(t, e).Ok? <==> Combine(t.values[e.key], e.value).Ok?
  {}

  lemma ReplaceNft(t: Tables, c: Catalog, i: nat, name: Option<nat>, token: Option<nat>, image: Option<nat>, e: Entry)
    requires Represents(t, c) && i < |t.nfts|
    requires InRange(name, |t.strings|) && InRange(token, |t.strings|) && InRange(image, |t.strings|)
    requires t.nfts[i].contractId < |t.contracts| && t.contracts[t.nfts[i].contractId].chainId < |t.chains|
    requires KeyAt(t, t.nfts[i]) == e.key && e.key in c.nfts.values
    requires Combine(c.nfts.values[e.key], e.value)
             == Ok(Value(StringAt(t, name), StringAt(t, token), StringAt(t, image), t.nfts[i].order))
    ensures Put(c.nfts, e).Ok?
    ensures Represents(WithValues(t, i, name, token, image), c.(nfts := Put(c.nfts, e).value))
  {
    hide Represents, KeyAt, Combine;
    SetValues(t, c, i, name, token, image);
  }

  lemma MergeKnownMeans(t: Tables, c: Catalog, i: nat, nameId: Option<nat>, tokenUriId: Option<nat>,
                        imageUriId: Option<nat>, e: Entry)
    requires Represents(t, c) && i < |t.nfts|
    requires InRange(nameId, |t.strings|) && InRange(tokenUriId, |t.strings|) && InRange(imageUriId, |t.strings|)
    requires t.nfts[i].contractId < |t.contracts| && t.contracts[t.nfts[i].contractId].chainId < |t.chains|
    requires KeyAt(t, t.nfts[i]) == e.key
    requires e.value == Value(StringAt(t, nameId), StringAt(t, tokenUriId), StringAt(t, imageUriId), e.value.order)
    ensures var n := t.nfts[i];
            var k, m := MergeMappedUri(n.tokenUriId, tokenUriId), MergeMappedUri(n.imageUriId, imageUriId);
            var name := if n.nameId.None? then nameId else n.nameId;
            (Put(c.nfts, e).Ok? <==> k.Ok? && m.Ok?)
            && (k.Ok? && m.Ok? ==>
                  Represents(WithValues(t, i, name, k.value, m.value), c.(nfts := Put(c.nfts, e).value)))
  {
    NftAt(t, c, i);
    MappedMeans(t, t.nfts[i], nameId, tokenUriId, imageUriId, e.value);
    hide Represents, StringAt, Combine, Put, MergeMappedUri, InRange, KeyAt, ValueAt;
    var n := t.nfts[i];
    PutKnown(c.nfts, e);
    var k, m := MergeMappedUri(n.tokenUriId, tokenUriId), MergeMappedUri(n.imageUriId, imageUriId);
    if k.Ok? && m.Ok? {
      ReplaceNft(t, c, i, if n.nameId.None? then nameId else n.nameId, k.value, m.value, e);
    }
  }

  lemma MissingString(t: Tables, id: Option<nat>)
    requires InRange(id, |t.strings|)
    ensures StringAt(t, id).None? <==> id.None?
  {}

  lemma NftAt(t: Tables, c: Catalog, i: nat)
    requires Represents(t, c) && i < |t.nfts|
    ensures var n := t.nfts[i];
            && n.contractId < |t.contracts| && t.contracts[n.contractId].chainId < |t.chains|
            && KeyAt(t, n) in c.nfts.values && c.nfts.values[KeyAt(t, n)] == ValueAt(t, n)
            && InRange(n.nameId, |t.strings|) && InRange(n.tokenUriId, |t.strings|) && InRange(n.imageUriId, |t.strings|)
  {}

  lemma ContractsStand(t: Tables, c: Catalog)
    requires Represents(t, c)
    ensures |c.contracts| == |t.contracts|
    ensures forall i :: 0 <= i < |t.contracts| ==>
              t.contracts[i].chainId < |t.chains|
              && c.contracts[i] == (t.chains[t.contracts[i].chainId], t.contracts[i].address)
  {}

  lemma NftKeyAt(t: Tables, c: Catalog, key: (nat, string))
    requires Represents(t, c) && key in t.nftIndex
    ensures t.nftIndex[key] < |t.nfts|
    ensures var n := t.nfts[t.nftIndex[key]];
            && n.contractId == key.0 && n.tokenId == key.1
            && n.contractId < |t.contracts| && t.contracts[n.contractId].chainId < |t.chains|
  {}

  lemma StringsGrow(t: Tables, u: Tables, id: Option<nat>)
    requires t.strings <= u.strings && InRange(id, |t.strings|)
    ensures StringAt(u, id) == StringAt(t, id) && InRange(id, |u.strings|)
  {}
}
