/** The interned, indexed tables of `EntityStore`, what they represent, and what each kind
    of update does to that. */
module StoreTables {
  import opened Wrappers
  import opened Catalog

  datatype Contract = Contract(id: nat, chainId: nat, address: string, nftCount: nat)

  datatype Nft = Nft(id: nat, contractId: nat, tokenId: string, nameId: Option<nat>,
                     tokenUriId: Option<nat>, imageUriId: Option<nat>, order: SourceOrder)

  datatype ChainTotals = ChainTotals(contracts: nat, nfts: nat)

  /** A snapshot of the store's fields. */
  datatype Tables = Tables(
    chains: seq<string>,
    chainIds: map<string, nat>,
    contracts: seq<Contract>,
    contractIndex: map<(nat, string), nat>,
    nfts: seq<Nft>,
    nftIndex: map<(nat, string), nat>,
    strings: seq<string>,
    stringIds: map<string, nat>,
    totals: map<nat, ChainTotals>,
    rowsLoaded: nat)

  // ----- consistency

  /** The index is the inverse of the table. */
  ghost predicate Interned(table: seq<string>, ids: map<string, nat>) {
    && (forall i :: 0 <= i < |table| ==> table[i] in ids && ids[table[i]] == i)
    && (forall s :: s in ids ==> ids[s] < |table| && table[ids[s]] == s)
  }

  function ContractKey(c: Contract): (nat, string) {
    (c.chainId, c.address)
  }

  ghost predicate ContractsOk(t: Tables) {
    && (forall i :: 0 <= i < |t.contracts| ==>
          && t.contracts[i].id == i && t.contracts[i].chainId < |t.chains|
          && ContractKey(t.contracts[i]) in t.contractIndex
          && t.contractIndex[ContractKey(t.contracts[i])] == i)
    && (forall k :: k in t.contractIndex ==>
          t.contractIndex[k] < |t.contracts| && ContractKey(t.contracts[t.contractIndex[k]]) == k)
  }

  predicate InRange(id: Option<nat>, n: nat) {
    id.Some? ==> id.value < n
  }

  function NftIndexKey(n: Nft): (nat, string) {
    (n.contractId, n.tokenId)
  }

  ghost predicate NftsOk(t: Tables) {
    && (forall i :: 0 <= i < |t.nfts| ==>
          && t.nfts[i].id == i && t.nfts[i].contractId < |t.contracts|
          && InRange(t.nfts[i].nameId, |t.strings|) && InRange(t.nfts[i].tokenUriId, |t.strings|)
          && InRange(t.nfts[i].imageUriId, |t.strings|)
          && NftIndexKey(t.nfts[i]) in t.nftIndex && t.nftIndex[NftIndexKey(t.nfts[i])] == i)
    && (forall k :: k in t.nftIndex ==>
          t.nftIndex[k] < |t.nfts| && NftIndexKey(t.nfts[t.nftIndex[k]]) == k)
  }

  function NftsOf(nfts: seq<Nft>, c: nat): nat {
    if nfts == [] then 0
    else NftsOf(nfts[..|nfts| - 1], c) + if nfts[|nfts| - 1].contractId == c then 1 else 0
  }

  function ContractsIn(contracts: seq<Contract>, chain: nat): nat {
    if contracts == [] then 0
    else ContractsIn(contracts[..|contracts| - 1], chain)
         + if contracts[|contracts| - 1].chainId == chain then 1 else 0
  }

  /** NFTs whose contract is on `chain`. */
  function NftsIn(nfts: seq<Nft>, contracts: seq<Contract>, chain: nat): nat {
    if nfts == [] then 0
    else
      var c := nfts[|nfts| - 1].contractId;
      NftsIn(nfts[..|nfts| - 1], contracts, chain)
      + if c < |contracts| && contracts[c].chainId == chain then 1 else 0
  }

  /** The running counts agree with the tables. */
  ghost predicate CountsOk(t: Tables) {
    && (forall c :: 0 <= c < |t.contracts| ==> t.contracts[c].nftCount == NftsOf(t.nfts, c))
    && (forall c: nat :: c in t.totals <==> c < |t.chains|)
    && (forall c: nat :: c in t.totals ==>
          t.totals[c] == ChainTotals(ContractsIn(t.contracts, c), NftsIn(t.nfts, t.contracts, c)))
    && t.rowsLoaded == |t.nfts|
  }

  ghost predicate TablesOk(t: Tables) {
    Interned(t.chains, t.chainIds) && Interned(t.strings, t.stringIds)
    && ContractsOk(t) && NftsOk(t) && CountsOk(t)
  }

  // ----- meaning

  function StringAt(t: Tables, id: Option<nat>): Option<string> {
    if id.Some? && id.value < |t.strings| then Some(t.strings[id.value]) else None
  }

  ghost function KeyAt(t: Tables, n: Nft): NftKey
    requires n.contractId < |t.contracts| && t.contracts[n.contractId].chainId < |t.chains|
  {
    (t.chains[t.contracts[n.contractId].chainId], t.contracts[n.contractId].address, n.tokenId)
  }

  ghost function ValueAt(t: Tables, n: Nft): Value {
    Value(StringAt(t, n.nameId), StringAt(t, n.tokenUriId), StringAt(t, n.imageUriId), n.order)
  }

  ghost predicate ContractsMean(t: Tables, c: Catalog) {
    && |c.contracts| == |t.contracts|
    && forall i :: 0 <= i < |t.contracts| ==>
         t.contracts[i].chainId < |t.chains|
         && c.contracts[i] == (t.chains[t.contracts[i].chainId], t.contracts[i].address)
  }

  ghost predicate NftsMean(t: Tables, c: Catalog) {
    && c.nfts.Valid() && |c.nfts.order| == |t.nfts|
    && forall i :: 0 <= i < |t.nfts| ==>
         t.nfts[i].contractId < |t.contracts| && t.contracts[t.nfts[i].contractId].chainId < |t.chains|
         && c.nfts.order[i] == KeyAt(t, t.nfts[i]) && c.nfts.values[c.nfts.order[i]] == ValueAt(t, t.nfts[i])
  }

  /** The tables are consistent and stand for the catalog. */
  ghost predicate Represents(t: Tables, c: Catalog) {
    TablesOk(t) && t.chains == c.chains && ContractsMean(t, c) && NftsMean(t, c)
  }

  // ----- lookups

  lemma ChainKnown(t: Tables, c: Catalog, chain: string)
    requires Represents(t, c)
    ensures chain in t.chainIds <==> chain in c.chains
  {}

  lemma ContractKnown(t: Tables, c: Catalog, chainId: nat, address: string)
    requires Represents(t, c) && chainId < |t.chains|
    ensures (chainId, address) in t.contractIndex <==> (t.chains[chainId], address) in c.contracts
  {}

  // ----- growing the tables below the NFTs

  /** Chains, strings and contracts only grow; NFTs stay. */
  ghost predicate Extends(t: Tables, u: Tables) {
    && t.chains <= u.chains && t.strings <= u.strings
    && |t.contracts| <= |u.contracts|
    && (forall i :: 0 <= i < |t.contracts| ==>
          u.contracts[i].chainId == t.contracts[i].chainId && u.contracts[i].address == t.contracts[i].address)
    && u.nfts == t.nfts && u.nftIndex == t.nftIndex
  }

  lemma ExtendsNft(t: Tables, u: Tables, n: Nft)
    requires Extends(t, u) && n.contractId < |t.contracts| && t.contracts[n.contractId].chainId < |t.chains|
    requires InRange(n.nameId, |t.strings|) && InRange(n.tokenUriId, |t.strings|) && InRange(n.imageUriId, |t.strings|)
    ensures u.contracts[n.contractId].chainId < |u.chains|
    ensures KeyAt(u, n) == KeyAt(t, n) && ValueAt(u, n) == ValueAt(t, n)
    ensures InRange(n.nameId, |u.strings|) && InRange(n.tokenUriId, |u.strings|) && InRange(n.imageUriId, |u.strings|)
  {}

  lemma ExtendsNfts(t: Tables, u: Tables, c: Catalog, d: Catalog)
    requires Extends(t, u) && NftsOk(t) && NftsMean(t, c) && d.nfts == c.nfts
    ensures NftsOk(u) && NftsMean(u, d)
  {
    hide KeyAt, ValueAt, InRange, Extends, NftTable.Valid;
    forall i | 0 <= i < |t.nfts|
      ensures u.nfts == t.nfts && u.nftIndex == t.nftIndex && |t.contracts| <= |u.contracts|
      ensures u.contracts[t.nfts[i].contractId].chainId < |u.chains|
      ensures KeyAt(u, t.nfts[i]) == KeyAt(t, t.nfts[i]) && ValueAt(u, t.nfts[i]) == ValueAt(t, t.nfts[i])
      ensures InRange(t.nfts[i].nameId, |u.strings|) && InRange(t.nfts[i].tokenUriId, |u.strings|)
      ensures InRange(t.nfts[i].imageUriId, |u.strings|)
    {
      ExtendsSame(t, u);
      ExtendsNft(t, u, t.nfts[i]);
    }
    ExtendsSame(t, u);
  }

  lemma ExtendsSame(t: Tables, u: Tables)
    requires Extends(t, u)
    ensures u.nfts == t.nfts && u.nftIndex == t.nftIndex && |t.contracts| <= |u.contracts|
  {}

  lemma SameContracts(t: Tables, u: Tables, c: Catalog, d: Catalog)
    requires ContractsOk(t) && ContractsMean(t, c) && t.chains <= u.chains
    requires u.contracts == t.contracts && u.contractIndex == t.contractIndex && d.contracts == c.contracts
    ensures ContractsOk(u) && ContractsMean(u, d)
  {}

  lemma InternNew(table: seq<string>, ids: map<string, nat>, s: string)
    requires Interned(table, ids) && s !in ids
    ensures Interned(table + [s], ids[s := |table|])
  {}

  // ----- a new chain

  function WithChain(t: Tables, chain: string): Tables {
    t.(chains := t.chains + [chain], chainIds := t.chainIds[chain := |t.chains|],
       totals := t.totals[|t.chains| := ChainTotals(0, 0)])
  }

  lemma {:induction false} NothingOnNewChain(nfts: seq<Nft>, contracts: seq<Contract>, chain: nat)
    requires forall i :: 0 <= i < |contracts| ==> contracts[i].chainId < chain
    ensures ContractsIn(contracts, chain) == 0 && NftsIn(nfts, contracts, chain) == 0
    decreases |nfts|, |contracts|
  {
    if nfts != [] {
      NothingOnNewChain(nfts[..|nfts| - 1], contracts, chain);
    } else if contracts != [] {
      NothingOnNewChain([], contracts[..|contracts| - 1], chain);
    }
  }

  lemma AddChain(t: Tables, c: Catalog, chain: string)
    requires Represents(t, c) && chain !in t.chainIds
    ensures Represents(WithChain(t, chain), c.(chains := c.chains + [chain]))
  {
    hide NftsOf, ContractsIn, NftsIn, Interned, ContractsOk, NftsOk, ContractsMean, NftsMean, CountsOk;
    var u, d := WithChain(t, chain), c.(chains := c.chains + [chain]);
    InternNew(t.chains, t.chainIds, chain);
    SameContracts(t, u, c, d);
    ExtendsNfts(t, u, c, d);
    AddChainCounts(t, chain);
  }

  lemma AddChainCounts(t: Tables, chain: string)
    requires ContractsOk(t) && CountsOk(t)
    ensures CountsOk(WithChain(t, chain))
  {
    hide NftsOf, ContractsIn, NftsIn;
    NothingOnNewChain(t.nfts, t.contracts, |t.chains|);
  }

  // ----- a new string

  function WithString(t: Tables, s: string): Tables {
    t.(strings := t.strings + [s], stringIds := t.stringIds[s := |t.strings|])
  }

  lemma AddString(t: Tables, c: Catalog, s: string)
    requires Represents(t, c) && s !in t.stringIds
    ensures Represents(WithString(t, s), c)
  {
    var u := WithString(t, s);
    assert CountsOk(u);
    hide Interned, ContractsOk, NftsOk, ContractsMean, NftsMean, CountsOk;
    InternNew(t.strings, t.stringIds, s);
    SameContracts(t, u, c, c);
    ExtendsNfts(t, u, c, c);
  }

  // ----- a new contract

  function WithContract(t: Tables, chainId: nat, address: string): Tables
    requires chainId in t.totals
  {
    t.(contracts := t.contracts + [Contract(|t.contracts|, chainId, address, 0)],
       contractIndex := t.contractIndex[(chainId, address) := |t.contracts|],
       totals := t.totals[chainId := t.totals[chainId].(contracts := t.totals[chainId].contracts + 1)])
  }

  lemma {:induction false} NoNftsOfNewContract(nfts: seq<Nft>, c: nat)
    requires forall i :: 0 <= i < |nfts| ==> nfts[i].contractId < c
    ensures NftsOf(nfts, c) == 0
  {
    if nfts != [] {
      NoNftsOfNewContract(nfts[..|nfts| - 1], c);
    }
  }

  /** NFT counts look only at the chains of contracts that exist. */
  lemma {:induction false} NftsInSameChains(nfts: seq<Nft>, a: seq<Contract>, b: seq<Contract>, chain: nat)
    requires |a| <= |b| && forall i :: 0 <= i < |a| ==> a[i].chainId == b[i].chainId
    requires forall i :: 0 <= i < |nfts| ==> nfts[i].contractId < |a|
    ensures NftsIn(nfts, a, chain) == NftsIn(nfts, b, chain)
  {
    if nfts != [] {
      NftsInSameChains(nfts[..|nfts| - 1], a, b, chain);
    }
  }

  lemma AddContractCounts(t: Tables, chainId: nat, address: string)
    requires ContractsOk(t) && NftsOk(t) && CountsOk(t) && chainId < |t.chains|
    ensures CountsOk(WithContract(t, chainId, address))
  {
    hide NftsOf, NftsIn;
    var u := WithContract(t, chainId, address);
    NoNftsOfNewContract(t.nfts, |t.contracts|);
    forall c: nat ensures NftsIn(t.nfts, u.contracts, c) == NftsIn(t.nfts, t.contracts, c) {
      NftsInSameChains(t.nfts, t.contracts, u.contracts, c);
    }
    assert u.contracts[..|u.contracts| - 1] == t.contracts;
  }

  lemma AddContract(t: Tables, c: Catalog, chainId: nat, address: string)
    requires Represents(t, c) && chainId < |t.chains| && (chainId, address) !in t.contractIndex
    ensures chainId in t.totals
    ensures Represents(WithContract(t, chainId, address),
                       c.(contracts := c.contracts + [(t.chains[chainId], address)]))
  {
    hide Interned, ContractsOk, NftsOk, ContractsMean, NftsMean, CountsOk;
    TotalsHave(t, chainId);
    var u := WithContract(t, chainId, address);
    var d := c.(contracts := c.contracts + [(t.chains[chainId], address)]);
    AddContractCounts(t, chainId, address);
    AddContractTables(t, c, chainId, address);
    ExtendsNfts(t, u, c, d);
  }

  lemma AddContractTables(t: Tables, c: Catalog, chainId: nat, address: string)
    requires ContractsOk(t) && ContractsMean(t, c) && chainId < |t.chains| && chainId in t.totals
    requires (chainId, address) !in t.contractIndex
    ensures var u := WithContract(t, chainId, address);
            ContractsOk(u) && ContractsMean(u, c.(contracts := c.contracts + [(t.chains[chainId], address)]))
  {}

  // ----- a new NFT

  function WithNft(t: Tables, n: Nft): Tables
    requires n.contractId < |t.contracts| && t.contracts[n.contractId].chainId in t.totals
  {
    var con := t.contracts[n.contractId];
    var totals := t.totals[con.chainId];
    t.(nfts := t.nfts + [n],
       nftIndex := t.nftIndex[NftIndexKey(n) := |t.nfts|],
       contracts := t.contracts[n.contractId := con.(nftCount := con.nftCount + 1)],
       totals := t.totals[con.chainId := totals.(nfts := totals.nfts + 1)],
       rowsLoaded := t.rowsLoaded + 1)
  }

  lemma {:induction false} ContractsInSameChains(a: seq<Contract>, b: seq<Contract>, chain: nat)
    requires |a| == |b| && forall i :: 0 <= i < |a| ==> a[i].chainId == b[i].chainId
    ensures ContractsIn(a, chain) == ContractsIn(b, chain)
  {
    if a != [] {
      ContractsInSameChains(a[..|a| - 1], b[..|b| - 1], chain);
    }
  }

  lemma NftsOneMore(t: Tables, n: Nft)
    requires n.contractId < |t.contracts|
    ensures forall c: nat :: NftsOf(t.nfts + [n], c) == NftsOf(t.nfts, c) + if n.contractId == c then 1 else 0
    ensures forall c: nat :: NftsIn(t.nfts + [n], t.contracts, c)
              == NftsIn(t.nfts, t.contracts, c) + if t.contracts[n.contractId].chainId == c then 1 else 0
  {}

  lemma AddNftCounts(t: Tables, n: Nft)
    requires ContractsOk(t) && NftsOk(t) && CountsOk(t) && n.contractId < |t.contracts|
    ensures CountsOk(WithNft(t, n))
  {
    hide NftsOf, NftsIn, ContractsIn;
    var u := WithNft(t, n);
    NftsOneMore(t, n);
    forall c: nat
      ensures NftsIn(u.nfts, u.contracts, c) == NftsIn(u.nfts, t.contracts, c)
      ensures ContractsIn(u.contracts, c) == ContractsIn(t.contracts, c)
    {
      NftsInSameChains(u.nfts, t.contracts, u.contracts, c);
      ContractsInSameChains(t.contracts, u.contracts, c);
    }
  }

  /** Names, and contracts up to their counts, are the same. */
  ghost predicate SameNames(t: Tables, u: Tables) {
    && u.chains == t.chains && u.strings == t.strings && |u.contracts| == |t.contracts|
    && forall i :: 0 <= i < |t.contracts| ==>
         u.contracts[i].id == t.contracts[i].id
         && u.contracts[i].chainId == t.contracts[i].chainId && u.contracts[i].address == t.contracts[i].address
  }

  lemma SameNamesSameNft(t: Tables, u: Tables, n: Nft)
    requires SameNames(t, u) && n.contractId < |t.contracts| && t.contracts[n.contractId].chainId < |t.chains|
    ensures u.contracts[n.contractId].chainId < |u.chains|
    ensures KeyAt(u, n) == KeyAt(t, n) && ValueAt(u, n) == ValueAt(t, n)
  {}

  lemma SameNamesSameContracts(t: Tables, u: Tables, c: Catalog, d: Catalog)
    requires SameNames(t, u) && ContractsOk(t) && ContractsMean(t, c)
    requires u.contractIndex == t.contractIndex && d.contracts == c.contracts
    ensures ContractsOk(u) && ContractsMean(u, d)
  {}

  lemma NftIsNew(t: Tables, c: Catalog, n: Nft)
    requires Represents(t, c) && n.contractId < |t.contracts| && NftIndexKey(n) !in t.nftIndex
    ensures t.contracts[n.contractId].chainId < |t.chains| && KeyAt(t, n) !in c.nfts.values
  {}

  lemma AddNft(t: Tables, c: Catalog, n: Nft)
    requires Represents(t, c) && n.contractId < |t.contracts| && n.id == |t.nfts|
    requires InRange(n.nameId, |t.strings|) && InRange(n.tokenUriId, |t.strings|) && InRange(n.imageUriId, |t.strings|)
    requires NftIndexKey(n) !in t.nftIndex
    ensures t.contracts[n.contractId].chainId < |t.chains| && t.contracts[n.contractId].chainId in t.totals
    ensures Put(c.nfts, Entry(KeyAt(t, n), ValueAt(t, n))).Ok?
    ensures Represents(WithNft(t, n), c.(nfts := Put(c.nfts, Entry(KeyAt(t, n), ValueAt(t, n))).value))
  {
    NftIsNew(t, c, n);
    hide Interned, ContractsOk, NftsOk, ContractsMean, NftsMean, CountsOk, InRange;
    TotalsHave(t, t.contracts[n.contractId].chainId);
    var e := Entry(KeyAt(t, n), ValueAt(t, n));
    var u, d := WithNft(t, n), c.(nfts := Put(c.nfts, e).value);
    AddNftCounts(t, n);
    SameNamesSameContracts(t, u, c, d);
    AddNftIndexed(t, n);
    AddNftMeans(t, c, n);
  }

  lemma AddNftIndexed(t: Tables, n: Nft)
    requires NftsOk(t) && n.contractId < |t.contracts| && t.contracts[n.contractId].chainId in t.totals
    requires n.id == |t.nfts| && NftIndexKey(n) !in t.nftIndex
    requires InRange(n.nameId, |t.strings|) && InRange(n.tokenUriId, |t.strings|) && InRange(n.imageUriId, |t.strings|)
    ensures NftsOk(WithNft(t, n))
  {}

  lemma AddNftMeans(t: Tables, c: Catalog, n: Nft)
    requires NftsMean(t, c) && n.contractId < |t.contracts| && t.contracts[n.contractId].chainId in t.totals
    requires t.contracts[n.contractId].chainId < |t.chains| && KeyAt(t, n) !in c.nfts.values
    ensures NftsMean(WithNft(t, n), c.(nfts := Put(c.nfts, Entry(KeyAt(t, n), ValueAt(t, n))).value))
  {
    var u, e := WithNft(t, n), Entry(KeyAt(t, n), ValueAt(t, n));
    var r := Put(c.nfts, e).value;
    assert SameNames(t, u);
    SameNamesSameNft(t, u, n);
    PutStep(c.nfts, e);
    hide KeyAt, ValueAt, SameNames;
    forall i | 0 <= i < |t.nfts|
      ensures u.contracts[t.nfts[i].contractId].chainId < |u.chains|
      ensures KeyAt(u, t.nfts[i]) == KeyAt(t, t.nfts[i]) && ValueAt(u, t.nfts[i]) == ValueAt(t, t.nfts[i])
      ensures c.nfts.order[i] in c.nfts.values
    {
      SameNamesSameNft(t, u, t.nfts[i]);
    }
  }

  lemma TotalsHave(t: Tables, chainId: nat)
    requires CountsOk(t) && chainId < |t.chains|
    ensures chainId in t.totals
  {}

  // ----- new values for a known NFT

  function WithValues(t: Tables, i: nat, name: Option<nat>, token: Option<nat>, image: Option<nat>): Tables
    requires i < |t.nfts|
  {
    t.(nfts := t.nfts[i := t.nfts[i].(nameId := name, tokenUriId := token, imageUriId := image)])
  }

  lemma {:induction false} SameContractsSameCounts(a: seq<Nft>, b: seq<Nft>, contracts: seq<Contract>, c: nat)
    requires |a| == |b| && forall i :: 0 <= i < |a| ==> a[i].contractId == b[i].contractId
    ensures NftsOf(a, c) == NftsOf(b, c) && NftsIn(a, contracts, c) == NftsIn(b, contracts, c)
  {
    if a != [] {
      SameContractsSameCounts(a[..|a| - 1], b[..|b| - 1], contracts, c);
    }
  }

  lemma SetValues(t: Tables, c: Catalog, i: nat, name: Option<nat>, token: Option<nat>, image: Option<nat>)
    requires Represents(t, c) && i < |t.nfts|
    requires InRange(name, |t.strings|) && InRange(token, |t.strings|) && InRange(image, |t.strings|)
    ensures var u := WithValues(t, i, name, token, image);
            t.nfts[i].contractId < |t.contracts| && t.contracts[t.nfts[i].contractId].chainId < |t.chains|
            && Represents(u, c.(nfts := NftTable(c.nfts.order, c.nfts.values[KeyAt(t, t.nfts[i]) := ValueAt(u, u.nfts[i])])))
  {
    assert t.nfts[i].contractId < |t.contracts| && t.contracts[t.nfts[i].contractId].chainId < |t.chains|;
    hide Interned, ContractsOk, NftsOk, ContractsMean, NftsMean, CountsOk, InRange, KeyAt, ValueAt;
    var u := WithValues(t, i, name, token, image);
    var d := c.(nfts := NftTable(c.nfts.order, c.nfts.values[KeyAt(t, t.nfts[i]) := ValueAt(u, u.nfts[i])]));
    SameNamesSameContracts(t, u, c, d);
    SetValuesCounts(t, i, name, token, image);
    SetValuesIndexed(t, i, name, token, image);
    SetValuesMeans(t, c, i, name, token, image);
  }

  lemma SetValuesCounts(t: Tables, i: nat, name: Option<nat>, token: Option<nat>, image: Option<nat>)
    requires CountsOk(t) && i < |t.nfts|
    ensures CountsOk(WithValues(t, i, name, token, image))
  {
    hide NftsOf, NftsIn, ContractsIn;
    var u := WithValues(t, i, name, token, image);
    forall k: nat
      ensures NftsOf(u.nfts, k) == NftsOf(t.nfts, k)
      ensures NftsIn(u.nfts, u.contracts, k) == NftsIn(t.nfts, t.contracts, k)
    {
      SameContractsSameCounts(u.nfts, t.nfts, t.contracts, k);
    }
  }

  lemma SetValuesIndexed(t: Tables, i: nat, name: Option<nat>, token: Option<nat>, image: Option<nat>)
    requires NftsOk(t) && i < |t.nfts|
    requires InRange(name, |t.strings|) && InRange(token, |t.strings|) && InRange(image, |t.strings|)
    ensures NftsOk(WithValues(t, i, name, token, image))
  {}

  lemma SetValuesMeans(t: Tables, c: Catalog, i: nat, name: Option<nat>, token: Option<nat>, image: Option<nat>)
    requires NftsMean(t, c) && i < |t.nfts|
    ensures var u := WithValues(t, i, name, token, image);
            NftsMean(u, c.(nfts := NftTable(c.nfts.order, c.nfts.values[KeyAt(t, t.nfts[i]) := ValueAt(u, u.nfts[i])])))
  {
    var u := WithValues(t, i, name, token, image);
    var key := KeyAt(t, t.nfts[i]);
    assert SameNames(t, u) && KeyAt(u, u.nfts[i]) == key;
    hide KeyAt, ValueAt, SameNames;
    forall k | 0 <= k < |t.nfts|
      ensures u.contracts[t.nfts[k].contractId].chainId < |u.chains|
      ensures KeyAt(u, t.nfts[k]) == KeyAt(t, t.nfts[k]) && ValueAt(u, t.nfts[k]) == ValueAt(t, t.nfts[k])
      ensures c.nfts.order[k] in c.nfts.values && (k != i ==> c.nfts.order[k] != key)
    {
      SameNamesSameNft(t, u, t.nfts[k]);
      assert c.nfts.order[i] == key;
    }
  }
}
