# NFT deduplication and evidence analysis: a verified model

This project models the algorithms and protocols of an NFT deduplication and evidence
toolchain and proves what they promise. Each `.dfy` file is one module; together they cover:

- **Address graphs** (`Digraph`, `Tarjan*`, `AddressGraph`): the compressed digraph and the
  iterative, explicit-stack search for strongly connected components.
- **Radix sorting** (`Radix*`): 11-bit LSD passes, the parallel pass as an arbitrary
  interleaving of single writes, and sorts that can be cancelled between passes.
- **The snapshot store** (`Catalog*`, `StoreTables`, `EntityStore`, `ShardLoad`): interned and
  indexed shards, their merge, and the ordered tree of merges. `Catalog` is the simple form:
  ordered dictionaries filled row by row; `EntityStore.Store` refines it, and `LoadMeaning`
  reads the tables back as statements about the rows.
- **Metadata anchors** (`TokenOrder`, `Anchors`): the token id comparator, the bounded sorted
  list and the deferred sort.
- **URI duplicates** (`WordBits`, `UriSpec`, `UriPostings`, `UriTally`, `UriToken*`,
  `UriImage*`, `UriScopes`, `UriStage`): postings, groups cut into tasks, workers with bit
  masks or hash sets, and the final counts. `UriSpec.Duplicate` is the set definition.
- **The seed URI query** (`SeedUri*`, `SeedQueries`) and the **candidate registry**
  (`Registry*`), both also stated edge by edge on their fields.
- **The media sampler** (`SampleCommit`, `SampleRecovery`, `DownloadState`, `DownloadBudget`,
  `DownloadAnswers`, `DownloadSession`): the crash-recoverable commit, the recovery that can
  itself be cut short, and the coalescing, retrying download session.
- **Pair sampling** (`PairReservoir`, `PairSampler`, `PairProbes`, `UnbiasedIndex`) and the
  **layered-path search** (`PropEvents`, `LayeredPaths`).
- **The collectors** (`StagingClaims`, `StagingCycle`, `StagingRace`, `LogScan`): claims on a
  shared staging table as a transition system, what a batch does, its blacklist race, and the
  resumable descending block scan.
- **Shared**: `Sorting`, `Arithmetic`, `Text`, `Wrappers`, `NftKeys`.

Classes stand for the objects that the program updates in place; `datatype State`,
`Snapshot()` and the like give their abstract values, on which the step lemmas are stated.
Conventions: strings are character sequences; ids are natural numbers; a shift and mask is
written as division and remainder; a hash map is a `map` whose keys are visited in any order;
a thread pool's work is cut and merged as an arbitrary `cut`, `probe`, `draw` or schedule
parameter says; a library sort is `Sorting.Sort`. Clocks, network answers, disk failures,
crashes and stop requests are parameters, so every theorem holds for all of them.

Some promises turned out to be false of the code as it stands. Each has a failing input and
the exact condition under which it holds:

- *A crash never loses a published file.* It holds for the commit and its rollback, for every
  list without repetitions (`CommitSampleBundle`), and of any list exactly when no repeated item
  was installed over an old one (`CutCrashSafe`, `RecoveryOfAnyList`, `RepeatedItemLosesFile`).
  A recovery that is itself cut short may lose files: the next one restores them exactly when no
  old file has lost both its backup and its staged copy while marker and list are there
  (`RecoveryRestart`; between items `RestartBetweenItems`, `RestartLosesFile`; while the
  directory is removed `RestartDuringRemoval`, `RemovalLosesFile`, `MissingListBlocks`).
- *Main holds nothing of a blacklisted contract.* A worker's insert is clean exactly when no
  other worker blacklisted one of its contracts since the batch was cleaned (`InsertCleanWhen`),
  and main is unclean exactly when there was such a late insert or a blacklisted contract was
  never swept, which takes a sweep still due or a crash (`DirtyWhen`, `UnsweptMeansDue`;
  `RaceLeavesBlacklisted`, `CrashLeavesBlacklisted` are complete runs).
- *The event order of layered paths is transitive.* It carries over two steps exactly when they
  are not misdated (`PrecedesCarries`, `TransitiveWhen`, `PrecedesNotTransitive`), so a returned
  path is in order exactly when none of its steps is misdated against an earlier event
  (`ChainInOrderWhen`, `PathOutOfOrder`).
- *A relation's NFTs are the union of its edges.* Only if explicit NFTs belong to the contract
  where another edge means all of it (`NftsAreUnion`, `ForeignNftDropped`).

## Model

| member | source | states |
|---|---|---|
| `AddressGraph.Build` | src/analysis/crates/core/src/analysis/graph.rs:54-88 | for every event list the CSR has one vertex for each distinct address, ascending by character (of two neighbours, the smaller is a proper prefix or has the smaller character at the first difference), and an edge exactly for each distinct pair of different non-empty addresses |
| `AddressGraph.StringLeqMeans` | src/analysis/crates/core/src/analysis/graph.rs:54-66 | the comparison of addresses is the order by the first difference, a prefix first |
| `AddressGraph.ComponentsOfEvents` | src/analysis/crates/core/src/analysis/graph.rs:54-98 | the components of that graph form a decomposition into strongly connected components; they are found from the lowest vertex up |
| `Tarjan.StronglyConnectedComponents` | src/analysis/crates/core/src/analysis/graph.rs:90-98 | terminates; the components partition the vertices, two vertices share one iff each reaches the other, edges leave a component only to earlier ones, and a component found from a lower start comes before one found from a higher start |
| `Tarjan.Search.VisitIterative` | src/analysis/crates/core/src/analysis/graph.rs:142-188 | from any valid state, leaves the search valid with the start vertex done, nothing open, and only more vertices visited |
| `Tarjan.Search.Discover` | src/analysis/crates/core/src/analysis/graph.rs:133-140 | a new vertex gets the next index and low link and goes on the stack |
| `TarjanSteps.DiscoverStep` | src/analysis/crates/core/src/analysis/graph.rs:133-160 | entering an unvisited vertex keeps the whole search invariant |
| `TarjanSteps.SeenStep` | src/analysis/crates/core/src/analysis/graph.rs:150-165 | following an edge to a visited vertex keeps the invariant, whether or not the vertex is on the stack |
| `TarjanSteps.LeaveStep` | src/analysis/crates/core/src/analysis/graph.rs:168-186 | returning to the parent of a vertex that is no root keeps the invariant |
| `TarjanEmit.EmitStep` | src/analysis/crates/core/src/analysis/graph.rs:168-186 | popping a component at its root keeps the invariant: what is popped is strongly connected and closed |
| `TarjanEmit.FinishedIsScc` | src/analysis/crates/core/src/analysis/graph.rs:90-98 | a finished search has emitted exactly the strongly connected components, in reverse topological order |
| `Radix.CountingPass` | src/dedup/crates/core/src/radix.rs:25-69 | the destination is the stable arrangement of the source by one digit |
| `Radix.WriteInterleaved` | src/dedup/crates/core/src/radix.rs:98-122 | for every interleaving of the chunk writers each slot is written once, and the result does not depend on the interleaving |
| `Radix.ParallelCountingPass` | src/dedup/crates/core/src/radix.rs:71-122 | for every chunk size and schedule the parallel pass gives the array of the sequential stable pass |
| `RadixSpec.BucketedPermutes` | src/dedup/crates/core/src/radix.rs:25-46 | a pass keeps the elements |
| `RadixSpec.SlotOnto` | src/dedup/crates/core/src/radix.rs:89-122 | the slots given out by prefix sums are exactly the positions of the destination |
| `RadixSpec.SlotInjective` | src/dedup/crates/core/src/radix.rs:89-122 | no two elements get one slot, so the raw writes are disjoint |
| `RadixSpec.LsdStablyOrders` | src/dedup/crates/core/src/radix.rs:134-212 | after any number of passes the elements are permuted, ordered by the digits processed, and stable on equal digits |
| `RadixSpec.DigitsSpell` | src/dedup/crates/core/src/radix.rs:234-240 | comparing enough 11-bit digits is comparing the numbers |
| `RadixSpec.Widths` | src/dedup/crates/core/src/radix.rs:234-253 | three digits cover 32 bits and six cover 64 |
| `RadixSorts.SortByDigitsWhile` | src/dedup/crates/core/src/radix.rs:134-212 | for any thread count, and cancelled or not, the result is a permutation stably ordered by the digits of the passes that ran; it reports whether all ran |
| `RadixSorts.SortU64While` | src/dedup/crates/core/src/radix.rs:247-254 | a complete sort is ordered by value; any result is a permutation |
| `RadixSorts.SortU32PairsWhile` | src/dedup/crates/core/src/radix.rs:296-309 | a complete sort is lexicographic; any result is a permutation |
| `RadixSorts.SortU32TriplesWhile` | src/dedup/crates/core/src/radix.rs:327-344 | a complete sort is lexicographic; any result is a permutation |
| `RadixSorts.SortByU32BoolKeyWhile` | src/dedup/crates/core/src/radix.rs:256-274 | a complete sort is ordered by number then flag, and elements of one key keep their order |
| `Catalog.MergeIsIngest` | src/dedup/crates/core/src/entity.rs:452-550 | merging the loads of two row sequences is loading their concatenation, and fails exactly when that fails |
| `CatalogMeaning.IngestMeans` | src/dedup/crates/core/src/entity.rs:206-321 | a load fails iff two rows with chain, contract and token id give one NFT different non-empty token URIs or image URIs; otherwise exactly the keys of such rows are there, chains, contracts and NFTs stand in the order of their first such row, and each NFT has the first name that is not blank, the URIs and the order of its rows |
| `LoadMeaning.TablesMean` | src/dedup/crates/core/src/entity.rs:206-321 | the same read off the indexed tables: every id leads to the chain, contract, name and URIs that the rows give |
| `Text.SpacesMean` | src/dedup/crates/core/src/entity.rs:206-321 | blank means made of white space characters, listed one by one |
| `EntityStore.Store.TryIngestRow` | src/dedup/crates/core/src/entity.rs:206-321 | a row without chain, contract or token id changes nothing; any other is there afterwards, the indexed store staying consistent (interning, indexes, per-contract and per-chain counts, rows loaded) and representing one more row, or it fails exactly when the catalog does |
| `EntityStore.Store.MergeShard` | src/dedup/crates/core/src/entity.rs:452-616 | the merged store represents the merged catalogs with all ids remapped, or fails exactly when they conflict |
| `EntityStore.Store.PushNft` | src/dedup/crates/core/src/entity.rs:245-276 | a new NFT gets the next id and is indexed and counted |
| `EntityStore.MergeKnownMeans` | src/dedup/crates/core/src/entity.rs:504-550 | an NFT known to both shards gets the combined name and URIs |
| `ShardLoad.MergeShardsOrdered` | src/dedup/crates/core/src/parquet.rs:245-266 | the ordered tree of merges of the loads of any row sequences is the load of all rows in order, and fails iff that fails |
| `ShardLoad.ScanFileToShard` | src/dedup/crates/core/src/parquet.rs:208-243 | cutting a file into row-group chunks, each a shard, gives the shard of the whole file |
| `ShardLoad.LoadEntities` | src/dedup/crates/core/src/parquet.rs:101-141 | loading many files in chunks equals one sequential ingest of all rows: it fails iff two complete rows conflict, and otherwise its tables are those that the rows' fields say |
| `TokenOrder.TokenOrderTotal` | src/dedup/crates/core/src/entity.rs:654-665 | the token comparator is a total preorder on all strings, on EVM and other chains |
| `TokenOrder.TokenOrderMeans` | src/dedup/crates/core/src/entity.rs:654-674 | on EVM chains decimal ids go first and by value, all others by the first differing character; on other chains every id does |
| `TokenOrder.ValueMeans` | src/dedup/crates/core/src/entity.rs:654-674 | the value of a decimal id is the sum of its digits times their powers of ten |
| `Text.TrimMeans` | src/dedup/crates/core/src/entity.rs:654-674 | trimming leaves the text between the first and the last character that is no white space |
| `TokenOrder.DecimalsCompareAsNumbers` | src/dedup/crates/core/src/entity.rs:654-674 | decimal ids of any length, with leading zeros or blanks, compare as the integers they denote |
| `Anchors.BinarySearch` | src/dedup/crates/core/src/entity.rs:349-351 | however it probes, the search ends at an equal id or between the smaller and the greater ones |
| `Anchors.AnchorList.Insert` | src/dedup/crates/core/src/entity.rs:323-371 | the list stays in order with distinct ids within the limit; an id that was offered and is absent means the list is full and nothing kept is greater; a listed id changes nothing, and as long as no ids tie each record kept is the first of its id |
| `Anchors.AnchorList.MergeFrom` | src/dedup/crates/core/src/entity.rs:452-502 | inserting what another shard kept gives the list of everything offered to either |
| `Anchors.MergedBound` | src/dedup/crates/core/src/entity.rs:323-371 | an id the other shard gave up is bounded by the merged list as well |
| `Anchors.ListIsUnique` | src/dedup/crates/core/src/entity.rs:323-371 | as long as no two different ids tie, the list is a function of the records offered, so merged shards give the list of one insertion after the other |
| `Anchors.Displaced` | src/dedup/crates/core/src/entity.rs:358-370 | displacing the last record of a full list keeps that bound for every id ever offered |
| `Anchors.AnchorList.Finalize` | src/dedup/crates/core/src/entity.rs:135-153 | the deferred sort and dedup leaves, in order, every id offered once, with its earliest record: the ids that unbounded insertion keeps |
| `Anchors.FinalOrder` | src/dedup/crates/core/src/entity.rs:141-151 | sorting by id, text and source order and removing equal neighbours keeps exactly the first record of each id |
| `WordBits.LowestGone` | src/dedup/crates/core/src/uri.rs:443-448 | clearing the lowest set bit of a word removes its least member and no other |
| `WordBits.Members` | src/dedup/crates/core/src/uri.rs:442-448 | the loop over a mask lists exactly its members, in increasing order |
| `WordBits.SetBit` | src/dedup/crates/core/src/uri.rs:248-251 | setting a bit adds exactly one member to the set a word stands for |
| `WordBits.DenseNftSet.Insert` | src/dedup/crates/core/src/uri.rs:241-251 | packed 64-bit words refine a plain set of ids |
| `UriPostings.BuildUriPostings` | src/dedup/crates/core/src/entity.rs:618-652 | one posting for each URI and contract, in order, holding exactly the NFTs that have them |
| `UriPostings.TaskRuns` | src/dedup/crates/core/src/uri.rs:375-412 | a task works on exactly the groups that start in its chunk, each to its end |
| `UriPostings.RunsTile` | src/dedup/crates/core/src/uri.rs:356-421 | the groups follow one another without gap or overlap |
| `UriPostings.RunsJoin` | src/dedup/crates/core/src/uri.rs:356-421 | for any chunking the tasks' groups, put together, are all groups, each once |
| `UriPostings.RunHits` | src/dedup/crates/core/src/uri.rs:356-421 | the linked postings of a group bring exactly the duplicates of its URI |
| `UriPostings.AllGroups` | src/dedup/crates/core/src/uri.rs:271-344 | what all groups bring together is every duplicate of the set definition |
| `UriTally.TallyMerge` | src/dedup/crates/core/src/uri.rs:46-55 | merging the tallies of disjoint hits tallies all of them |
| `UriTally.LocalUriAccumulator.Merge` | src/dedup/crates/core/src/uri.rs:46-55 | scope by scope the contract sets are united and the rows added, for any order of the keys |
| `UriTally.Credit` | src/dedup/crates/core/src/uri.rs:24-79 | adding a group's postings to a scope extends the tally by exactly their NFTs, none twice |
| `UriTally.TalliesUnique` | src/dedup/crates/core/src/uri.rs:24-30 | two aggregates that tally the same hits are equal, so bit-mask and hash-set paths agree |
| `UriTokens.TokenWorker.AddMatrix` | src/dedup/crates/core/src/uri.rs:149-180 | mask and pair representations gain exactly the hits of a posting against its peers |
| `UriTokens.TokenWorker.Merge` | src/dedup/crates/core/src/uri.rs:182-198 | a merged worker carries the hits of both |
| `UriTokenGroups.AccumulateCompact` | src/dedup/crates/core/src/uri.rs:431-459 | reading a group by bit masks credits exactly its linked postings |
| `UriTokenGroups.AccumulateWide` | src/dedup/crates/core/src/uri.rs:461-481 | reading a group by a map of chains, in any order, credits exactly the same |
| `UriTokenGroups.AccumulateTokenScopeHits` | src/dedup/crates/core/src/uri.rs:431-481 | either way the worker gains the group's duplicates in every scope |
| `UriImages.PackTokenHits` | src/dedup/crates/core/src/uri.rs:294-321 | the packed token sets hold exactly the workers' hits |
| `UriImageGroups.AccumulateImageCompact` | src/dedup/crates/core/src/uri.rs:517-648 | by bit masks, exactly the image duplicates left over by token hits of the same scope are tallied |
| `UriImageWide.AccumulateImageWide` | src/dedup/crates/core/src/uri.rs:650-722 | by a map of chains the same hits are tallied |
| `UriImageWide.AccumulateImageScopeHits` | src/dedup/crates/core/src/uri.rs:483-498 | whichever path is taken, the tally is that of the linked postings |
| `UriScopes.LinkedByScope` | src/dedup/crates/core/src/uri.rs:586-646 | a posting is an image duplicate iff it has something open and its scope has an open mate |
| `UriScopes.SummedMeans` | src/dedup/crates/core/src/uri.rs:500-515 | a group aggregate's rows, contracts and posting count are those of the scope's open NFTs |
| `UriStage.RunUri` | src/dedup/crates/core/src/uri.rs:271-344 | for every thread count and merge tree: in every intra, cross-summary and matrix scope an NFT counts under TokenUri iff it has a token URI and an NFT of another contract that the scope reaches has the same, and under ImageUri iff that holds of its image URI and it is not counted under TokenUri; contracts and NFTs are counted, each once |
| `UriStage.CountsMean` | src/dedup/crates/core/src/uri.rs:271-344 | the counts of the set definitions are those of the NFTs' own token and image URIs |
| `UriStage.CountsAreUnique` | src/dedup/crates/core/src/uri.rs:356-421 | the counts depend on the tables alone: threads, chunks and the order of merging do not show |
| `UriStage.WithinChainTotal` | src/dedup/crates/core/src/stats.rs:54-63 | TokenUri and ImageUri NFT counts of a scope together never exceed the chain's NFTs |
| `SeedUriQuery.EmitChain` | src/analysis/crates/core/src/dedup/uri.rs:296-439 | the guards of the hot path skip a chain only when it has no edge to give |
| `SeedUriRun.IntersectTokenHitScopes` | src/analysis/crates/core/src/dedup/uri.rs:273-294 | the scopes in which every seed NFT of a query was matched by token URI |
| `SeedUriRun.TokenQueriesInChunks` | src/analysis/crates/core/src/dedup/uri.rs:99-176 | chunked queries give the edges and the fallback records of the sequential ones |
| `SeedQueries.RecordsMean` | src/analysis/crates/core/src/dedup/uri.rs:99-176 | the buffers left by the token queries say exactly which NFTs were hit and which seed NFTs matched, in each scope |
| `SeedUriMeaning.QueryUriForSeed` | src/analysis/crates/core/src/dedup/uri.rs:59-271 | an unknown seed is refused without change; otherwise the graph gains exactly the edges, from the seed to the contract and NFT hit, between their chains: a TokenUriHit where the NFT shares a token URI with the seed, an ImageUriHit where it shares an image URI with a seed NFT that the tokens of its scope left over and is no token hit there, chunked or not |
| `SeedUriMeaning.SeedEdgesMean` | src/analysis/crates/core/src/dedup/uri.rs:59-271 | no edge is pushed twice, and there is one exactly for each NFT that the set definition calls a hit |
| `SeedUriMeaning.SeedEdgesOnFields` | src/analysis/crates/core/src/dedup/uri.rs:59-271 | the set definition says, on the fields of edge and NFTs, which edges there are |
| `SeedUriMeaning.SeedEdgesUnique` | src/analysis/crates/core/src/dedup/uri.rs:97-271 | chunked and sequential runs give the same list of edges |
| `SeedUriMeaning.DimensionCandidateNfts` | src/analysis/crates/core/src/dedup/hits.rs:150-193 | the NFTs that an edge of the dimension, seed and scope leads to, a whole contract's where it names none; under ImageUriHit without those that a TokenUriHit leads to |
| `SeedUriMeaning.SubtractionIsNoOp` | src/analysis/crates/core/src/dedup/hits.rs:150-193 | on a seed's edges the image subtraction takes nothing away |
| `RegistryBuild.FromHitGraphs` | src/analysis/crates/core/src/dedup/candidates.rs:58-146 | one relation for each seed and candidate that an edge joins, by seed and then candidate, with its dimensions in the order name, token URI, image URI, metadata, its NFTs ascending, and the index of each seed's relations |
| `RegistryFields.RegistryMeans` | src/analysis/crates/core/src/dedup/candidates.rs:58-146 | what that says of every relation, on the fields of the edges |
| `RegistryBuild.RegistryIsUnique` | src/analysis/crates/core/src/dedup/candidates.rs:58-146 | the registry depends on the set of edges alone, not on their order or grouping |
| `Registry.NftsAreUnion` | src/analysis/crates/core/src/dedup/candidates.rs:76-137 | a relation's NFTs are the union of its expanded edges iff, where a whole contract is meant, the explicit NFTs belong to it |
| `Registry.ForeignNftDropped` | src/analysis/crates/core/src/dedup/candidates.rs:76-137 | edges for all of a contract and for an NFT of another: the relation drops the explicit NFT |
| `RegistryBuild.FilterCandidates` | src/analysis/crates/core/src/dedup/candidates.rs:173-204 | filtering a registry gives the registry of the filtered edges |
| `SampleCommit.Transaction.CommitSampleBundle` | src/dedup/crates/cli/src/sample_images.rs:969-1035 | for every list of items: each single step leaves every item where it can be put back, or everything published once the committed mark is written; without repetitions every step is crash safe; a completed rollback has restored everything; a list with repetitions is never committed |
| `SampleCommit.CutCrashSafe` | src/dedup/crates/cli/src/sample_images.rs:969-1068 | a disk within a commit of any list is crash safe iff no repeated item has been installed over an old one |
| `SampleCommit.Transaction.RestoreSampleBundle` | src/dedup/crates/cli/src/sample_images.rs:1037-1068 | the in-process rollback leaves every item where it can be put back at every step, and ends where the commit began |
| `SampleRecovery.RecoverSampleTransaction` | src/dedup/crates/cli/src/sample_images.rs:1108-1126 | each item is put back from its backup, left with its staged copy, or removed; every disk on the way, also where an operation fails or a directory is half removed, is midway |
| `SampleCommit.SafeRecovers` | src/dedup/crates/cli/src/sample_images.rs:1070-1126 | from any safe intermediate disk recovery restores the output exactly |
| `SampleCommit.RecoveryOfAnyList` | src/dedup/crates/cli/src/sample_images.rs:1070-1126 | for any list, recovery from such a disk restores the output iff no repeated item has a backup and no staged copy |
| `SampleRecovery.RemoveDirAll` | src/dedup/crates/cli/src/sample_images.rs:1070-1106 | the transaction directory goes entry by entry, in any order and perhaps in parts, and never touches the output |
| `SampleRecovery.RecoverSampleTransactions` | src/dedup/crates/cli/src/sample_images.rs:1070-1106 | a recovery that runs to its end is the specified one; a missing list makes it fail; cut short anywhere it leaves a midway disk, and clearing a committed bundle never changes the output |
| `SampleRecovery.SafeIsMidway` | src/dedup/crates/cli/src/sample_images.rs:969-1126 | a recovery starts midway and with no old file lost, wherever the commit was cut |
| `SampleRecovery.RecoveryRestart` | src/dedup/crates/cli/src/sample_images.rs:1070-1126 | from every midway disk the next recovery restores the output iff marker or list is gone, or every old file still has its backup or its staged copy |
| `SampleRecovery.RestartBetweenItems` | src/dedup/crates/cli/src/sample_images.rs:1108-1126 | cut between two items: iff none of the items put back so far was already installed |
| `SampleRecovery.RestartDuringRemoval` | src/dedup/crates/cli/src/sample_images.rs:1070-1106 | cut while the directory is removed: iff every old file keeps its staged copy as long as marker and list are there |
| `SampleRecovery.RestartLosesFile` | src/dedup/crates/cli/src/sample_images.rs:1108-1126 | a disk within a commit on which a second recovery deletes the file the first one restored |
| `SampleRecovery.RemovalLosesFile` | src/dedup/crates/cli/src/sample_images.rs:1070-1106 | a disk of a rolled-back commit whose staged copy goes before the marker: the next recovery deletes the old file |
| `SampleRecovery.MissingListBlocks` | src/dedup/crates/cli/src/sample_images.rs:1070-1106 | with the marker but without the list every later recovery fails and changes nothing |
| `SampleCommit.RepeatedItemLosesFile` | src/dedup/crates/cli/src/sample_images.rs:1108-1126 | a disk within the commit of a list that names one item twice, from which recovery deletes the old file |
| `DownloadState.SubmitStep` | src/dedup/crates/cli/src/sample_images.rs:355-389 | a new candidate keeps every session invariant, its two images being owed |
| `DownloadState.FinishStep` | src/dedup/crates/cli/src/sample_images.rs:505-541 | a completed job is always that of a loading URI, and its consumers are exactly those now owed an answer |
| `DownloadState.DeliverStep` | src/dedup/crates/cli/src/sample_images.rs:557-628 | delivering an image or an error settles one consumer and keeps all books |
| `DownloadState.RememberStep` | src/dedup/crates/cli/src/sample_images.rs:543-555 | the ready order stays duplicate-free, equal to the ready URIs and within capacity |
| `DownloadState.RememberMeans` | src/dedup/crates/cli/src/sample_images.rs:543-555 | the 1024 images that became ready last stay so, the one before them is forgotten, and no loading URI changes |
| `DownloadState.RetryStep` | src/dedup/crates/cli/src/sample_images.rs:507-521 | a retried job stays the one job of its URI |
| `DownloadSession.Session.RequestImage` | src/dedup/crates/cli/src/sample_images.rs:391-432 | every request joins a loading URI as its last consumer, is served an image at hand (ready or in the disk cache), or starts the URI's one job with the consumer alone; the counters say which |
| `DownloadSession.Session.SubmitCandidate` | src/dedup/crates/cli/src/sample_images.rs:355-389 | a new candidate is pending with neither image, then both its images are requested, the session staying valid; one whose directory cannot be made is refused and only counted |
| `DownloadSession.Session.SubmitDueRetries` | src/dedup/crates/cli/src/sample_images.rs:489-503 | exactly the due retries become unsent, in order of time and then of queueing |
| `DownloadSession.Session.ProcessWorkerResult` | src/dedup/crates/cli/src/sample_images.rs:505-541 | a fetched image stands in every waiting pair where it could be stored, completes and reports the pairs that lacked nothing else, and stays ready; a temporary failure of a first attempt changes nothing but that the job comes back as its second; any other failure gives up every waiting pair; no other pair changes, and the attempts left become fewer |
| `DownloadSession.AnsweredMeans` | src/dedup/crates/cli/src/sample_images.rs:505-628 | that is what finishing or retrying the job and delivering to its consumers does |
| `DownloadAnswers.AnswerMeans` | src/dedup/crates/cli/src/sample_images.rs:522-628 | delivering to all consumers of a job decides for every pending pair what its own sides waited for, and leaves the URI ready or forgotten |
| `DownloadAnswers.DeliverMore` | src/dedup/crates/cli/src/sample_images.rs:557-628 | one more delivery adds that side to the fate of its pair and leaves every other pair alone |
| `DownloadSession.Session.Poll` | src/dedup/crates/cli/src/sample_images.rs:678-685 | for any worker answers no candidate is ever reported twice, and the answers taken in are bounded by the attempts left; if workers are prompt, as many turns as attempts left end with nothing outstanding and every candidate reported |
| `DownloadSession.Session.TakeTurn` | src/dedup/crates/cli/src/sample_images.rs:434-503 | an answer costs an attempt, and a turn with room takes one in as long as something is outstanding and no retry has to wait |
| `DownloadBudget.BudgetMeans` | src/dedup/crates/cli/src/sample_images.rs:489-541 | no attempt is left iff nothing is outstanding, and there are at most two for each job |
| `DownloadBudget.RetryBudget` | src/dedup/crates/cli/src/sample_images.rs:507-521 | a retry costs one attempt |
| `DownloadBudget.FinishBudget` | src/dedup/crates/cli/src/sample_images.rs:522-541 | a job that ends takes with it what it had left |
| `DownloadSession.Attempt` | src/dedup/crates/cli/src/sample_images.rs:719-762 | a fetched image is answered under the job's own URI, a temporary failure is tried once more, after its delay, and anything else has no image |
| `DownloadSession.IdleMeansDone` | src/dedup/crates/cli/src/sample_images.rs:457-541 | when no job is queued, in flight or delayed, every submitted candidate has exactly one report |
| `DownloadSession.NotComplete` | src/dedup/crates/cli/src/sample_images.rs:557-628 | a pending pair lacks a side whose URI has its one job outstanding |
| `DownloadSession.Session.RetainCandidates` | src/dedup/crates/cli/src/sample_images.rs:687-711 | keeps exactly the selected pairs, in their order, and succeeds iff all of them are staged |
| `DownloadSession.RetainedAll` | src/dedup/crates/cli/src/sample_images.rs:701-709 | comparing the two counts is enough to know that all selected candidates are there |
| `PairReservoir.SmallestIsUnique` | src/dedup/crates/core/src/sampling.rs:513-533 | what a reservoir keeps depends on the pairs seen alone |
| `PairReservoir.SmallestOfSmallest` | src/dedup/crates/core/src/sampling.rs:535-539 | the smallest of two samples' smallest are the smallest of all |
| `PairSampler.ObserveIn` | src/dedup/crates/core/src/sampling.rs:514-533 | heap and retained set agree and stay the capacity-smallest distinct pairs |
| `PairSampler.MergeInto` | src/dedup/crates/core/src/sampling.rs:535-539 | merging reservoirs gives the reservoir of the union |
| `PairSampler.PairSampler.Observe` | src/dedup/crates/core/src/sampling.rs:168-210 | the smaller id goes left; the pair reaches the reservoir of every scope it belongs to and no other |
| `PairSampler.PairSampler.Merge` | src/dedup/crates/core/src/sampling.rs:300-311 | merging worker samplers, of any capacity, is one sampler over the union |
| `PairSampler.SamplesAgree` | src/dedup/crates/core/src/sampling.rs:168-210 | samplers of the same pairs, in any order, keep the same pairs in every scope |
| `PairSampler.SampledMeans` | src/dedup/crates/core/src/sampling.rs:168-210 | a scope keeps pairs seen that belong to it, as many as there are or the capacity allows, and none left out has a lower score than one kept, or the same score and lower contracts |
| `PairSampler.PairSampler.ValidMeans` | src/dedup/crates/core/src/sampling.rs:168-210 | so it is for every sampler at any time |
| `PairProbes.ProbeClique` | src/dedup/crates/core/src/sampling.rs:458-479 | observes exactly the pairs of the group when they fit the room left, and otherwise exactly the pairs of the probes, six for each place and twelve at least |
| `PairProbes.ProbeCross` | src/dedup/crates/core/src/sampling.rs:481-502 | the same between two groups, with four probes for each place and eight at least |
| `UnbiasedIndex.MinimumIsRemainder` | src/dedup/crates/core/src/sampling.rs:31-42 | the rejection bound equals 2^64 mod len |
| `UnbiasedIndex.Unbiased` | src/dedup/crates/core/src/sampling.rs:31-42 | each index has exactly the same number of accepted 64-bit values |
| `UnbiasedIndex.BiasedWithoutRejection` | src/dedup/crates/core/src/sampling.rs:31-42 | without rejection the low indexes would have one value more |
| `UnbiasedIndex.IndexU64` | src/dedup/crates/core/src/sampling.rs:31-42 | the index is the remainder of the first accepted value |
| `UnbiasedIndex.ShiftIsBijection` | src/dedup/crates/core/src/sampling.rs:289-296 | stepping over the first index is a bijection onto the pairs of distinct indexes |
| `PropEvents.BuildOutgoing` | src/analysis/crates/core/src/analysis/behavior.rs:628-655 | each list holds exactly the events that leave a token and address, once, and in order: by block, then time, those without one first, then by place in the evidence, a transfer before a sale |
| `PropEvents.PrecedesNotTransitive` | src/analysis/crates/core/src/analysis/behavior.rs:816-825 | three events that precede one another in turn while the first does not precede the last |
| `PropEvents.PrecedesCarries` | src/analysis/crates/core/src/analysis/behavior.rs:816-825 | if one event precedes a second and that a third, the first precedes the third iff they are not misdated: the middle one lacks the block by which the others compare, or has one where an outer one has none and the times do not rise |
| `PropEvents.TransitiveWhen` | src/analysis/crates/core/src/analysis/behavior.rs:816-825 | the order of an evidence is transitive iff it holds no misdated steps |
| `PropEvents.TransitiveIfAlike` | src/analysis/crates/core/src/analysis/behavior.rs:816-825 | so it is when all events have blocks, or none has |
| `LayeredPaths.PathSearch.Search` | src/analysis/crates/core/src/analysis/behavior.rs:711-757 | terminates; finds the first completion of the path so far, or leaves it unchanged when there is none |
| `LayeredPaths.CompletesMeans` | src/analysis/crates/core/src/analysis/behavior.rs:711-757 | the completions the search walks through are exactly the chains of events visiting enough distinct addresses |
| `LayeredPaths.WantedMeans` | src/analysis/crates/core/src/analysis/behavior.rs:701-768 | a wanted path, on the fields of the events: each leaves where the one before arrived, none returns to an address, and there are enough of them |
| `LayeredPaths.FirstMeans` | src/analysis/crates/core/src/analysis/behavior.rs:701-768 | a path is first in list order iff at the first event where another wanted path differs it takes the one that stands before, or it is the other's beginning |
| `LayeredPaths.ChainInOrderWhen` | src/analysis/crates/core/src/analysis/behavior.rs:711-757 | every event of a layered chain precedes every later one iff no step is misdated against an earlier event |
| `LayeredPaths.PathOutOfOrder` | src/analysis/crates/core/src/analysis/behavior.rs:711-757 | a path that the search accepts although its last event lies before its first |
| `LayeredPaths.LayeredEventPathFrom` | src/analysis/crates/core/src/analysis/behavior.rs:701-768 | a path is returned iff a chain of same-token events exists; it is such a chain and the first in list order; zero addresses need no event |
| `LayeredPaths.FirstIsUnique` | src/analysis/crates/core/src/analysis/behavior.rs:701-768 | there is only one first path |
| `LayeredPaths.FindLayeredPaths` | src/analysis/crates/core/src/analysis/behavior.rs:628-699 | one instance for each malicious start that has a path, showing the transactions and addresses of its first path; no two are alike, so the duplicate check never fires |
| `StagingClaims.ProcessBatch` | src/fetch/evm/metadata_fetcher.py:145-223 | the contracts whose metadata hold an inline image, and the keys with a usable token URI of all other contracts |
| `StagingClaims.FetchPhase` | src/fetch/evm/metadata_fetcher.py:145-223 | that outcome is where the fetch step of the transition system takes any worker with this batch |
| `StagingClaims.LosslessStep` | src/fetch/evm/metadata_fetcher.py:261-376 | every step of any worker keeps: each row ever staged is staged, in main, refused or of a blacklisted contract |
| `StagingClaims.ClaimInvStep` | src/fetch/evm/common.py:339-385 | every step keeps: a batch's claims stand unless they ran out, and shared rows mean an expired earlier claim |
| `StagingClaims.DeletedMeansSettled` | src/fetch/evm/common.py:460-470 | in every run a staging row is gone only if its key is in main, its record was refused or its contract is blacklisted |
| `StagingClaims.SharedMeansExpired` | src/fetch/evm/common.py:339-385 | in every run two batches share a row only if the earlier claim had expired before the later one |
| `StagingClaims.OthersKeepClaims` | src/fetch/evm/common.py:473-489 | a release never clears another worker's claim |
| `StagingCycle.ClaimAllowed` | src/fetch/evm/common.py:339-385 | a batch may be claimed iff its rows are staged and unclaimed or their claims ran out |
| `StagingCycle.ClaimEffect` | src/fetch/evm/common.py:339-385 | the claim stands on the rows of the batch, and no other row changes |
| `StagingCycle.NoRowIsStuck` | src/fetch/evm/common.py:339-385 | whoever claimed a row, an idle worker may claim it in the end |
| `StagingCycle.ReleaseEffect` | src/fetch/evm/common.py:473-489 | a worker that fails or stops gives back exactly the rows that are still its own |
| `StagingCycle.StageEffect` | src/fetch/evm/common.py:299-318 | a key is staged once, unclaimed |
| `StagingCycle.FetchEffect` | src/fetch/evm/metadata_fetcher.py:145-223 | fetching changes nothing but what the worker knows: its contracts with inline images and the keys to insert |
| `StagingCycle.CleanEffect` | src/fetch/evm/metadata_fetcher.py:305-345 | rows and records of blacklisted contracts go, the others are left for the end |
| `StagingCycle.SweepEffect` | src/fetch/evm/metadata_fetcher.py:305-345 | the contracts just blacklisted go from main and, but for spared rows, from staging |
| `StagingCycle.CycleEffect` | src/fetch/evm/metadata_fetcher.py:261-376 | a batch from fetch to deletion: its inline contracts are blacklisted and purged, its kept records are in main, its rows are gone and the worker is idle again |
| `StagingRace.InsertCleanWhen` | src/fetch/evm/metadata_fetcher.py:305-345 | in every run the records a worker inserts are clean iff since it cleaned its batch no worker appended one of their contracts to the blacklist |
| `StagingRace.DirtyWhen` | src/fetch/evm/metadata_fetcher.py:261-376 | in every run from a clean main, main holds a record of a blacklisted contract iff some record was inserted late and not swept since, or its contract was blacklisted and never swept |
| `StagingRace.UnsweptMeansDue` | src/fetch/evm/metadata_fetcher.py:305-345 | a contract blacklisted and not swept since means that a worker that appended it still has its sweep before it, or has ended |
| `StagingRace.RaceLeavesBlacklisted` | src/fetch/evm/metadata_fetcher.py:305-345 | a complete run of two workers from an empty staging table that ends in a dirty insert |
| `StagingRace.CrashLeavesBlacklisted` | src/fetch/evm/metadata_fetcher.py:305-345 | a complete run in which a worker dies between appending to the blacklist and sweeping, and main stays unclean |
| `LogScan.Scanner.NextRange` | src/fetch/evm/log_scanner.py:144-151 | the next range below, within the batch size and the lower bound |
| `LogScan.DescendingTiles` | src/fetch/evm/log_scanner.py:144-151 | the ranges of a run are disjoint, descending and leave no block out |
| `LogScan.Scanner.ExtractRecords` | src/fetch/evm/log_scanner.py:153-168 | exactly the new keys of contracts that are not blacklisted, each once |
| `LogScan.Drain` | src/fetch/evm/log_scanner.py:205-219 | at every stop or crash, all blocks above the last range done are extracted and inserted, and nothing else but perhaps one range more; without a crash every range queued is done |
| `LogScan.Scan` | src/fetch/evm/log_scanner.py:118-226 | a run queues contiguous ranges from where the last one ended, none after it is told to stop; the ranges done are the first ones queued, all of them unless it crashes, and the checkpoint is the lower end of the last; every key from there up is in the tables or of a contract on its blacklist, and it adds no other; a run that finishes has reached the lower bound, and one that is never stopped and never crashes finishes |
| `LogScan.Scans` | src/fetch/evm/log_scanner.py:118-226 | over any runs, stops and crashes every key from the checkpoint up to the first top was staged at some time or is of a contract on the blacklist of one of the runs, no other key was, and the checkpoint only moves down |

## Left out

- Integer limits: ids stay below the 16- and 32-bit limits and counters do not saturate, so the overflow errors of the store are not modelled.
- EntityStore.Store.TryIngestRow: does not hand the row's metadata on; `Anchors` models the list of one contract apart from the store, and JSON validation and canonical form are not part of this model.
- EntityStore.Store.MergeShard: does not merge the metadata anchors; `Anchors.AnchorList.MergeFrom` does that for one contract.
- `ShardLoad.LoadEntities`: rows come decoded and filtered; the errors for no input files, bad schemas and requested chains that are absent are left out.
- `EntityStore.Store`: dropping chains (`retain_chains`) and the memory release helpers are left out.
- `UriPostings.TaskRuns`: a task first lists its groups and then works on them, where the original does both in one loop; cancellation of the stage, which discards its result, is left out.
- `UriStage.RunUri`: the summary accumulator that takes the counts over, and its check against counting a dimension twice, are left out.
- `UriImageGroups.AccumulateImageCompact`: the flat matrix buffer is a sequence of rows, so its index arithmetic is not modelled.
- `UriImageWide.AccumulateImageWide`: the `any` tests on other chains are answered from the filtered counts, which decide the same.
- `SeedUriMeaning.QueryUriForSeed`: the score of an edge, always 1.0 here, progress and cancellation are left out.
- `DownloadSession.Session.SubmitCandidate`: whether the candidate's directory can be made is a parameter, and it is taken not to be for an id submitted before; the original removes the directory of a failed candidate, so it would take that id in again and report it a second time. The sampler never reuses ids.
- `DownloadSession.Session.RequestImage`: an unreadable disk cache ends the session; what the session does after it is not modelled.
- `DownloadSession.Session.Poll`: cancellation (an interrupted job ends the session), the waiting between turns and a disconnected queue are left out.
- `SampleCommit.Transaction.CommitSampleBundle`: moving a file or a directory tree and writing a marker are single steps; syncing to disk and the encoding of the item list are left out.
- `SampleRecovery.RecoverSampleTransaction`: its promise for interrupted runs is for lists without repetitions; `RecoveryOfAnyList` has the others.
- `SampleRecovery.RecoverSampleTransactions`: one transaction directory; the walk over several of them is left out.
- `PairProbes.ProbeClique`: the room left to a group is a parameter, and the order in which groups are probed and scopes topped up is left out; the hash is an arbitrary function.
- `UnbiasedIndex.IndexU64`: that some retry is accepted depends on the hash and is required.
- `PairSampler.PairSampler`: a reservoir is a value that the sampler replaces in its maps, so aliasing of reservoirs is not captured; the heap is a sequence whose largest entry is found by a scan.
- `LayeredPaths.FindLayeredPaths`: low-value hop counts, prices and the order of the starts are left out; address normalisation is part of the `malicious` parameter.
- `StagingClaims.ProcessBatch`: decoding of inline images and expansion of the `{id}` placeholder happen before and after it; an exhausted fetch looks like a missing token URI, which the filter refuses.
- `StagingClaims.LosslessStep`: every database transaction is one atomic step; addresses are in lower case; a restarted worker has a new worker id.
- `LogScan.Scan`: a fetch is taken to return the logs of its range; the original moves on with an empty list when a fetch fails, and then the blocks of that range are lost. Block bounds are fixed and the batch size is positive.
- Tarjan-based detectors: wash cycles, stars and the evidence sums built on the components are left out, as are name and metadata matching, report formats, Parquet, HTTP and SQL encodings.
