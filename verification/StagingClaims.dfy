/** Metadata workers share a staging table: they claim rows, insert what is valid into the
    main table and delete what is done. Every database transaction is one step. */
module StagingClaims {
  import opened Wrappers
  import opened NftKeys

  type Worker = nat
  type Time = nat

  datatype Claim = Claim(worker: Worker, at: Time)

  datatype StagingRow = StagingRow(key: NftKey, claim: Option<Claim>)

  datatype PendingRow = PendingRow(id: nat, key: NftKey)

  /** What a fetch found for a row. */
  datatype Metadata = Metadata(tokenUri: string, image: Option<string>)

  /** Where a worker is in its loop. */
  datatype Phase =
    | Idle
    | Claimed(pending: seq<PendingRow>, at: Time)
    | Processed(pending: seq<PendingRow>, at: Time, inserts: seq<NftKey>, inlined: set<string>)
    | Listed(pending: seq<PendingRow>, at: Time, inserts: seq<NftKey>, inlined: set<string>)
    | Cleaned(pending: seq<PendingRow>, at: Time, inserts: seq<NftKey>, inlined: set<string>, rest: set<nat>)
    | Swept(pending: seq<PendingRow>, at: Time, inserts: seq<NftKey>, rest: set<nat>)
    | Inserted(pending: seq<PendingRow>, at: Time, rest: set<nat>)
    | Gone

  /** The tables, the blacklist file, the clock and the workers. Remembered beside them are
      every row ever staged and every row the filters rejected. */
  datatype State = State(
    reclaimAfter: nat,
    staging: map<nat, StagingRow>,
    main: set<NftKey>,
    blacklist: set<string>,
    now: Time,
    nextId: nat,
    workers: map<Worker, Phase>,
    rows: map<nat, NftKey>,
    rejected: set<nat>)

  /** Nothing staged and nobody at work; main and the blacklist may hold anything. */
  ghost predicate Initial(s: State) {
    s.staging == map[] && s.workers == map[] && s.rows == map[] && s.rejected == {} && s.nextId == 0
  }

  // ----- the batch filters

  predicate StartsWith(s: string, prefix: string) {
    |prefix| <= |s| && s[..|prefix|] == prefix
  }

  predicate InvalidUri(uri: string) {
    uri == "" || StartsWith(uri, "api.tierlock.com/uri/")
  }

  /** Contracts with an inline image. */
  ghost function Inlined(pending: seq<PendingRow>, found: seq<Metadata>): set<string>
    requires |found| == |pending|
  {
    set i | 0 <= i < |pending| && found[i].image.Some? && StartsWith(found[i].image.value, "data:image") :: pending[i].key.contract
  }

  function Inserts(pending: seq<PendingRow>, found: seq<Metadata>, inlined: set<string>, k: nat): seq<NftKey>
    requires |found| == |pending| && k <= |pending|
  {
    if k == 0 then []
    else
      Inserts(pending, found, inlined, k - 1) +
      if pending[k - 1].key.contract in inlined || InvalidUri(found[k - 1].tokenUri) then [] else [pending[k - 1].key]
  }

  lemma {:induction false} InsertsMean(pending: seq<PendingRow>, found: seq<Metadata>, inlined: set<string>, k: nat)
    requires |found| == |pending| && k <= |pending|
    ensures forall key :: key in Inserts(pending, found, inlined, k) <==>
              exists i :: 0 <= i < k && pending[i].key == key && key.contract !in inlined && !InvalidUri(found[i].tokenUri)
  {
    hide InvalidUri;
    if k > 0 {
      InsertsMean(pending, found, inlined, k - 1);
    }
  }

  /** The image is written into the metadata itself. */
  ghost predicate InlineImage(m: Metadata) {
    m.image.Some? && |m.image.value| >= 10 && m.image.value[..10] == "data:image"
  }

  /** There is no token URI, or one of a service that never answers. */
  ghost predicate NoUri(uri: string) {
    uri == "" || (|uri| >= 21 && uri[..21] == "api.tierlock.com/uri/")
  }

  lemma BatchMeans(pending: seq<PendingRow>, found: seq<Metadata>, inlined: set<string>)
    requires |found| == |pending| && inlined == Inlined(pending, found)
    ensures forall c :: c in inlined <==> exists i :: 0 <= i < |pending| && pending[i].key.contract == c && InlineImage(found[i])
    ensures forall key :: key in Inserts(pending, found, inlined, |pending|) <==>
              exists i :: 0 <= i < |pending| && pending[i].key == key && key.contract !in inlined && !NoUri(found[i].tokenUri)
  {
    InsertsMean(pending, found, inlined, |pending|);
    forall i | 0 <= i < |pending|
      ensures InlineImage(found[i]) <==> found[i].image.Some? && StartsWith(found[i].image.value, "data:image")
      ensures NoUri(found[i].tokenUri) <==> InvalidUri(found[i].tokenUri)
    {
    }
    hide InlineImage, NoUri, StartsWith, InvalidUri, Inserts;
  }

  /** `_process_batch`: the valid records, and the contracts to blacklist. */
  method ProcessBatch(pending: seq<PendingRow>, found: seq<Metadata>)
    returns (inserts: seq<NftKey>, allIds: seq<nat>, inlined: set<string>)
    requires |found| == |pending|
    ensures inlined == Inlined(pending, found) && inserts == Inserts(pending, found, inlined, |pending|)
    ensures allIds == seq(|pending|, i requires 0 <= i < |pending| => pending[i].id)
    ensures forall c :: c in inlined <==> exists i :: 0 <= i < |pending| && pending[i].key.contract == c && InlineImage(found[i])
    ensures forall key :: key in inserts <==>
              exists i :: 0 <= i < |pending| && pending[i].key == key && key.contract !in inlined && !NoUri(found[i].tokenUri)
  {
    BatchMeans(pending, found, Inlined(pending, found));
    hide InvalidUri, StartsWith, NoUri, InlineImage;
    allIds := seq(|pending|, i requires 0 <= i < |pending| => pending[i].id);
    inlined := {};
    for i := 0 to |pending|
      invariant inlined == set j | 0 <= j < i && found[j].image.Some? && StartsWith(found[j].image.value, "data:image") :: pending[j].key.contract
    {
      if found[i].image.Some? && StartsWith(found[i].image.value, "data:image") {
        inlined := inlined + {pending[i].key.contract};
      }
    }
    inserts := [];
    for i: nat := 0 to |pending|
      invariant inserts == Inserts(pending, found, inlined, i)
    {
      if pending[i].key.contract in inlined || InvalidUri(found[i].tokenUri) {
        continue;
      }
      inserts := inserts + [pending[i].key];
    }
  }

  // ----- the table operations

  /** `batch_insert_temp`: a key that is already staged is left alone. */
  function Stage(s: State, key: NftKey): State {
    if exists id :: id in s.staging && s.staging[id].key == key then s
    else s.(staging := s.staging[s.nextId := StagingRow(key, None)], nextId := s.nextId + 1, rows := s.rows[s.nextId := key])
  }

  /** A row may be claimed if nobody holds it or its claim is too old. */
  predicate Claimable(s: State, id: nat) {
    id in s.staging &&
    (s.staging[id].claim.None? || s.staging[id].claim.value.at + s.reclaimAfter < s.now)
  }

  predicate AllClaimable(s: State, ids: seq<nat>) {
    forall i :: 0 <= i < |ids| ==> Claimable(s, ids[i])
  }

  /** `claim_pending_nfts`, on the rows that were not locked by others. */
  function ClaimRows(s: State, w: Worker, ids: seq<nat>): State
    requires AllClaimable(s, ids)
  {
    var pending := seq(|ids|, i requires 0 <= i < |ids| => assert Claimable(s, ids[i]); PendingRow(ids[i], s.staging[ids[i]].key));
    s.(staging := (map id | id in s.staging ::
                     if id in ids then s.staging[id].(claim := Some(Claim(w, s.now))) else s.staging[id]),
       workers := s.workers[w := Claimed(pending, s.now)])
  }

  /** `release_temp_claims`: only rows still claimed by this worker. */
  function Release(staging: map<nat, StagingRow>, ids: set<nat>, w: Worker): map<nat, StagingRow> {
    map id | id in staging ::
      if id in ids && staging[id].claim.Some? && staging[id].claim.value.worker == w then staging[id].(claim := None)
      else staging[id]
  }

  function Ids(pending: seq<PendingRow>): set<nat> {
    set p | p in pending :: p.id
  }

  predicate Holding(p: Phase) {
    !p.Idle? && !p.Gone?
  }

  /** The rows of a batch that the filters refuse. */
  ghost function Refused(pending: seq<PendingRow>, found: seq<Metadata>): set<nat>
    requires |found| == |pending|
  {
    set i | 0 <= i < |pending| && InvalidUri(found[i].tokenUri) :: pending[i].id
  }

  // ----- the steps

  datatype Step =
    | Tick(seconds: nat)
    | StageKey(key: NftKey)
    | Start(w: Worker)
    | ClaimBatch(w: Worker, ids: seq<nat>)
    | Fetch(w: Worker, found: seq<Metadata>)
    | Fail(w: Worker)
    | AppendBlacklist(w: Worker)
    | DeleteBlacklisted(w: Worker)
    | Sweep(w: Worker, spared: set<nat>)
    | InsertMain(w: Worker)
    | DeleteRest(w: Worker)
    | Exit(w: Worker)
    | Crash(w: Worker)

  ghost predicate Enabled(s: State, step: Step) {
    match step
    case Tick(_) => true
    case StageKey(_) => true
    case Start(w) => w !in s.workers
    case ClaimBatch(w, ids) => w in s.workers && s.workers[w].Idle? && AllClaimable(s, ids)
    case Fetch(w, found) => w in s.workers && s.workers[w].Claimed? && |found| == |s.workers[w].pending|
    case Fail(w) => w in s.workers && s.workers[w].Claimed?
    case AppendBlacklist(w) => w in s.workers && s.workers[w].Processed?
    case DeleteBlacklisted(w) => w in s.workers && s.workers[w].Listed?
    case Sweep(w, _) => w in s.workers && s.workers[w].Cleaned?
    case InsertMain(w) => w in s.workers && s.workers[w].Swept?
    case DeleteRest(w) => w in s.workers && s.workers[w].Inserted?
    case Exit(w) => w in s.workers && !s.workers[w].Gone?
    case Crash(w) => w in s.workers && !s.workers[w].Gone?
  }

  /** The effect of a step. The blacklist is read when a worker cleans its batch. */
  ghost function Apply(s: State, step: Step): State
    requires Enabled(s, step)
  {
    match step
    case Tick(seconds) => s.(now := s.now + seconds)
    case StageKey(key) => Stage(s, key)
    case Start(w) => s.(workers := s.workers[w := Idle])
    case ClaimBatch(w, ids) => ClaimRows(s, w, ids)
    case Fetch(w, found) => Fetched(s, w, found)
    case Fail(w) => s.(staging := Release(s.staging, Ids(s.workers[w].pending), w), workers := s.workers[w := Idle])
    case AppendBlacklist(w) =>
      var p := s.workers[w];
      s.(blacklist := s.blacklist + p.inlined, workers := s.workers[w := Listed(p.pending, p.at, p.inserts, p.inlined)])
    case DeleteBlacklisted(w) => BatchCleaned(s, w)
    case Sweep(w, spared) => ContractsSwept(s, w, spared)
    case InsertMain(w) =>
      var p := s.workers[w];
      s.(main := s.main + (set k | k in p.inserts), workers := s.workers[w := Inserted(p.pending, p.at, p.rest)])
    case DeleteRest(w) => s.(staging := s.staging - s.workers[w].rest, workers := s.workers[w := Idle])
    case Exit(w) =>
      var ids := if Holding(s.workers[w]) then Ids(s.workers[w].pending) else {};
      s.(staging := Release(s.staging, ids, w), workers := s.workers[w := Gone])
    case Crash(w) => s.(workers := s.workers[w := Gone])
  }

  ghost function Fetched(s: State, w: Worker, found: seq<Metadata>): State
    requires w in s.workers && s.workers[w].Claimed? && |found| == |s.workers[w].pending|
  {
    var p := s.workers[w];
    var inlined := Inlined(p.pending, found);
    s.(workers := s.workers[w := Processed(p.pending, p.at, Inserts(p.pending, found, inlined, |p.pending|), inlined)],
       rejected := s.rejected + Refused(p.pending, found))
  }

  /** What the filters make of a fetch is where its step takes any worker with that batch. */
  method FetchPhase(pending: seq<PendingRow>, at: Time, found: seq<Metadata>) returns (phase: Phase)
    requires |found| == |pending|
    ensures forall s, w :: Enabled(s, Fetch(w, found)) && s.workers[w] == Claimed(pending, at) ==>
              Apply(s, Fetch(w, found)).workers[w] == phase
  {
    var inserts, _, inlined := ProcessBatch(pending, found);
    phase := Processed(pending, at, inserts, inlined);
  }

  /** The first half of `_cleanup_blacklisted_pending`, with the blacklist as it now is. */
  ghost function BatchCleaned(s: State, w: Worker): State
    requires w in s.workers && s.workers[w].Listed?
  {
    var p := s.workers[w];
    var effective := s.blacklist + p.inlined;
    var doomed := set r | r in p.pending && r.key.contract in effective :: r.id;
    var rest := set r | r in p.pending && r.key.contract !in effective :: r.id;
    s.(staging := s.staging - doomed,
       workers := s.workers[w := Cleaned(p.pending, p.at, Kept(p.inserts, effective), p.inlined, rest)])
  }

  function Kept(inserts: seq<NftKey>, effective: set<string>): (r: seq<NftKey>)
    ensures forall k :: k in r <==> k in inserts && k.contract !in effective
  {
    if inserts == [] then []
    else
      var rest := Kept(inserts[..|inserts| - 1], effective);
      var last := inserts[|inserts| - 1];
      if last.contract in effective then rest else rest + [last]
  }

  /** `delete_contract_nfts`: rows locked by others, and those named, are spared. */
  ghost function ContractsSwept(s: State, w: Worker, spared: set<nat>): State
    requires w in s.workers && s.workers[w].Cleaned?
  {
    var p := s.workers[w];
    var swept := set id | id in s.staging && s.staging[id].key.contract in p.inlined && id !in spared;
    s.(main := (set k | k in s.main && k.contract !in p.inlined),
       staging := s.staging - swept,
       workers := s.workers[w := Swept(p.pending, p.at, p.inserts, p.rest)])
  }

  // ----- invariants

  /** Every row ever staged is still staged, or its key reached main, or the filters refused
      it, or its contract is blacklisted. A key leaves main only with its contract. */
  ghost predicate Settled(s: State, id: nat)
    requires id in s.rows
  {
    s.rows[id] in s.main || id in s.rejected || s.rows[id].contract in s.blacklist
  }

  ghost predicate NothingLost(s: State) {
    forall id :: id in s.rows ==> id in s.staging || Settled(s, id)
  }

  ghost predicate RowsOk(s: State) {
    && (forall id :: id in s.staging ==> id in s.rows && s.rows[id] == s.staging[id].key)
    && (forall id :: id in s.rows ==> id < s.nextId)
  }

  ghost predicate PendingOk(s: State, pending: seq<PendingRow>) {
    forall r :: r in pending ==> r.id in s.rows && s.rows[r.id] == r.key
  }

  /** What a worker knows of its batch is true. */
  ghost predicate PhaseOk(s: State, p: Phase) {
    && (Holding(p) ==> PendingOk(s, p.pending))
    && match p
       case Idle => true
       case Gone => true
       case Claimed(_, _) => true
       case Processed(pending, _, inserts, inlined) =>
         forall r :: r in pending ==> r.key in inserts || r.id in s.rejected || r.key.contract in inlined
       case Listed(pending, _, inserts, inlined) =>
         && inlined <= s.blacklist
         && forall r :: r in pending ==> r.key in inserts || r.id in s.rejected || r.key.contract in inlined
       case Cleaned(_, _, inserts, inlined, rest) => inlined <= s.blacklist && RestOk(s, inserts, rest)
       case Swept(_, _, inserts, rest) => RestOk(s, inserts, rest)
       case Inserted(_, _, rest) => forall id :: id in rest ==> id in s.rows && Settled(s, id)
  }

  /** The rows a worker is about to delete are those it inserts, or were refused. */
  ghost predicate RestOk(s: State, inserts: seq<NftKey>, rest: set<nat>) {
    forall id :: id in rest ==> id in s.rows && (s.rows[id] in inserts || id in s.rejected || s.rows[id].contract in s.blacklist)
  }

  ghost predicate WorkersOk(s: State) {
    forall w :: w in s.workers ==> PhaseOk(s, s.workers[w])
  }

  /** A worker's batch claims a row still: the claim stands, or has run out, or the row is gone. */
  ghost predicate ClaimStands(s: State, w: Worker, id: nat)
    requires w in s.workers && Holding(s.workers[w])
  {
    || id !in s.staging
    || s.staging[id].claim == Some(Claim(w, s.workers[w].at))
    || s.workers[w].at + s.reclaimAfter < s.now
  }

  ghost predicate Holds(s: State, w: Worker, id: nat) {
    w in s.workers && Holding(s.workers[w]) && id in Ids(s.workers[w].pending)
  }

  ghost predicate ClaimsOk(s: State) {
    && (forall w, id: nat :: Holds(s, w, id) ==> ClaimStands(s, w, id) && s.workers[w].at <= s.now && id < s.nextId)
    && (forall id :: id in s.staging && s.staging[id].claim.Some? ==> s.staging[id].claim.value.at <= s.now)
  }

  /** Two batches that share a row: when the later one claimed it, the earlier claim had run out. */
  ghost predicate Exclusive(s: State) {
    forall v, w, id: nat :: v != w && Holds(s, v, id) && Holds(s, w, id) ==>
      || s.workers[v].at + s.reclaimAfter < s.workers[w].at
      || s.workers[w].at + s.reclaimAfter < s.workers[v].at
  }

  ghost predicate Inv(s: State) {
    NothingLost(s) && RowsOk(s) && WorkersOk(s) && ClaimsOk(s) && Exclusive(s)
  }

  // ----- every step keeps them

  /** Nothing that workers rely on goes away. */
  ghost predicate Grows(s: State, u: State) {
    && (forall id :: id in s.rows ==> id in u.rows && u.rows[id] == s.rows[id])
    && s.rejected <= u.rejected && s.blacklist <= u.blacklist
    && (forall k :: k in s.main ==> k in u.main || k.contract in u.blacklist)
  }

  lemma PhaseGrows(s: State, u: State, p: Phase)
    requires PhaseOk(s, p) && Grows(s, u)
    ensures PhaseOk(u, p)
  {
    if Holding(p) {
      forall r | r in p.pending ensures r.id in u.rows && u.rows[r.id] == r.key {
        assert r.id in s.rows;
      }
    }
  }

  /** A step of one worker, or of none, keeps the others' knowledge true. */
  lemma OthersKnow(s: State, u: State, w: Worker)
    requires WorkersOk(s) && Grows(s, u)
    requires forall v :: v in u.workers && v != w ==> v in s.workers && u.workers[v] == s.workers[v]
    requires w in u.workers ==> PhaseOk(u, u.workers[w])
    ensures WorkersOk(u)
  {
    hide PhaseOk, Grows;
    forall v | v in u.workers ensures PhaseOk(u, u.workers[v]) {
      if v != w {
        PhaseGrows(s, u, s.workers[v]);
      }
    }
  }

  ghost predicate Lossless(s: State) {
    NothingLost(s) && RowsOk(s) && WorkersOk(s)
  }

  lemma StageKeeps(s: State, key: NftKey)
    requires Lossless(s)
    ensures Lossless(Stage(s, key))
  {
    hide PhaseOk;
    var u := Stage(s, key);
    forall w | w in u.workers ensures PhaseOk(u, u.workers[w]) {
      PhaseGrows(s, u, s.workers[w]);
    }
  }

  /** A step that leaves the rows and main alone and only changes claims and one worker. */
  lemma ClaimsChange(s: State, u: State, w: Worker)
    requires Lossless(s) && u.rows == s.rows && u.main == s.main && u.nextId == s.nextId
    requires s.rejected <= u.rejected && s.blacklist <= u.blacklist
    requires u.staging.Keys == s.staging.Keys && forall id :: id in s.staging ==> u.staging[id].key == s.staging[id].key
    requires forall v :: v in u.workers && v != w ==> v in s.workers && u.workers[v] == s.workers[v]
    requires w in u.workers ==> PhaseOk(u, u.workers[w])
    ensures Lossless(u)
  {
    hide PhaseOk;
    OthersKnow(s, u, w);
  }

  lemma ClaimKeeps(s: State, w: Worker, ids: seq<nat>)
    requires Lossless(s) && Enabled(s, ClaimBatch(w, ids))
    ensures Lossless(ClaimRows(s, w, ids))
  {
    var u := ClaimRows(s, w, ids);
    forall r | r in u.workers[w].pending ensures r.id in s.rows && s.rows[r.id] == r.key {
      var i :| 0 <= i < |ids| && r == PendingRow(ids[i], s.staging[ids[i]].key);
      assert Claimable(s, ids[i]);
    }
    hide PhaseOk, WorkersOk;
    assert PhaseOk(u, u.workers[w]) by {
      PendingKnown(u, u.workers[w].pending, s.now);
    }
    ClaimsChange(s, u, w);
  }

  lemma PendingKnown(u: State, pending: seq<PendingRow>, at: Time)
    requires PendingOk(u, pending)
    ensures PhaseOk(u, Claimed(pending, at))
  {}

  lemma FetchKeeps(s: State, w: Worker, found: seq<Metadata>)
    requires Lossless(s) && Enabled(s, Fetch(w, found))
    ensures Lossless(Apply(s, Fetch(w, found)))
  {
    var p := s.workers[w];
    var u := Fetched(s, w, found);
    var inlined := Inlined(p.pending, found);
    InsertsMean(p.pending, found, inlined, |p.pending|);
    hide Inserts, Inlined, InvalidUri;
    forall r | r in p.pending
      ensures r.key in Inserts(p.pending, found, inlined, |p.pending|) || r.id in u.rejected || r.key.contract in inlined
    {
      var i :| 0 <= i < |p.pending| && p.pending[i] == r;
    }
    assert PhaseOk(u, u.workers[w]);
    hide PhaseOk, WorkersOk;
    ClaimsChange(s, u, w);
  }

  lemma CleanKeeps(s: State, w: Worker)
    requires Lossless(s) && Enabled(s, DeleteBlacklisted(w))
    ensures Lossless(Apply(s, DeleteBlacklisted(w)))
  {
    var p := s.workers[w];
    var u := BatchCleaned(s, w);
    assert PhaseOk(s, p);
    assert PhaseOk(u, u.workers[w]);
    hide PhaseOk;
    OthersKnow(s, u, w);
  }

  lemma SweepKeeps(s: State, w: Worker, spared: set<nat>)
    requires Lossless(s) && Enabled(s, Sweep(w, spared))
    ensures Lossless(Apply(s, Sweep(w, spared)))
  {
    var p := s.workers[w];
    var u := ContractsSwept(s, w, spared);
    assert PhaseOk(s, p);
    assert PhaseOk(u, u.workers[w]);
    hide PhaseOk;
    OthersKnow(s, u, w);
  }

  lemma InsertKeeps(s: State, w: Worker)
    requires Lossless(s) && Enabled(s, InsertMain(w))
    ensures Lossless(Apply(s, InsertMain(w)))
  {
    var u := Apply(s, InsertMain(w));
    assert PhaseOk(s, s.workers[w]);
    assert PhaseOk(u, u.workers[w]);
    hide PhaseOk;
    OthersKnow(s, u, w);
  }

  lemma DeleteKeeps(s: State, w: Worker)
    requires Lossless(s) && Enabled(s, DeleteRest(w))
    ensures Lossless(Apply(s, DeleteRest(w)))
  {
    var u := Apply(s, DeleteRest(w));
    assert PhaseOk(s, s.workers[w]);
    hide PhaseOk;
    assert PhaseOk(u, Idle) by {
      IdleKnows(u);
    }
    OthersKnow(s, u, w);
  }

  lemma IdleKnows(u: State)
    ensures PhaseOk(u, Idle) && PhaseOk(u, Gone)
  {}

  lemma ListKeeps(s: State, w: Worker)
    requires Lossless(s) && Enabled(s, AppendBlacklist(w))
    ensures Lossless(Apply(s, AppendBlacklist(w)))
  {
    var u := Apply(s, AppendBlacklist(w));
    assert PhaseOk(s, s.workers[w]);
    assert PhaseOk(u, u.workers[w]);
    hide PhaseOk, WorkersOk;
    ClaimsChange(s, u, w);
  }

  lemma TickKeeps(s: State, u: State)
    requires Lossless(s) && u == s.(now := u.now)
    ensures Lossless(u)
  {
    forall w | w in u.workers ensures PhaseOk(u, u.workers[w]) {
      PhaseGrows(s, u, s.workers[w]);
    }
  }

  lemma LosslessStep(s: State, step: Step)
    requires Lossless(s) && Enabled(s, step)
    ensures Lossless(Apply(s, step))
  {
    match step
    case Tick(_) => TickKeeps(s, Apply(s, step));
    case StageKey(key) => StageKeeps(s, key);
    case Start(w) => IdleKnows(Apply(s, step)); ClaimsChange(s, Apply(s, step), w);
    case ClaimBatch(w, ids) => ClaimKeeps(s, w, ids);
    case Fetch(w, found) => FetchKeeps(s, w, found);
    case Fail(w) => IdleKnows(Apply(s, step)); ClaimsChange(s, Apply(s, step), w);
    case AppendBlacklist(w) => ListKeeps(s, w);
    case DeleteBlacklisted(w) => CleanKeeps(s, w);
    case Sweep(w, spared) => SweepKeeps(s, w, spared);
    case InsertMain(w) => InsertKeeps(s, w);
    case DeleteRest(w) => DeleteKeeps(s, w);
    case Exit(w) => IdleKnows(Apply(s, step)); ClaimsChange(s, Apply(s, step), w);
    case Crash(w) => IdleKnows(Apply(s, step)); ClaimsChange(s, Apply(s, step), w);
  }

  // ----- claims

  ghost predicate ClaimInv(s: State) {
    ClaimsOk(s) && Exclusive(s) && RowsOk(s)
  }

  /** Claims stand as long as rows are only released by their holder, deleted, or claimed
      anew after they ran out. */
  lemma ClaimsStand(s: State, u: State, w: Worker)
    requires ClaimInv(s) && RowsOk(u) && u.reclaimAfter == s.reclaimAfter && s.now <= u.now && s.nextId <= u.nextId
    requires forall v :: v != w ==> (v in u.workers <==> v in s.workers) && (v in s.workers ==> u.workers[v] == s.workers[v])
    requires w in u.workers && Holding(u.workers[w]) ==>
               w in s.workers && Holding(s.workers[w]) && u.workers[w].pending == s.workers[w].pending && u.workers[w].at == s.workers[w].at
    requires forall id :: id in u.staging && id in s.staging && u.staging[id].claim != s.staging[id].claim ==>
               && u.staging[id].claim.None? && s.staging[id].claim.Some? && s.staging[id].claim.value.worker == w
               && !(w in u.workers && Holding(u.workers[w]))
    requires forall id :: id in u.staging && id !in s.staging ==> id >= s.nextId && u.staging[id].claim.None?
    ensures ClaimInv(u)
  {
    hide RowsOk, Ids;
    forall v, id: nat | Holds(u, v, id) ensures Holds(s, v, id) && ClaimStands(u, v, id) {
      assert ClaimStands(s, v, id);
    }
  }

  lemma ClaimInvClaim(s: State, w: Worker, ids: seq<nat>)
    requires ClaimInv(s) && Enabled(s, ClaimBatch(w, ids))
    ensures ClaimInv(ClaimRows(s, w, ids))
  {
    var u := ClaimRows(s, w, ids);
    forall id: nat ensures Holds(u, w, id) <==> id in ids {
      ClaimedIds(s, w, ids, id);
    }
    forall i | 0 <= i < |ids| ensures Claimable(s, ids[i]) {
    }
    assert forall id :: id in ids ==> Claimable(s, id) && id < s.nextId;
    hide Ids;
    forall v, id: nat | v != w && Holds(u, v, id)
      ensures ClaimStands(u, v, id) && s.workers[v].at <= s.now && id < s.nextId
      ensures id in ids ==> s.workers[v].at + s.reclaimAfter < s.now
    {
      assert Holds(s, v, id) && ClaimStands(s, v, id);
    }
    forall v, x, id: nat | v != w && x != w && Holds(u, v, id) && Holds(u, x, id) ensures Holds(s, v, id) && Holds(s, x, id) {
    }
  }

  lemma ClaimedIds(s: State, w: Worker, ids: seq<nat>, id: nat)
    requires Enabled(s, ClaimBatch(w, ids))
    ensures id in Ids(ClaimRows(s, w, ids).workers[w].pending) <==> id in ids
  {
    var pending := ClaimRows(s, w, ids).workers[w].pending;
    if id in ids {
      var i :| 0 <= i < |ids| && ids[i] == id;
      assert pending[i].id == id && pending[i] in pending;
    }
  }

  lemma ClaimInvStep(s: State, step: Step)
    requires ClaimInv(s) && Enabled(s, step) && RowsOk(Apply(s, step))
    ensures ClaimInv(Apply(s, step))
  {
    hide ClaimInv, RowsOk, Inserts, Inlined, Refused, Kept;
    var u := Apply(s, step);
    match step
    case Tick(_) => ClaimsStand(s, u, 0);
    case StageKey(key) => ClaimInvStage(s, key);
    case Start(w) => ClaimsStand(s, u, w);
    case ClaimBatch(w, ids) => ClaimInvClaim(s, w, ids);
    case Fetch(w, found) => ClaimsStand(s, u, w);
    case Fail(w) => ClaimsStand(s, u, w);
    case AppendBlacklist(w) => ClaimsStand(s, u, w);
    case DeleteBlacklisted(w) => ClaimsStand(s, u, w);
    case Sweep(w, spared) => ClaimsStand(s, u, w);
    case InsertMain(w) => ClaimsStand(s, u, w);
    case DeleteRest(w) => ClaimsStand(s, u, w);
    case Exit(w) => ClaimsStand(s, u, w);
    case Crash(w) => ClaimsStand(s, u, w);
  }

  lemma ClaimInvStage(s: State, key: NftKey)
    requires ClaimInv(s) && RowsOk(Stage(s, key))
    ensures ClaimInv(Stage(s, key))
  {
    var u := Stage(s, key);
    hide Ids;
    forall v, id: nat | Holds(u, v, id) ensures Holds(s, v, id) && ClaimStands(u, v, id) {
      assert Holds(s, v, id) && ClaimStands(s, v, id);
    }
    forall v, w, id: nat | v != w && Holds(u, v, id) && Holds(u, w, id) ensures Holds(s, v, id) && Holds(s, w, id) {
    }
  }

  /** A release, like every other step but a claim, leaves other workers' claims as they are. */
  lemma OthersKeepClaims(s: State, step: Step, w: Worker, id: nat)
    requires Enabled(s, step) && (step.Fail? || step.Exit?) && step.w == w
    requires id in s.staging && (s.staging[id].claim.None? || s.staging[id].claim.value.worker != w)
    ensures id in Apply(s, step).staging && Apply(s, step).staging[id] == s.staging[id]
  {}

  // ----- runs

  ghost predicate Run(states: seq<State>, steps: seq<Step>) {
    && |states| == |steps| + 1 && Initial(states[0])
    && forall k :: 0 <= k < |steps| ==> Enabled(states[k], steps[k]) && states[k + 1] == Apply(states[k], steps[k])
  }

  lemma {:induction false} InvAlways(states: seq<State>, steps: seq<Step>, k: nat)
    requires Run(states, steps) && k < |states|
    ensures Lossless(states[k]) && ClaimInv(states[k])
  {
    hide Lossless, ClaimInv, Apply, Enabled;
    if k == 0 {
      InvInitially(states[0]);
    } else {
      InvAlways(states, steps, k - 1);
      assert states[k - 1 + 1] == Apply(states[k - 1], steps[k - 1]);
      LosslessStep(states[k - 1], steps[k - 1]);
      LosslessRows(states[k]);
      ClaimInvStep(states[k - 1], steps[k - 1]);
    }
  }

  lemma InvInitially(s: State)
    requires Initial(s)
    ensures Lossless(s) && ClaimInv(s)
  {}

  lemma LosslessRows(s: State)
    requires Lossless(s)
    ensures RowsOk(s)
  {}

  /** In every run a row leaves the staging table only when its key is in main, its record
      was refused, or its contract is blacklisted. */
  lemma DeletedMeansSettled(states: seq<State>, steps: seq<Step>, k: nat, id: nat)
    requires Run(states, steps) && k < |states| && id in states[k].rows
    ensures id in states[k].staging || Settled(states[k], id)
  {
    InvAlways(states, steps, k);
    hide Apply, Enabled;
  }

  /** In every run two batches under way share a row only if the earlier claim had run out
      before the later one was made. */
  lemma SharedMeansExpired(states: seq<State>, steps: seq<Step>, k: nat, v: Worker, w: Worker, id: nat)
    requires Run(states, steps) && k < |states| && v != w && Holds(states[k], v, id) && Holds(states[k], w, id)
    ensures var s := states[k];
            || s.workers[v].at + s.reclaimAfter < s.workers[w].at
            || s.workers[w].at + s.reclaimAfter < s.workers[v].at
  {
    InvAlways(states, steps, k);
    hide Apply, Enabled, Ids;
  }
}
