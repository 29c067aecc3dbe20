/** What a worker's steps do: one step at a time, and a whole batch from claim to deletion. */
module StagingCycle {
  import opened Wrappers
  import opened NftKeys
  import opened StagingClaims

  // ----- claiming and releasing

  /** A batch may be claimed exactly when nobody holds its rows, or claims on them have run out. */
  lemma ClaimAllowed(s: State, w: Worker, ids: seq<nat>)
    ensures Enabled(s, ClaimBatch(w, ids)) <==>
              && w in s.workers && s.workers[w] == Idle
              && forall id :: id in ids ==>
                   && id in s.staging
                   && (s.staging[id].claim == None || s.staging[id].claim.value.at + s.reclaimAfter < s.now)
  {
    if Enabled(s, ClaimBatch(w, ids)) {
      forall id | id in ids ensures Claimable(s, id) {
        var i :| 0 <= i < |ids| && ids[i] == id;
      }
    }
  }

  /** The worker's claim stands on the rows of its batch, and no other row changes. */
  lemma ClaimEffect(s: State, w: Worker, ids: seq<nat>)
    requires Enabled(s, ClaimBatch(w, ids))
    ensures var u := Apply(s, ClaimBatch(w, ids));
            && u.staging.Keys == s.staging.Keys && u.main == s.main && u.blacklist == s.blacklist
            && (forall id :: id in s.staging ==>
                  u.staging[id] == if id in ids then StagingRow(s.staging[id].key, Some(Claim(w, s.now))) else s.staging[id])
            && u.workers.Keys == s.workers.Keys && u.workers[w].Claimed? && u.workers[w].at == s.now
            && |u.workers[w].pending| == |ids|
            && (forall i :: 0 <= i < |ids| ==>
                  ids[i] in s.staging && u.workers[w].pending[i] == PendingRow(ids[i], s.staging[ids[i]].key))
            && (forall v :: v in s.workers && v != w ==> u.workers[v] == s.workers[v])
  {
    forall i | 0 <= i < |ids| ensures ids[i] in s.staging {
      assert Claimable(s, ids[i]);
    }
  }

  /** No row is stuck: whoever claims it and dies, an idle worker may claim it in the end. */
  lemma NoRowIsStuck(s: State, w: Worker, id: nat) returns (seconds: nat)
    requires id in s.staging && w in s.workers && s.workers[w] == Idle
    ensures Enabled(Apply(s, Tick(seconds)), ClaimBatch(w, [id]))
  {
    seconds := if s.staging[id].claim.None? then 0 else s.staging[id].claim.value.at + s.reclaimAfter + 1;
    var u := Apply(s, Tick(seconds));
    assert Claimable(u, id);
  }

  /** A worker that fails or stops gives back the rows of its batch that are still its own, and
      touches nothing else. */
  lemma ReleaseEffect(s: State, w: Worker, step: Step)
    requires Enabled(s, step) && (step == Fail(w) || step == Exit(w))
    ensures var u := Apply(s, step);
            && u.staging.Keys == s.staging.Keys && u.main == s.main && u.blacklist == s.blacklist
            && u.workers == s.workers[w := if step == Fail(w) then Idle else Gone]
            && forall id :: id in s.staging ==>
                 u.staging[id] ==
                 if s.workers[w] != Idle && (exists p :: p in s.workers[w].pending && p.id == id)
                    && s.staging[id].claim.Some? && s.staging[id].claim.value.worker == w
                 then StagingRow(s.staging[id].key, None) else s.staging[id]
  {}

  /** A key is staged once: a new one gets the next row, unclaimed. */
  lemma StageEffect(s: State, key: NftKey)
    ensures var u := Apply(s, StageKey(key));
            if exists id :: id in s.staging && s.staging[id].key == key then u == s
            else u.staging == s.staging[s.nextId := StagingRow(key, None)] && u.nextId == s.nextId + 1 && u.main == s.main
  {}

  // ----- a whole batch

  /** The contracts of the batch whose metadata hold an image. */
  ghost predicate InlineIn(pending: seq<PendingRow>, found: seq<Metadata>, contract: string)
    requires |found| == |pending|
  {
    exists i :: 0 <= i < |pending| && pending[i].key.contract == contract && InlineImage(found[i])
  }

  /** The records of the batch that are kept: with a URI, and of a contract that is neither
      blacklisted nor among those. */
  ghost predicate KeptIn(s: State, pending: seq<PendingRow>, found: seq<Metadata>, key: NftKey)
    requires |found| == |pending|
  {
    && key.contract !in s.blacklist && !InlineIn(pending, found, key.contract)
    && exists i :: 0 <= i < |pending| && pending[i].key == key && !NoUri(found[i].tokenUri)
  }

  // ----- the steps of a batch

  /** Fetching and filtering change nothing but what the worker knows. */
  lemma FetchEffect(s: State, w: Worker, found: seq<Metadata>)
    requires Enabled(s, Fetch(w, found))
    ensures var u, p := Apply(s, Fetch(w, found)), s.workers[w].pending;
            && u.staging == s.staging && u.main == s.main && u.blacklist == s.blacklist
            && u.workers.Keys == s.workers.Keys && (forall v :: v in s.workers && v != w ==> u.workers[v] == s.workers[v])
            && u.workers[w].Processed? && u.workers[w].pending == p
            && (forall c :: c in u.workers[w].inlined <==> InlineIn(p, found, c))
            && (forall key :: key in u.workers[w].inserts <==>
                  !InlineIn(p, found, key.contract) && exists i :: 0 <= i < |p| && p[i].key == key && !NoUri(found[i].tokenUri))
  {
    hide NoUri, InlineImage, Inserts, Inlined;
    BatchMeans(s.workers[w].pending, found, Inlined(s.workers[w].pending, found));
  }

  lemma ListEffect(s: State, w: Worker)
    requires Enabled(s, AppendBlacklist(w))
    ensures var u, p := Apply(s, AppendBlacklist(w)), s.workers[w];
            && u.staging == s.staging && u.main == s.main && u.blacklist == s.blacklist + p.inlined
            && u.workers == s.workers[w := Listed(p.pending, p.at, p.inserts, p.inlined)]
  {}

  /** Rows and records of blacklisted contracts go; other rows are left to be deleted last. */
  lemma CleanEffect(s: State, w: Worker)
    requires Enabled(s, DeleteBlacklisted(w))
    ensures var u, p := Apply(s, DeleteBlacklisted(w)), s.workers[w];
            var bad := s.blacklist + p.inlined;
            && u.main == s.main && u.blacklist == s.blacklist
            && (forall id :: id in u.staging <==>
                  id in s.staging && !(exists r :: r in p.pending && r.id == id && r.key.contract in bad))
            && (forall id :: id in u.staging ==> u.staging[id] == s.staging[id])
            && u.workers.Keys == s.workers.Keys && (forall v :: v in s.workers && v != w ==> u.workers[v] == s.workers[v])
            && u.workers[w].Cleaned? && u.workers[w].pending == p.pending && u.workers[w].inlined == p.inlined
            && (forall k :: k in u.workers[w].inserts <==> k in p.inserts && k.contract !in bad)
            && (forall id :: id in u.workers[w].rest <==> exists r :: r in p.pending && r.id == id && r.key.contract !in bad)
  {}

  /** The contracts just blacklisted go from main and, but for spared rows, from staging. */
  lemma SweepEffect(s: State, w: Worker, spared: set<nat>)
    requires Enabled(s, Sweep(w, spared))
    ensures var u, p := Apply(s, Sweep(w, spared)), s.workers[w];
            && u.blacklist == s.blacklist && (forall k :: k in u.main <==> k in s.main && k.contract !in p.inlined)
            && (forall id :: id in u.staging <==>
                  id in s.staging && (id in spared || s.staging[id].key.contract !in p.inlined))
            && (forall id :: id in u.staging ==> u.staging[id] == s.staging[id])
            && u.workers == s.workers[w := Swept(p.pending, p.at, p.inserts, p.rest)]
  {}

  lemma InsertEffect(s: State, w: Worker)
    requires Enabled(s, InsertMain(w))
    ensures var u, p := Apply(s, InsertMain(w)), s.workers[w];
            && u.staging == s.staging && u.blacklist == s.blacklist
            && (forall k :: k in u.main <==> k in s.main || k in p.inserts)
            && u.workers == s.workers[w := Inserted(p.pending, p.at, p.rest)]
  {}

  lemma DeleteEffect(s: State, w: Worker)
    requires Enabled(s, DeleteRest(w))
    ensures var u := Apply(s, DeleteRest(w));
            && u.main == s.main && u.blacklist == s.blacklist
            && (forall id :: id in u.staging <==> id in s.staging && id !in s.workers[w].rest)
            && (forall id :: id in u.staging ==> u.staging[id] == s.staging[id])
            && u.workers == s.workers[w := Idle]
  {}

  /** A run of steps from any state. */
  ghost predicate Follows(states: seq<State>, steps: seq<Step>) {
    && |states| == |steps| + 1
    && forall k :: 0 <= k < |steps| ==> Enabled(states[k], steps[k]) && states[k + 1] == Apply(states[k], steps[k])
  }

  /** The six steps from the fetch to the end of a batch, with nobody in between. */
  ghost function Cycle(w: Worker, found: seq<Metadata>, spared: set<nat>): seq<Step> {
    [Fetch(w, found), AppendBlacklist(w), DeleteBlacklisted(w), Sweep(w, spared), InsertMain(w), DeleteRest(w)]
  }

  /** What is left when the batch is done: its inline contracts are blacklisted and purged from
      main and, but for spared rows, from staging; its kept records are in main; its rows are
      gone; the worker is idle again. */
  lemma CycleEffect(s: State, w: Worker, found: seq<Metadata>, spared: set<nat>) returns (states: seq<State>)
    requires Enabled(s, Fetch(w, found))
    ensures Follows(states, Cycle(w, found, spared)) && states[0] == s
    ensures var pending := s.workers[w].pending;
            var u := states[6];
            && (forall c :: c in u.blacklist <==> c in s.blacklist || InlineIn(pending, found, c))
            && (forall key :: key in u.main <==>
                  (key in s.main && !InlineIn(pending, found, key.contract)) || KeptIn(s, pending, found, key))
            && (forall id :: id in u.staging <==>
                  && id in s.staging && !(exists r :: r in pending && r.id == id)
                  && (id in spared || !InlineIn(pending, found, s.staging[id].key.contract)))
            && (forall id :: id in u.staging ==> u.staging[id] == s.staging[id])
            && u.workers == s.workers[w := Idle]
  {
    hide Apply, NoUri, InlineImage, InlineIn;
    FetchEffect(s, w, found);
    var s1 := Apply(s, Fetch(w, found));
    ListEffect(s1, w);
    var s2 := Apply(s1, AppendBlacklist(w));
    CleanEffect(s2, w);
    var s3 := Apply(s2, DeleteBlacklisted(w));
    SweepEffect(s3, w, spared);
    var s4 := Apply(s3, Sweep(w, spared));
    InsertEffect(s4, w);
    var s5 := Apply(s4, InsertMain(w));
    DeleteEffect(s5, w);
    var s6 := Apply(s5, DeleteRest(w));
    states := [s, s1, s2, s3, s4, s5, s6];
  }
}
