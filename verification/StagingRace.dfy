/** The blacklist race: when main holds records of a blacklisted contract. */
module StagingRace {
  import opened Wrappers
  import opened NftKeys
  import opened StagingClaims

  /** Main holds nothing of a blacklisted contract. */
  ghost predicate MainClean(s: State) {
    forall k :: k in s.main ==> k.contract !in s.blacklist
  }

  // ----- what happened in a stretch of a run

  /** Step `k` blacklists the contract. */
  ghost predicate ListsAt(states: seq<State>, steps: seq<Step>, k: nat, contract: string) {
    && k < |steps| && k < |states| && Enabled(states[k], steps[k])
    && steps[k].AppendBlacklist? && contract in states[k].workers[steps[k].w].inlined
  }

  /** Step `k` sweeps the contract out of main. */
  ghost predicate SweepsAt(states: seq<State>, steps: seq<Step>, k: nat, contract: string) {
    && k < |steps| && k < |states| && Enabled(states[k], steps[k])
    && steps[k].Sweep? && contract in states[k].workers[steps[k].w].inlined
  }

  /** Step `k` inserts the key. */
  ghost predicate InsertsAt(states: seq<State>, steps: seq<Step>, k: nat, key: NftKey) {
    && k < |steps| && k < |states| && Enabled(states[k], steps[k])
    && steps[k].InsertMain? && key in states[k].workers[steps[k].w].inserts
  }

  ghost predicate ListedIn(states: seq<State>, steps: seq<Step>, from: nat, until: nat, contract: string) {
    exists k: nat :: from <= k < until && ListsAt(states, steps, k, contract)
  }

  ghost predicate SweptOut(states: seq<State>, steps: seq<Step>, from: nat, until: nat, contract: string) {
    exists k: nat :: from <= k < until && SweepsAt(states, steps, k, contract)
  }

  lemma OneStep(states: seq<State>, steps: seq<Step>, k: nat)
    requires Run(states, steps) && k < |steps|
    ensures Enabled(states[k], steps[k]) && states[k + 1] == Apply(states[k], steps[k])
  {
    hide Enabled, Apply;
  }

  lemma StepLists(s: State, step: Step, contract: string)
    requires Enabled(s, step)
    ensures contract in Apply(s, step).blacklist
            <==> contract in s.blacklist || (step.AppendBlacklist? && contract in s.workers[step.w].inlined)
  {
    hide Inserts, Inlined, Refused, Kept, Ids;
  }

  lemma StepMain(s: State, step: Step, key: NftKey)
    requires Enabled(s, step)
    ensures key in Apply(s, step).main
            <==> (key in s.main || (step.InsertMain? && key in s.workers[step.w].inserts))
                 && !(step.Sweep? && key.contract in s.workers[step.w].inlined)
  {
    hide Inserts, Inlined, Refused, Kept, Ids;
  }

  /** The blacklist holds what it held and what was listed since. */
  lemma {:induction false} BlacklistHistory(states: seq<State>, steps: seq<Step>, from: nat, until: nat, contract: string)
    requires Run(states, steps) && from <= until <= |steps|
    ensures contract in states[until].blacklist
            <==> contract in states[from].blacklist || ListedIn(states, steps, from, until, contract)
    decreases until
  {
    hide Enabled, Apply;
    if from < until {
      BlacklistHistory(states, steps, from, until - 1, contract);
      OneStep(states, steps, until - 1);
      StepLists(states[until - 1], steps[until - 1], contract);
      if ListedIn(states, steps, from, until - 1, contract) {
        var k: nat :| from <= k < until - 1 && ListsAt(states, steps, k, contract);
        assert ListsAt(states, steps, k, contract);
      }
      assert ListsAt(states, steps, until - 1, contract) ==> ListedIn(states, steps, from, until, contract);
    }
  }

  /** A key is in main if it was there, or was inserted, and has not been swept out since. */
  ghost predicate Entered(states: seq<State>, steps: seq<Step>, from: nat, until: nat, key: NftKey)
    requires from < |states|
  {
    || (key in states[from].main && !SweptOut(states, steps, from, until, key.contract))
    || exists e: nat :: from <= e < until && InsertsAt(states, steps, e, key) && !SweptOut(states, steps, e + 1, until, key.contract)
  }

  lemma SweptMore(states: seq<State>, steps: seq<Step>, from: nat, until: nat, contract: string)
    requires from <= until
    ensures SweptOut(states, steps, from, until + 1, contract)
            <==> SweptOut(states, steps, from, until, contract) || SweepsAt(states, steps, until, contract)
  {
    hide SweepsAt;
    if SweptOut(states, steps, from, until, contract) {
      var k: nat :| from <= k < until && SweepsAt(states, steps, k, contract);
      assert k < until + 1;
    }
  }

  lemma {:induction false} MainHistory(states: seq<State>, steps: seq<Step>, from: nat, until: nat, key: NftKey)
    requires Run(states, steps) && from <= until <= |steps|
    ensures key in states[until].main <==> Entered(states, steps, from, until, key)
    decreases until
  {
    hide Enabled, Apply, SweptOut;
    if from < until {
      MainHistory(states, steps, from, until - 1, key);
      OneStep(states, steps, until - 1);
      StepMain(states[until - 1], steps[until - 1], key);
      EnteredMore(states, steps, from, until - 1, key);
    } else {
      NothingSwept(states, steps, from, key.contract);
    }
  }

  lemma NothingSwept(states: seq<State>, steps: seq<Step>, from: nat, contract: string)
    ensures !SweptOut(states, steps, from, from, contract)
  {}

  lemma EnteredMore(states: seq<State>, steps: seq<Step>, from: nat, until: nat, key: NftKey)
    requires from <= until && from < |states|
    ensures Entered(states, steps, from, until + 1, key)
            <==> (Entered(states, steps, from, until, key) || InsertsAt(states, steps, until, key))
                 && !SweepsAt(states, steps, until, key.contract)
  {
    hide InsertsAt, SweptOut;
    SweptMore(states, steps, from, until, key.contract);
    forall e: nat {:trigger InsertsAt(states, steps, e, key)} | from <= e < until
      ensures SweptOut(states, steps, e + 1, until + 1, key.contract)
              <==> SweptOut(states, steps, e + 1, until, key.contract) || SweepsAt(states, steps, until, key.contract)
    {
      SweptMore(states, steps, e + 1, until, key.contract);
    }
    NothingSwept(states, steps, until + 1, key.contract);
    NotBoth(states, steps, until, key);
    if Entered(states, steps, from, until + 1, key) && !(key in states[from].main && !SweptOut(states, steps, from, until + 1, key.contract)) {
      var e: nat :| from <= e < until + 1 && InsertsAt(states, steps, e, key) && !SweptOut(states, steps, e + 1, until + 1, key.contract);
      assert e < until ==> !SweptOut(states, steps, e + 1, until, key.contract);
    }
  }

  lemma NotBoth(states: seq<State>, steps: seq<Step>, k: nat, key: NftKey)
    ensures !(InsertsAt(states, steps, k, key) && SweepsAt(states, steps, k, key.contract))
  {}

  // ----- from cleaning a batch to inserting it

  /** No insert of the worker lies between. */
  ghost predicate NoInsertBetween(steps: seq<Step>, i: nat, j: nat, w: Worker) {
    forall k :: i < k < j && k < |steps| ==> steps[k] != InsertMain(w)
  }

  ghost predicate Cleaning(steps: seq<Step>, i: nat, j: nat, w: Worker) {
    i < j <= |steps| && steps[i] == DeleteBlacklisted(w) && NoInsertBetween(steps, i, j, w)
  }

  predicate HoldsInserts(p: Phase) {
    p.Cleaned? || p.Swept?
  }

  ghost predicate KeepsInserts(s: State, w: Worker, inserts: seq<NftKey>) {
    w in s.workers && (s.workers[w].Gone? || (HoldsInserts(s.workers[w]) && s.workers[w].inserts == inserts))
  }

  lemma StepKeepsInserts(s: State, step: Step, w: Worker, inserts: seq<NftKey>)
    requires Enabled(s, step) && step != InsertMain(w) && KeepsInserts(s, w, inserts)
    ensures KeepsInserts(Apply(s, step), w, inserts)
  {
    hide Inserts, Inlined, Refused, Kept, Ids;
  }

  lemma {:induction false} InsertsKept(states: seq<State>, steps: seq<Step>, i: nat, j: nat, w: Worker)
    requires Run(states, steps) && Cleaning(steps, i, j, w)
    ensures w in states[i + 1].workers && states[i + 1].workers[w].Cleaned? && KeepsInserts(states[j], w, states[i + 1].workers[w].inserts)
    decreases j
  {
    hide Kept, Ids;
    OneStep(states, steps, i);
    if i + 1 < j {
      InsertsKept(states, steps, i, j - 1, w);
      OneStep(states, steps, j - 1);
      hide Enabled, Apply;
      StepKeepsInserts(states[j - 1], steps[j - 1], w, states[i + 1].workers[w].inserts);
    }
  }

  /** When a batch is cleaned, its records are of no contract that is then blacklisted. */
  lemma CleanedRecordsListed(s: State, w: Worker, key: NftKey)
    requires Enabled(s, DeleteBlacklisted(w)) && key in Apply(s, DeleteBlacklisted(w)).workers[w].inserts
    ensures key.contract !in Apply(s, DeleteBlacklisted(w)).blacklist
  {}

  /** A worker that cleaned its batch at `i` and inserts it at `j` inserts no record of a
      blacklisted contract exactly when nobody blacklists one of those contracts between. */
  lemma InsertCleanWhen(states: seq<State>, steps: seq<Step>, i: nat, j: nat, w: Worker)
    requires Run(states, steps) && Cleaning(steps, i, j, w) && j < |steps| && steps[j] == InsertMain(w)
    ensures w in states[j].workers && states[j].workers[w].Swept?
    ensures w in states[i + 1].workers && states[i + 1].workers[w].Cleaned?
    ensures states[j].workers[w].inserts == states[i + 1].workers[w].inserts
    ensures (forall key :: key in states[j].workers[w].inserts ==> key.contract !in states[j].blacklist)
            <==> forall key :: key in states[i + 1].workers[w].inserts ==> !ListedIn(states, steps, i + 1, j, key.contract)
  {
    InsertsKept(states, steps, i, j, w);
    OneStep(states, steps, i);
    OneStep(states, steps, j);
    var inserts := states[i + 1].workers[w].inserts;
    assert states[j].workers[w].Swept?;
    hide ListedIn;
    forall key | key in inserts
      ensures key.contract in states[j].blacklist <==> ListedIn(states, steps, i + 1, j, key.contract)
    {
      CleanedRecordsListed(states[i], w, key);
      BlacklistHistory(states, steps, i + 1, j, key.contract);
    }
  }

  /** Every insert has such a cleaning before it. */
  lemma {:induction false} CleanedBefore(states: seq<State>, steps: seq<Step>, j: nat, w: Worker) returns (i: nat)
    requires Run(states, steps) && j <= |steps| && w in states[j].workers && HoldsInserts(states[j].workers[w])
    ensures Cleaning(steps, i, j, w)
    decreases j
  {
    var k := j - 1;
    OneStep(states, steps, k);
    if steps[k] == DeleteBlacklisted(w) {
      i := k;
    } else {
      StepHolds(states[k], steps[k], w);
      hide Enabled, Apply;
      i := CleanedBefore(states, steps, k, w);
    }
  }

  lemma StepHolds(s: State, step: Step, w: Worker)
    requires Enabled(s, step) && step != DeleteBlacklisted(w)
    requires w in Apply(s, step).workers && HoldsInserts(Apply(s, step).workers[w])
    ensures w in s.workers && HoldsInserts(s.workers[w]) && step != InsertMain(w)
  {
    hide Inserts, Inlined, Refused, Kept, Ids;
  }

  // ----- when main is not clean

  /** A key was inserted after its contract had been blacklisted behind the worker's back, and
      has not been swept out since. */
  ghost predicate LateInsert(states: seq<State>, steps: seq<Step>, n: nat, key: NftKey, i: nat, e: nat) {
    && i < e < n && InsertsAt(states, steps, e, key) && Cleaning(steps, i, e, steps[e].w)
    && ListedIn(states, steps, i + 1, e, key.contract) && !SweptOut(states, steps, e + 1, n, key.contract)
  }

  /** A key was in main when its contract was blacklisted, and has not been swept out since. */
  ghost predicate Unswept(states: seq<State>, steps: seq<Step>, n: nat, key: NftKey, a: nat) {
    && a < n && ListsAt(states, steps, a, key.contract) && key in states[a].main
    && !SweptOut(states, steps, a, n, key.contract)
  }

  ghost predicate Stains(states: seq<State>, steps: seq<Step>, n: nat, key: NftKey) {
    (exists i: nat, e: nat :: LateInsert(states, steps, n, key, i, e)) || exists a: nat :: Unswept(states, steps, n, key, a)
  }

  lemma LateInsertStains(states: seq<State>, steps: seq<Step>, n: nat, key: NftKey, i: nat, e: nat)
    requires Run(states, steps) && n <= |steps| && LateInsert(states, steps, n, key, i, e)
    ensures key in states[n].main && key.contract in states[n].blacklist
  {
    hide Enabled, Apply, SweptOut, InsertsAt;
    OneStep(states, steps, e);
    MainHistory(states, steps, 0, n, key);
    BlacklistHistory(states, steps, i + 1, e, key.contract);
    BlacklistHistory(states, steps, e, n, key.contract);
  }

  lemma UnsweptStains(states: seq<State>, steps: seq<Step>, n: nat, key: NftKey, a: nat)
    requires Run(states, steps) && n <= |steps| && Unswept(states, steps, n, key, a)
    ensures key in states[n].main && key.contract in states[n].blacklist
  {
    hide Enabled, Apply, SweptOut, ListsAt;
    MainHistory(states, steps, a, n, key);
    BlacklistHistory(states, steps, a, n, key.contract);
  }

  lemma SweptLater(states: seq<State>, steps: seq<Step>, from: nat, later: nat, until: nat, contract: string)
    requires from <= later <= until && !SweptOut(states, steps, from, until, contract)
    ensures !SweptOut(states, steps, later, until, contract) && !SweptOut(states, steps, from, later, contract)
  {
    hide SweepsAt;
  }

  /** A key that came in at `from`, while its contract was not blacklisted, and is now of a
      blacklisted contract, was in main when that happened. */
  lemma ListedSince(states: seq<State>, steps: seq<Step>, from: nat, n: nat, key: NftKey) returns (a: nat)
    requires Run(states, steps) && from <= n <= |steps| && key in states[from].main && key.contract !in states[from].blacklist
    requires !SweptOut(states, steps, from, n, key.contract) && key.contract in states[n].blacklist
    ensures Unswept(states, steps, n, key, a)
  {
    hide Enabled, Apply, SweptOut, ListsAt;
    BlacklistHistory(states, steps, from, n, key.contract);
    a :| from <= a < n && ListsAt(states, steps, a, key.contract);
    SweptLater(states, steps, from, a, n, key.contract);
    MainHistory(states, steps, from, a, key);
  }

  lemma StainsMain(states: seq<State>, steps: seq<Step>, n: nat, key: NftKey)
    requires Run(states, steps) && n <= |steps| && MainClean(states[0])
    requires key in states[n].main && key.contract in states[n].blacklist
    ensures Stains(states, steps, n, key)
  {
    hide Enabled, Apply, SweptOut, InsertsAt, ListsAt;
    MainHistory(states, steps, 0, n, key);
    if key in states[0].main && !SweptOut(states, steps, 0, n, key.contract) {
      var a := ListedSince(states, steps, 0, n, key);
    } else {
      var e: nat :| 0 <= e < n && InsertsAt(states, steps, e, key) && !SweptOut(states, steps, e + 1, n, key.contract);
      InsertStains(states, steps, n, key, e);
    }
  }

  lemma InsertStains(states: seq<State>, steps: seq<Step>, n: nat, key: NftKey, e: nat)
    requires Run(states, steps) && n <= |steps| && e < n && key.contract in states[n].blacklist
    requires InsertsAt(states, steps, e, key) && !SweptOut(states, steps, e + 1, n, key.contract)
    ensures Stains(states, steps, n, key)
  {
    hide Apply, SweptOut, ListsAt;
    var w := steps[e].w;
    OneStep(states, steps, e);
    var i := CleanedBefore(states, steps, e, w);
    InsertCleanWhen(states, steps, i, e, w);
    StepLists(states[e], steps[e], key.contract);
    StepMain(states[e], steps[e], key);
    OneStep(states, steps, i);
    hide Enabled;
    if key.contract in states[e].blacklist {
      KeptAreUnlisted(states, steps, i, w, key);
      BlacklistHistory(states, steps, i + 1, e, key.contract);
      assert LateInsert(states, steps, n, key, i, e);
    } else {
      var a := ListedSince(states, steps, e + 1, n, key);
    }
  }

  lemma KeptAreUnlisted(states: seq<State>, steps: seq<Step>, i: nat, w: Worker, key: NftKey)
    requires Run(states, steps) && i < |steps| && steps[i] == DeleteBlacklisted(w)
    requires w in states[i + 1].workers && states[i + 1].workers[w].Cleaned? && key in states[i + 1].workers[w].inserts
    ensures key.contract !in states[i + 1].blacklist
  {
    OneStep(states, steps, i);
    CleanedRecordsListed(states[i], w, key);
  }

  /** Starting clean, main holds records of a blacklisted contract exactly when one of them was
      inserted late, or was there already and nobody has swept its contract since. */
  lemma DirtyWhen(states: seq<State>, steps: seq<Step>, n: nat)
    requires Run(states, steps) && n <= |steps| && MainClean(states[0])
    ensures !MainClean(states[n]) <==> exists key :: Stains(states, steps, n, key)
  {
    hide Enabled, Apply, SweptOut, LateInsert, Unswept;
    if !MainClean(states[n]) {
      var key :| key in states[n].main && key.contract in states[n].blacklist;
      StainsMain(states, steps, n, key);
    }
    if key :| Stains(states, steps, n, key) {
      if a: nat :| Unswept(states, steps, n, key, a) {
        UnsweptStains(states, steps, n, key, a);
      } else {
        var i: nat, e: nat :| LateInsert(states, steps, n, key, i, e);
        LateInsertStains(states, steps, n, key, i, e);
      }
    }
  }

  /** Who blacklists a contract has it swept next, or is gone. */
  ghost predicate SweepDue(s: State, w: Worker, contract: string) {
    && w in s.workers
    && (s.workers[w].Gone? || ((s.workers[w].Listed? || s.workers[w].Cleaned?) && contract in s.workers[w].inlined))
  }

  lemma StepSweepDue(s: State, step: Step, w: Worker, contract: string)
    requires Enabled(s, step) && SweepDue(s, w, contract)
    requires !(step.Sweep? && contract in s.workers[step.w].inlined)
    ensures SweepDue(Apply(s, step), w, contract)
  {
    hide Inserts, Inlined, Refused, Kept, Ids;
  }

  /** As long as a blacklisted contract has not been swept, the worker that listed it is about
      to sweep it, or has crashed or left before it could. */
  lemma {:induction false} UnsweptMeansDue(states: seq<State>, steps: seq<Step>, a: nat, n: nat, contract: string)
    requires Run(states, steps) && a < n <= |steps| && ListsAt(states, steps, a, contract)
    requires !SweptOut(states, steps, a, n, contract)
    ensures SweepDue(states[n], steps[a].w, contract)
    decreases n
  {
    if a + 1 < n {
      SweptLater(states, steps, a, n - 1, n, contract);
      UnsweptMeansDue(states, steps, a, n - 1, contract);
      OneStep(states, steps, n - 1);
      assert !SweepsAt(states, steps, n - 1, contract);
      hide Apply;
      StepSweepDue(states[n - 1], steps[n - 1], steps[a].w, contract);
    } else {
      OneStep(states, steps, a);
    }
  }

  // ----- two runs that end with main unclean

  /** A run may go on with any enabled step. */
  lemma Extend(states: seq<State>, steps: seq<Step>, step: Step, next: State)
    requires Run(states, steps) && Enabled(states[|steps|], step) && next == Apply(states[|steps|], step)
    ensures Run(states + [next], steps + [step])
  {
    hide Enabled, Apply;
  }

  function First(contract: string): NftKey {
    NftKey(contract, 1)
  }

  function Second(contract: string): NftKey {
    NftKey(contract, 2)
  }

  /** Two workers have claimed a row each of one contract. */
  function BothClaimed(contract: string, main: set<NftKey>): State {
    State(1800, map[0 := StagingRow(First(contract), Some(Claim(0, 0))), 1 := StagingRow(Second(contract), Some(Claim(1, 0)))],
          main, {}, 0, 2,
          map[0 := Claimed([PendingRow(0, First(contract))], 0), 1 := Claimed([PendingRow(1, Second(contract))], 0)],
          map[0 := First(contract), 1 := Second(contract)], {})
  }

  lemma BothClaim(contract: string, main: set<NftKey>) returns (states: seq<State>, steps: seq<Step>)
    ensures Run(states, steps) && states[0].main == main && states[0].blacklist == {}
    ensures states[|steps|] == BothClaimed(contract, main)
  {
    var s0 := State(1800, map[], main, {}, 0, 0, map[], map[], {});
    states, steps := [s0], [];
    var s1 := Staged(s0, First(contract));
    states, steps := Go(states, steps, StageKey(First(contract)), s1);
    var s2 := Staged(s1, Second(contract));
    states, steps := Go(states, steps, StageKey(Second(contract)), s2);
    var s3 := s2.(workers := s2.workers[0 := Idle]);
    states, steps := Go(states, steps, Start(0), s3);
    var s4 := s3.(workers := s3.workers[1 := Idle]);
    states, steps := Go(states, steps, Start(1), s4);
    states, steps := ClaimEach(contract, main, states, steps, s4);
  }

  lemma ClaimEach(contract: string, main: set<NftKey>, was: seq<State>, had: seq<Step>, s: State)
    returns (states: seq<State>, steps: seq<Step>)
    requires Run(was, had) && was[|had|] == s
    requires s == State(1800, map[0 := StagingRow(First(contract), None), 1 := StagingRow(Second(contract), None)], main, {}, 0, 2,
                        map[0 := Idle, 1 := Idle], map[0 := First(contract), 1 := Second(contract)], {})
    ensures Run(states, steps) && states[0] == was[0] && states[|steps|] == BothClaimed(contract, main)
  {
    hide Run, ClaimRows;
    var next;
    states, steps, next := ClaimGoes(was, had, s, 0, 0);
    states, steps, next := ClaimGoes(states, steps, next, 1, 1);
    assert next == BothClaimed(contract, main);
  }

  lemma ClaimGoes(was: seq<State>, had: seq<Step>, s: State, w: Worker, id: nat)
    returns (states: seq<State>, steps: seq<Step>, next: State)
    requires Run(was, had) && was[|had|] == s && w in s.workers && s.workers[w].Idle? && id in s.staging && s.staging[id].claim.None?
    ensures Run(states, steps) && states[0] == was[0] && states[|steps|] == next
    ensures next == s.(staging := s.staging[id := s.staging[id].(claim := Some(Claim(w, s.now)))],
                       workers := s.workers[w := Claimed([PendingRow(id, s.staging[id].key)], s.now)])
  {
    hide Run, ClaimRows;
    ClaimOne(s, w, id);
    next := ClaimRows(s, w, [id]);
    states, steps := Go(was, had, ClaimBatch(w, [id]), next);
  }

  function Staged(s: State, key: NftKey): State {
    s.(staging := s.staging[s.nextId := StagingRow(key, None)], nextId := s.nextId + 1, rows := s.rows[s.nextId := key])
  }

  lemma ClaimOne(s: State, w: Worker, id: nat)
    requires id in s.staging && s.staging[id].claim.None?
    ensures AllClaimable(s, [id])
    ensures ClaimRows(s, w, [id]) == s.(staging := s.staging[id := s.staging[id].(claim := Some(Claim(w, s.now)))],
                                        workers := s.workers[w := Claimed([PendingRow(id, s.staging[id].key)], s.now)])
  {
    assert forall x :: x in [id] <==> x == id;
    var r := ClaimRows(s, w, [id]);
    assert r.staging == s.staging[id := s.staging[id].(claim := Some(Claim(w, s.now)))];
    assert r.workers[w].pending == [PendingRow(id, s.staging[id].key)];
  }

  lemma Go(states: seq<State>, steps: seq<Step>, step: Step, next: State) returns (states': seq<State>, steps': seq<Step>)
    requires Run(states, steps) && Enabled(states[|steps|], step) && next == Apply(states[|steps|], step)
    ensures Run(states', steps') && states' == states + [next] && steps' == steps + [step] && states'[|steps'|] == next
    ensures states'[0] == states[0]
  {
    Extend(states, steps, step, next);
    states', steps' := states + [next], steps + [step];
  }

  const PLAIN: Metadata := Metadata("ipfs://a", None)
  const INLINE: Metadata := Metadata("ipfs://a", Some("data:image"))

  /** What a fetch of one row comes to: a record, or a contract to blacklist. */
  lemma FetchOne(row: PendingRow)
    ensures Inlined([row], [PLAIN]) == {} && Inlined([row], [INLINE]) == {row.key.contract}
    ensures Inserts([row], [PLAIN], {}, 1) == [row.key] && Inserts([row], [INLINE], {row.key.contract}, 1) == []
    ensures Refused([row], [PLAIN]) == {} && Refused([row], [INLINE]) == {}
  {
    assert "data:image"[..10] == "data:image";
    assert [INLINE][0] == INLINE && StartsWith(INLINE.image.value, "data:image");
    assert row.key.contract in Inlined([row], [INLINE]) by {
      assert [row][0] == row;
    }
    assert [PLAIN][0] == PLAIN && !InvalidUri(PLAIN.tokenUri) && !InvalidUri(INLINE.tokenUri);
    assert Inserts([row], [PLAIN], {}, 0) == [] && Inserts([row], [INLINE], {row.key.contract}, 0) == [];
  }

  /** The worker that claimed the second row finds an inline image and blacklists the contract. */
  function Blacklisted(s: State, contract: string): State {
    s.(blacklist := {contract}, workers := s.workers[1 := Listed([PendingRow(1, Second(contract))], 0, [], {contract})])
  }

  lemma FetchInline(was: seq<State>, had: seq<Step>, s: State, contract: string) returns (states: seq<State>, steps: seq<Step>)
    requires Run(was, had) && was[|had|] == s && 1 in s.workers && s.workers[1] == Claimed([PendingRow(1, Second(contract))], 0)
    requires s.blacklist == {}
    ensures Run(states, steps) && states[0] == was[0] && states[|steps|] == Blacklisted(s, contract)
  {
    hide Run, Inlined, Inserts, Refused;
    var row := PendingRow(1, Second(contract));
    FetchOne(row);
    var s1 := s.(workers := s.workers[1 := Processed([row], 0, [], {contract})]);
    assert s.rejected + {} == s.rejected;
    states, steps := Go(was, had, Fetch(1, [INLINE]), s1);
    states, steps := Go(states, steps, AppendBlacklist(1), Blacklisted(s, contract));
  }

  /** A late insert: worker 0 cleans its batch, worker 1 blacklists the contract, and worker 0
      inserts its record all the same. */
  lemma RaceLeavesBlacklisted(contract: string) returns (states: seq<State>, steps: seq<Step>)
    ensures Run(states, steps) && MainClean(states[0]) && !MainClean(states[|steps|])
    ensures steps[|steps| - 1] == InsertMain(0)
  {
    states, steps := BothClaim(contract, {});
    var s := BothClaimed(contract, {});
    hide Run, Inlined, Inserts, Refused, Kept;
    var row, key := PendingRow(0, First(contract)), First(contract);
    FetchOne(row);
    var s1 := s.(workers := s.workers[0 := Processed([row], 0, [key], {})]);
    assert s.rejected + {} == s.rejected;
    states, steps := Go(states, steps, Fetch(0, [PLAIN]), s1);
    var s2 := s1.(workers := s1.workers[0 := Listed([row], 0, [key], {})]);
    assert s1.blacklist + {} == s1.blacklist;
    states, steps := Go(states, steps, AppendBlacklist(0), s2);
    states, steps := LateInsertRun(contract, states, steps, s2);
  }

  lemma KeptOne(key: NftKey)
    ensures Kept([key], {}) == [key]
  {
    assert [key][..0] == [];
    assert Kept([], {}) == [];
  }

  lemma LateInsertRun(contract: string, was: seq<State>, had: seq<Step>, s: State) returns (states: seq<State>, steps: seq<Step>)
    requires Run(was, had) && was[|had|] == s
    requires s == BothClaimed(contract, {}).(workers := map[
                    0 := Listed([PendingRow(0, First(contract))], 0, [First(contract)], {}),
                    1 := Claimed([PendingRow(1, Second(contract))], 0)])
    ensures Run(states, steps) && states[0] == was[0] && !MainClean(states[|steps|])
    ensures steps != [] && steps[|steps| - 1] == InsertMain(0)
  {
    hide Run, Kept;
    var row, key := PendingRow(0, First(contract)), First(contract);
    KeptOne(key);
    var s1 := s.(workers := s.workers[0 := Cleaned([row], 0, [key], {}, {0})]);
    var t := BatchCleaned(s, 0);
    assert s.blacklist + {} == {} && t.workers[0].rest == {0} && t.staging == s.staging;
    states, steps := Go(was, had, DeleteBlacklisted(0), s1);
    states, steps := FetchInline(states, steps, s1, contract);
    states, steps := InsertGoes(states, steps, Blacklisted(s1, contract), row, key);
  }

  /** Worker 0 sweeps nothing and inserts its one record. */
  lemma InsertGoes(was: seq<State>, had: seq<Step>, s: State, row: PendingRow, key: NftKey)
    returns (states: seq<State>, steps: seq<Step>)
    requires Run(was, had) && was[|had|] == s && 0 in s.workers && s.workers[0] == Cleaned([row], 0, [key], {}, {0})
    requires key.contract in s.blacklist
    ensures Run(states, steps) && states[0] == was[0] && !MainClean(states[|steps|])
    ensures steps != [] && steps[|steps| - 1] == InsertMain(0)
  {
    hide Run;
    var s1 := ContractsSwept(s, 0, {});
    states, steps := Go(was, had, Sweep(0, {}), s1);
    var s2 := s1.(main := s1.main + (set k | k in [key]), workers := s1.workers[0 := Inserted([row], 0, {0})]);
    states, steps := Go(states, steps, InsertMain(0), s2);
    assert key in [key] && key in s2.main && key.contract in s2.blacklist;
  }

  /** No insert at all: the contract's records were in main, a worker blacklists it and crashes
      before it can sweep. */
  lemma CrashLeavesBlacklisted(contract: string) returns (states: seq<State>, steps: seq<Step>)
    ensures Run(states, steps) && MainClean(states[0]) && !MainClean(states[|steps|])
    ensures states[|steps|].workers == map[0 := Gone, 1 := Gone]
  {
    var key := NftKey(contract, 3);
    states, steps := BothClaim(contract, {key});
    var s := BothClaimed(contract, {key});
    hide Run;
    states, steps := FetchInline(states, steps, s, contract);
    var s1 := Blacklisted(s, contract);
    var s2 := s1.(workers := s1.workers[1 := Gone]);
    states, steps := Go(states, steps, Crash(1), s2);
    var s3 := s2.(workers := s2.workers[0 := Gone]);
    states, steps := Go(states, steps, Crash(0), s3);
    assert key in s3.main && contract in s3.blacklist;
  }
}
