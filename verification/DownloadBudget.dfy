/** How many more answers of the workers a download session can take. */
module DownloadBudget {
  import opened DownloadState

  /** The attempts that jobs have left. */
  function AttemptsLeft(jobs: seq<Job>): nat {
    if jobs == [] then 0
    else
      var last := jobs[|jobs| - 1];
      AttemptsLeft(jobs[..|jobs| - 1]) + if last.attempt < MAX_ATTEMPTS then MAX_ATTEMPTS - last.attempt else 0
  }

  /** The attempts left to the jobs outstanding. */
  function Budget(s: State): nat {
    AttemptsLeft(s.unsent) + AttemptsLeft(s.inFlight) + AttemptsLeft(Waiting(s.delayed))
  }

  /** Nothing is queued, in flight or delayed. */
  predicate Idle(s: State) {
    s.unsent == [] && s.inFlight == [] && s.delayed == []
  }

  lemma {:induction false} LeftJoin(a: seq<Job>, b: seq<Job>)
    ensures AttemptsLeft(a + b) == AttemptsLeft(a) + AttemptsLeft(b)
  {
    if b == [] {
      assert a + b == a;
    } else {
      assert (a + b)[..|a + b| - 1] == a + b[..|b| - 1];
      LeftJoin(a, b[..|b| - 1]);
    }
  }

  lemma LeftOne(job: Job)
    requires job.attempt < MAX_ATTEMPTS
    ensures AttemptsLeft([job]) == MAX_ATTEMPTS - job.attempt
  {
    assert [job][..0] == [];
  }

  lemma LeftTake(jobs: seq<Job>, i: nat)
    requires i < |jobs| && FewAttempts(jobs)
    ensures AttemptsLeft(jobs) == AttemptsLeft(Take(jobs, i)) + MAX_ATTEMPTS - jobs[i].attempt
  {
    assert jobs == jobs[..i] + [jobs[i]] + jobs[i + 1..];
    LeftJoin(jobs[..i] + [jobs[i]], jobs[i + 1..]);
    LeftJoin(jobs[..i], [jobs[i]]);
    LeftJoin(jobs[..i], jobs[i + 1..]);
    LeftOne(jobs[i]);
  }

  /** Every job has an attempt left. */
  lemma {:induction false} LeftAtLeast(jobs: seq<Job>)
    requires FewAttempts(jobs)
    ensures |jobs| <= AttemptsLeft(jobs) <= MAX_ATTEMPTS * |jobs|
  {
    if jobs != [] {
      LeftAtLeast(jobs[..|jobs| - 1]);
    }
  }

  /** The budget is used up exactly when the session is idle, and never exceeds twice the
      jobs outstanding. */
  lemma BudgetMeans(s: State, owed: set<Consumer>)
    requires Inv(s, owed)
    ensures Budget(s) == 0 <==> Idle(s)
    ensures Budget(s) <= 2 * (|s.unsent| + |s.inFlight| + |s.delayed|)
  {
    hide Count, ReadyOk, ConsumersOk, PairsOk, AttemptsLeft;
    LeftAtLeast(s.unsent);
    LeftAtLeast(s.inFlight);
    LeftAtLeast(Waiting(s.delayed));
    assert Waiting(s.delayed) == [] <==> s.delayed == [];
  }

  /** Sending a job to the workers costs nothing. */
  lemma PumpBudget(s: State, owed: set<Consumer>)
    requires Inv(s, owed) && s.unsent != []
    ensures Budget(Pumped(s)) == Budget(s)
  {
    hide Count, ReadyOk, ConsumersOk, PairsOk, AttemptsLeft;
    LeftTake(s.unsent, 0);
    assert Take(s.unsent, 0) == s.unsent[1..];
    LeftJoin(s.inFlight, [s.unsent[0]]);
    LeftOne(s.unsent[0]);
  }

  /** Nor does queueing a retry that is due. */
  lemma ResubmitBudget(s: State, owed: set<Consumer>, i: nat)
    requires Inv(s, owed) && i < |s.delayed|
    ensures Budget(Resubmitted(s, i)) == Budget(s)
  {
    hide Count, ReadyOk, ConsumersOk, PairsOk, AttemptsLeft;
    TakeWaiting(s.delayed, i);
    LeftTake(Waiting(s.delayed), i);
    LeftJoin(s.unsent, [s.delayed[i].job]);
    assert Waiting(s.delayed)[i].attempt < MAX_ATTEMPTS;
    LeftOne(s.delayed[i].job);
  }

  /** An answer that asks for another attempt costs one. */
  lemma RetryBudget(s: State, owed: set<Consumer>, i: nat, readyAt: nat, ordinal: nat)
    requires Inv(s, owed) && i < |s.inFlight| && s.inFlight[i].attempt + 1 < MAX_ATTEMPTS
    ensures Budget(Retried(s, i, readyAt, ordinal)) + 1 == Budget(s)
  {
    hide Count, ReadyOk, ConsumersOk, PairsOk, AttemptsLeft;
    var job := s.inFlight[i].(attempt := s.inFlight[i].attempt + 1);
    LeftTake(s.inFlight, i);
    assert Waiting(s.delayed + [Delayed(readyAt, ordinal, job)]) == Waiting(s.delayed) + [job];
    LeftJoin(Waiting(s.delayed), [job]);
    LeftOne(job);
  }

  /** A job that ends takes with it what it had left. */
  lemma FinishBudget(s: State, owed: set<Consumer>, i: nat, u: State)
    requires Inv(s, owed) && i < |s.inFlight|
    requires u.unsent == s.unsent && u.inFlight == Take(s.inFlight, i) && u.delayed == s.delayed
    ensures Budget(u) + MAX_ATTEMPTS - s.inFlight[i].attempt == Budget(s) && Budget(u) < Budget(s)
  {
    hide Count, ReadyOk, ConsumersOk, PairsOk, AttemptsLeft;
    LeftTake(s.inFlight, i);
    assert s.inFlight[i].attempt < MAX_ATTEMPTS;
  }
}
