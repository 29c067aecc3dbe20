/** The bookkeeping of the streaming image download session: which job loads which URI,
    who waits for it, and what has become of every candidate pair. */
module DownloadState {
  import opened Wrappers
  import opened Sorting
  import opened Text

  const MAX_ATTEMPTS: nat := 2
  const READY_URI_CACHE_CAPACITY: nat := 1024

  datatype Side = A | B

  datatype Consumer = Consumer(id: nat, side: Side)

  /** An image, with the URI it was loaded from. */
  datatype Image = Image(uri: string, suffix: string)

  datatype UriState = Loading(consumers: seq<Consumer>) | Ready(image: Image)

  datatype Job = Job(uri: string, attempt: nat)

  datatype Pool = IntraChain | CrossChain

  datatype Candidate = Candidate(id: nat, pool: Pool, uriA: string, uriB: string) {
    function UriOf(side: Side): string {
      Trim(if side == A then uriA else uriB)
    }
  }

  datatype Pair = Pair(candidate: Candidate, fileA: Option<Image>, fileB: Option<Image>) {
    function File(side: Side): Option<Image> {
      if side == A then fileA else fileB
    }
  }

  datatype Staged = Staged(candidate: Candidate, fileA: Image, fileB: Image)

  datatype Report = Report(id: nat, success: bool)

  datatype Delayed = Delayed(readyAt: nat, ordinal: nat, job: Job)

  datatype State = State(
    unsent: seq<Job>,
    inFlight: seq<Job>,
    delayed: seq<Delayed>,
    uris: map<string, UriState>,
    readyOrder: seq<string>,
    pending: map<nat, Pair>,
    reports: seq<Report>,
    intra: seq<Staged>,
    cross: seq<Staged>,
    attempted: nat,
    failed: nat,
    submitted: map<nat, Candidate>)

  // ----- jobs

  function Count(jobs: seq<Job>, uri: string): nat {
    if jobs == [] then 0
    else Count(jobs[..|jobs| - 1], uri) + if jobs[|jobs| - 1].uri == uri then 1 else 0
  }

  function Waiting(delayed: seq<Delayed>): seq<Job> {
    seq(|delayed|, i requires 0 <= i < |delayed| => delayed[i].job)
  }

  /** The jobs for `uri`, wherever they are. */
  function Outstanding(s: State, uri: string): nat {
    Count(s.unsent, uri) + Count(s.inFlight, uri) + Count(Waiting(s.delayed), uri)
  }

  ghost predicate IsLoading(s: State, uri: string) {
    uri in s.uris && s.uris[uri].Loading?
  }

  ghost predicate IsReady(s: State, uri: string) {
    uri in s.uris && s.uris[uri].Ready?
  }

  ghost predicate FewAttempts(jobs: seq<Job>) {
    forall i :: 0 <= i < |jobs| ==> jobs[i].attempt < MAX_ATTEMPTS
  }

  /** A URI that is loading has exactly one job; no other URI has any. */
  ghost predicate JobsOk(s: State) {
    && (forall u :: Outstanding(s, u) == if IsLoading(s, u) then 1 else 0)
    && FewAttempts(s.unsent) && FewAttempts(s.inFlight) && FewAttempts(Waiting(s.delayed))
  }

  // ----- ready images

  ghost predicate ReadyOk(s: State) {
    && Distinct(s.readyOrder)
    && (forall u :: u in s.readyOrder <==> IsReady(s, u))
    && |s.readyOrder| <= READY_URI_CACHE_CAPACITY
    && (forall u :: IsReady(s, u) ==> s.uris[u].image.uri == u)
  }

  // ----- consumers

  ghost predicate Waits(s: State, c: Consumer, uri: string) {
    IsLoading(s, uri) && c in s.uris[uri].consumers
  }

  ghost predicate Missing(s: State, c: Consumer) {
    c.id in s.pending && s.pending[c.id].File(c.side).None?
  }

  /** Consumers wait once, where their own URI loads; and every missing side of a pending
      pair waits, but for those in `owed`, which the step under way is dealing with. */
  ghost predicate ConsumersOk(s: State, owed: set<Consumer>) {
    && (forall id :: id in s.pending ==> s.pending[id].fileA.None? || s.pending[id].fileB.None?)
    && (forall u :: IsLoading(s, u) ==> Distinct(s.uris[u].consumers))
    && (forall u, c :: Waits(s, c, u) ==>
          c.id in s.submitted && s.submitted[c.id].UriOf(c.side) == u && c !in owed
          && (c.id in s.pending ==> Missing(s, c)))
    && (forall c :: Missing(s, c) && c !in owed ==> Waits(s, c, s.pending[c.id].candidate.UriOf(c.side)))
    && (forall c :: c in owed ==> c.id in s.submitted && (c.id in s.pending ==> Missing(s, c)))
  }

  // ----- pairs

  ghost predicate Reported(reports: seq<Report>, id: nat) {
    exists i :: 0 <= i < |reports| && reports[i].id == id
  }

  ghost predicate Own(image: Image, candidate: Candidate, side: Side) {
    image.uri == candidate.UriOf(side)
  }

  ghost predicate StagedOnce(staged: seq<Staged>) {
    forall i, j :: 0 <= i < j < |staged| ==> staged[i].candidate.id != staged[j].candidate.id
  }

  ghost predicate StagedOk(s: State, staged: seq<Staged>, pool: Pool) {
    && StagedOnce(staged)
    && forall i :: 0 <= i < |staged| ==>
      && staged[i].candidate.pool == pool
      && Own(staged[i].fileA, staged[i].candidate, A) && Own(staged[i].fileB, staged[i].candidate, B)
      && Report(staged[i].candidate.id, true) in s.reports
      && staged[i].candidate.id in s.submitted && s.submitted[staged[i].candidate.id] == staged[i].candidate
  }

  /** Every submitted candidate is pending or was reported. */
  ghost predicate Accounted(s: State) {
    forall id :: id in s.submitted <==> id in s.pending || Reported(s.reports, id)
  }

  ghost predicate ReportedOnce(reports: seq<Report>) {
    forall i, j :: 0 <= i < j < |reports| ==> reports[i].id != reports[j].id
  }

  ghost predicate PendingOk(s: State) {
    forall id :: id in s.pending ==>
      && !Reported(s.reports, id) && id in s.submitted
      && s.submitted[id] == s.pending[id].candidate && s.pending[id].candidate.id == id
      && (s.pending[id].fileA.Some? ==> Own(s.pending[id].fileA.value, s.pending[id].candidate, A))
      && (s.pending[id].fileB.Some? ==> Own(s.pending[id].fileB.value, s.pending[id].candidate, B))
  }

  ghost predicate Totals(s: State) {
    && s.attempted == |s.pending| + s.failed + |s.intra| + |s.cross|
    && |s.reports| == s.failed + |s.intra| + |s.cross|
  }

  ghost predicate PairsOk(s: State) {
    Accounted(s) && ReportedOnce(s.reports) && PendingOk(s) && Totals(s)
    && StagedOk(s, s.intra, IntraChain) && StagedOk(s, s.cross, CrossChain)
  }

  ghost predicate Inv(s: State, owed: set<Consumer>) {
    JobsOk(s) && ReadyOk(s) && ConsumersOk(s, owed) && PairsOk(s)
  }

  // ----- counting jobs

  lemma {:induction false} CountJoin(a: seq<Job>, b: seq<Job>, uri: string)
    ensures Count(a + b, uri) == Count(a, uri) + Count(b, uri)
  {
    if b == [] {
      assert a + b == a;
    } else {
      assert (a + b)[..|a + b| - 1] == a + b[..|b| - 1];
      CountJoin(a, b[..|b| - 1], uri);
    }
  }

  lemma CountOne(job: Job, uri: string)
    ensures Count([job], uri) == if job.uri == uri then 1 else 0
  {
    assert [job][..0] == [];
  }

  lemma CountPush(jobs: seq<Job>, job: Job)
    ensures forall u :: Count(jobs + [job], u) == Count(jobs, u) + if job.uri == u then 1 else 0
  {
    forall u ensures Count(jobs + [job], u) == Count(jobs, u) + if job.uri == u then 1 else 0 {
      CountJoin(jobs, [job], u);
      CountOne(job, u);
    }
  }

  lemma CountTake(jobs: seq<Job>, i: nat)
    requires i < |jobs|
    ensures forall u :: Count(jobs, u) == Count(jobs[..i] + jobs[i + 1..], u) + if jobs[i].uri == u then 1 else 0
  {
    assert jobs == jobs[..i] + [jobs[i]] + jobs[i + 1..];
    forall u
      ensures Count(jobs, u) == Count(jobs[..i] + jobs[i + 1..], u) + if jobs[i].uri == u then 1 else 0
    {
      CountJoin(jobs[..i] + [jobs[i]], jobs[i + 1..], u);
      CountJoin(jobs[..i], [jobs[i]], u);
      CountJoin(jobs[..i], jobs[i + 1..], u);
      CountOne(jobs[i], u);
    }
  }

  function Take<T>(s: seq<T>, i: nat): seq<T>
    requires i < |s|
  {
    s[..i] + s[i + 1..]
  }

  lemma TakeWaiting(delayed: seq<Delayed>, i: nat)
    requires i < |delayed|
    ensures Waiting(Take(delayed, i)) == Take(Waiting(delayed), i) && Waiting(delayed)[i] == delayed[i].job
  {}

  // ----- moving jobs

  /** `pump_jobs` hands the first unsent job to the workers. */
  function Pumped(s: State): State
    requires s.unsent != []
  {
    s.(unsent := s.unsent[1..], inFlight := s.inFlight + [s.unsent[0]])
  }

  lemma PumpStep(s: State, owed: set<Consumer>)
    requires Inv(s, owed) && s.unsent != []
    ensures Inv(Pumped(s), owed)
  {
    hide Count, ReadyOk, ConsumersOk, PairsOk;
    var u := Pumped(s);
    CountTake(s.unsent, 0);
    assert Take(s.unsent, 0) == u.unsent;
    CountPush(s.inFlight, s.unsent[0]);
    forall v ensures Outstanding(u, v) == Outstanding(s, v) && IsLoading(u, v) == IsLoading(s, v) {
    }
    SameBooks(s, u, owed);
  }

  /** `submit_due_retries` makes a delayed job unsent again. */
  function Resubmitted(s: State, i: nat): State
    requires i < |s.delayed|
  {
    s.(delayed := Take(s.delayed, i), unsent := s.unsent + [s.delayed[i].job])
  }

  lemma ResubmitStep(s: State, owed: set<Consumer>, i: nat)
    requires Inv(s, owed) && i < |s.delayed|
    ensures Inv(Resubmitted(s, i), owed)
  {
    hide Count, ReadyOk, ConsumersOk, PairsOk;
    var u := Resubmitted(s, i);
    TakeWaiting(s.delayed, i);
    CountTake(Waiting(s.delayed), i);
    CountPush(s.unsent, s.delayed[i].job);
    forall v ensures Outstanding(u, v) == Outstanding(s, v) && IsLoading(u, v) == IsLoading(s, v) {
    }
    SameBooks(s, u, owed);
  }

  /** A worker asks for another attempt: the job waits for its time. */
  function Retried(s: State, i: nat, readyAt: nat, ordinal: nat): State
    requires i < |s.inFlight|
  {
    var job := s.inFlight[i];
    s.(inFlight := Take(s.inFlight, i),
       delayed := s.delayed + [Delayed(readyAt, ordinal, job.(attempt := job.attempt + 1))])
  }

  lemma RetryStep(s: State, owed: set<Consumer>, i: nat, readyAt: nat, ordinal: nat)
    requires Inv(s, owed) && i < |s.inFlight| && s.inFlight[i].attempt + 1 < MAX_ATTEMPTS
    ensures Inv(Retried(s, i, readyAt, ordinal), owed)
  {
    hide Count, ReadyOk, ConsumersOk, PairsOk;
    var u := Retried(s, i, readyAt, ordinal);
    var job := s.inFlight[i].(attempt := s.inFlight[i].attempt + 1);
    CountTake(s.inFlight, i);
    assert Waiting(u.delayed) == Waiting(s.delayed) + [job];
    CountPush(Waiting(s.delayed), job);
    forall v ensures Outstanding(u, v) == Outstanding(s, v) && IsLoading(u, v) == IsLoading(s, v) {
    }
    SameBooks(s, u, owed);
  }

  /** Where jobs wait is no matter to the rest of the books. */
  lemma SameBooks(s: State, u: State, owed: set<Consumer>)
    requires Inv(s, owed) && JobsOk(u)
    requires u.uris == s.uris && u.readyOrder == s.readyOrder && u.pending == s.pending && u.reports == s.reports
    requires u.intra == s.intra && u.cross == s.cross && u.attempted == s.attempted && u.failed == s.failed
    requires u.submitted == s.submitted
    ensures Inv(u, owed)
  {
    hide JobsOk;
    assert forall v :: IsLoading(u, v) == IsLoading(s, v) && IsReady(u, v) == IsReady(s, v);
    assert forall c, v :: Waits(u, c, v) == Waits(s, c, v);
    assert forall c :: Missing(u, c) == Missing(s, c);
  }

  // ----- submitting a candidate

  function Submitted(s: State, candidate: Candidate): State {
    s.(pending := s.pending[candidate.id := Pair(candidate, None, None)],
       attempted := s.attempted + 1,
       submitted := s.submitted[candidate.id := candidate])
  }

  lemma SubmitStep(s: State, candidate: Candidate)
    requires Inv(s, {}) && candidate.id !in s.submitted
    ensures Inv(Submitted(s, candidate), {Consumer(candidate.id, A), Consumer(candidate.id, B)})
  {
    hide JobsOk, ReadyOk, ConsumersOk, PairsOk;
    SubmitJobs(s, Submitted(s, candidate));
    SubmitConsumers(s, candidate);
    SubmitPairs(s, candidate);
  }

  lemma SubmitPairs(s: State, candidate: Candidate)
    requires PairsOk(s) && candidate.id !in s.submitted
    ensures PairsOk(Submitted(s, candidate))
  {
    hide StagedOk, Reported, ReportedOnce, Accounted, PendingOk, Totals, Submitted;
    NotSubmitted(s, candidate.id);
    SubmitPending(s, candidate);
    SubmitRest(s, candidate, s.intra, IntraChain);
    SubmitRest(s, candidate, s.cross, CrossChain);
  }

  lemma SubmitRest(s: State, candidate: Candidate, staged: seq<Staged>, pool: Pool)
    requires StagedOk(s, staged, pool) && Totals(s)
    requires candidate.id !in s.submitted && candidate.id !in s.pending
    ensures StagedOk(Submitted(s, candidate), staged, pool) && Totals(Submitted(s, candidate))
    ensures var u := Submitted(s, candidate); u.intra == s.intra && u.cross == s.cross && u.reports == s.reports
  {
    hide Reported, Own;
    var u := Submitted(s, candidate);
    assert u.pending.Keys == s.pending.Keys + {candidate.id};
  }

  lemma NotSubmitted(s: State, id: nat)
    requires Accounted(s) && id !in s.submitted
    ensures id !in s.pending && !Reported(s.reports, id)
  {}

  lemma SubmitPending(s: State, candidate: Candidate)
    requires Accounted(s) && PendingOk(s) && !Reported(s.reports, candidate.id)
    ensures Accounted(Submitted(s, candidate)) && PendingOk(Submitted(s, candidate))
  {
    hide Reported, Own;
  }

  /** Ready and loading URIs do not change with the candidates. */
  lemma SubmitJobs(s: State, u: State)
    requires JobsOk(s) && ReadyOk(s)
    requires u.unsent == s.unsent && u.inFlight == s.inFlight && u.delayed == s.delayed
    requires u.uris == s.uris && u.readyOrder == s.readyOrder
    ensures JobsOk(u) && ReadyOk(u)
  {
    hide Count;
    forall v ensures Outstanding(u, v) == Outstanding(s, v) && IsLoading(u, v) == IsLoading(s, v) {
    }
  }

  lemma SubmitConsumers(s: State, candidate: Candidate)
    requires ConsumersOk(s, {}) && PairsOk(s) && candidate.id !in s.submitted
    ensures ConsumersOk(Submitted(s, candidate), {Consumer(candidate.id, A), Consumer(candidate.id, B)})
  {
    hide Count, StagedOk;
    var u := Submitted(s, candidate);
    var owed := {Consumer(candidate.id, A), Consumer(candidate.id, B)};
    forall c, v ensures Waits(u, c, v) <==> Waits(s, c, v) {
    }
    forall c: Consumer | c.id == candidate.id ensures c in owed && Missing(u, c) {
      match c.side
      case A =>
      case B =>
    }
    forall c: Consumer | c.id != candidate.id ensures c !in owed && Missing(u, c) == Missing(s, c) {
    }
  }

  lemma StagedStays(s: State, u: State, staged: seq<Staged>, pool: Pool)
    requires StagedOk(s, staged, pool)
    requires forall r :: r in s.reports ==> r in u.reports
    requires forall id :: id in s.submitted ==> id in u.submitted && u.submitted[id] == s.submitted[id]
    ensures StagedOk(u, staged, pool)
  {}

  // ----- waiting for an image

  function Joined(s: State, uri: string, c: Consumer): State
    requires uri in s.uris && s.uris[uri].Loading?
  {
    s.(uris := s.uris[uri := Loading(s.uris[uri].consumers + [c])])
  }

  /** What adding a consumer to a URI changes for the other consumers. */
  lemma WaitingOneMore(s: State, u: State, owed: set<Consumer>, uri: string, c: Consumer, rest: seq<Consumer>)
    requires ConsumersOk(s, owed) && c in owed && s.submitted[c.id].UriOf(c.side) == uri
    requires u.pending == s.pending && u.submitted == s.submitted
    requires u.uris == s.uris[uri := Loading(rest + [c])]
    requires if IsLoading(s, uri) then rest == s.uris[uri].consumers else rest == [] && uri !in s.uris
    requires forall id :: id in s.pending ==> id in s.submitted && s.submitted[id] == s.pending[id].candidate
    ensures ConsumersOk(u, owed - {c})
  {
    forall d, v ensures Waits(u, d, v) <==> Waits(s, d, v) || (d == c && v == uri) {
      if v == uri && Waits(s, d, v) {
        assert d in rest + [c];
      }
    }
    forall d ensures Missing(u, d) == Missing(s, d) {
    }
    forall v | IsLoading(u, v) ensures Distinct(u.uris[v].consumers) {
      if v == uri {
        assert c in rest ==> Waits(s, c, uri);
      } else {
        assert IsLoading(s, v);
      }
    }
  }

  lemma PendingSubmitted(s: State)
    requires PairsOk(s)
    ensures forall id :: id in s.pending ==> id in s.submitted && s.submitted[id] == s.pending[id].candidate
  {}

  lemma JoinStep(s: State, owed: set<Consumer>, uri: string, c: Consumer)
    requires Inv(s, owed) && c in owed && s.submitted[c.id].UriOf(c.side) == uri && IsLoading(s, uri)
    ensures Inv(Joined(s, uri, c), owed - {c})
  {
    hide ConsumersOk, PairsOk, Count;
    var u := Joined(s, uri, c);
    PendingSubmitted(s);
    WaitingOneMore(s, u, owed, uri, c, s.uris[uri].consumers);
    forall v
      ensures Outstanding(u, v) == Outstanding(s, v)
      ensures IsLoading(u, v) == IsLoading(s, v) && IsReady(u, v) == IsReady(s, v)
      ensures IsReady(u, v) ==> u.uris[v] == s.uris[v]
    {
    }
    SamePairs(s, u);
  }

  lemma SamePairs(s: State, u: State)
    requires PairsOk(s) && u.pending == s.pending && u.reports == s.reports && u.submitted == s.submitted
    requires u.intra == s.intra && u.cross == s.cross && u.attempted == s.attempted && u.failed == s.failed
    ensures PairsOk(u)
  {}

  /** The first consumer of an uncached URI starts its one job. */
  function Started(s: State, uri: string, c: Consumer): State {
    s.(uris := s.uris[uri := Loading([c])], unsent := s.unsent + [Job(uri, 0)])
  }

  lemma StartStep(s: State, owed: set<Consumer>, uri: string, c: Consumer)
    requires Inv(s, owed) && c in owed && s.submitted[c.id].UriOf(c.side) == uri && uri !in s.uris
    ensures Inv(Started(s, uri, c), owed - {c})
  {
    hide ConsumersOk, PairsOk, Count;
    var u := Started(s, uri, c);
    PendingSubmitted(s);
    assert [] + [c] == [c];
    WaitingOneMore(s, u, owed, uri, c, []);
    CountPush(s.unsent, Job(uri, 0));
    forall v
      ensures Outstanding(u, v) == if IsLoading(u, v) then 1 else 0
      ensures IsReady(u, v) == IsReady(s, v) && (IsReady(u, v) ==> u.uris[v] == s.uris[v])
    {
      assert Outstanding(s, v) == if IsLoading(s, v) then 1 else 0;
    }
    SamePairs(s, u);
  }

  // ----- an image becomes ready

  /** `remember_ready_uri`: the newest image is kept, the oldest goes when there are too
      many. */
  function Remembered(s: State, uri: string, image: Image): State {
    var u := s.(uris := s.uris[uri := Ready(image)], readyOrder := s.readyOrder + [uri]);
    if |u.readyOrder| > READY_URI_CACHE_CAPACITY then Forgotten(u) else u
  }

  function Forgotten(s: State): State
    requires s.readyOrder != []
  {
    s.(uris := s.uris - {s.readyOrder[0]}, readyOrder := s.readyOrder[1..])
  }

  /** The 1024 images that became ready last stay so; the one before them is forgotten. */
  lemma RememberMeans(s: State, uri: string, image: Image)
    requires ReadyOk(s) && uri !in s.uris
    ensures var u := Remembered(s, uri, image);
            && u.readyOrder == (if |s.readyOrder| < 1024 then s.readyOrder else s.readyOrder[1..]) + [uri]
            && (forall v :: v in u.uris <==> v == uri || (v in s.uris && (|s.readyOrder| < 1024 || v != s.readyOrder[0])))
            && u.uris[uri] == Ready(image) && (forall v :: v in u.uris && v != uri ==> u.uris[v] == s.uris[v])
  {
    assert s.readyOrder != [] ==> s.readyOrder[0] in s.readyOrder;
  }

  ghost predicate ReadyListed(s: State) {
    && Distinct(s.readyOrder)
    && (forall u :: u in s.readyOrder <==> IsReady(s, u))
    && (forall u :: IsReady(s, u) ==> s.uris[u].image.uri == u)
  }

  ghost predicate SameLoading(s: State, u: State) {
    forall v :: IsLoading(u, v) == IsLoading(s, v) && (IsLoading(s, v) ==> u.uris[v] == s.uris[v])
  }

  lemma RememberNew(s: State, uri: string, image: Image)
    requires ReadyListed(s) && uri !in s.uris && image.uri == uri
    ensures var u := s.(uris := s.uris[uri := Ready(image)], readyOrder := s.readyOrder + [uri]);
            ReadyListed(u) && IsReady(u, uri) && SameLoading(s, u)
  {
    var u := s.(uris := s.uris[uri := Ready(image)], readyOrder := s.readyOrder + [uri]);
    assert uri !in s.readyOrder;
    forall v
      ensures v in u.readyOrder <==> v in s.readyOrder || v == uri
      ensures IsReady(u, v) <==> IsReady(s, v) || v == uri
    {
    }
  }

  lemma ForgetOldest(s: State)
    requires ReadyListed(s) && s.readyOrder != []
    ensures ReadyListed(Forgotten(s)) && SameLoading(s, Forgotten(s))
    ensures forall v :: IsReady(s, v) && v != s.readyOrder[0] ==> IsReady(Forgotten(s), v)
  {
    var u, oldest, rest := Forgotten(s), s.readyOrder[0], s.readyOrder[1..];
    assert s.readyOrder == [oldest] + rest && IsReady(s, oldest) && oldest !in rest;
    forall v
      ensures v in s.readyOrder <==> v in rest || v == oldest
      ensures IsReady(u, v) <==> IsReady(s, v) && v != oldest
    {
    }
  }

  lemma RememberReady(s: State, uri: string, image: Image)
    requires ReadyOk(s) && uri !in s.uris && image.uri == uri
    ensures var u := Remembered(s, uri, image);
            ReadyOk(u) && IsReady(u, uri) && SameLoading(s, u)
  {
    var u := s.(uris := s.uris[uri := Ready(image)], readyOrder := s.readyOrder + [uri]);
    RememberNew(s, uri, image);
    if |u.readyOrder| > READY_URI_CACHE_CAPACITY {
      ForgetOldest(u);
      assert u.readyOrder[0] == s.readyOrder[0] && s.readyOrder[0] in s.readyOrder;
    }
  }

  lemma RememberStep(s: State, owed: set<Consumer>, uri: string, image: Image)
    requires Inv(s, owed) && uri !in s.uris && image.uri == uri
    ensures Inv(Remembered(s, uri, image), owed) && IsReady(Remembered(s, uri, image), uri)
    ensures Remembered(s, uri, image).uris[uri] == Ready(image) && Remembered(s, uri, image).submitted == s.submitted
  {
    hide ConsumersOk, PairsOk, Count, ReadyOk;
    var u := Remembered(s, uri, image);
    RememberReady(s, uri, image);
    forall v ensures Outstanding(u, v) == Outstanding(s, v) && IsLoading(u, v) == IsLoading(s, v) {
    }
    SameConsumers(s, u, owed);
    SamePairs(s, u);
  }

  /** Only the loading URIs matter to the consumers. */
  lemma SameConsumers(s: State, u: State, owed: set<Consumer>)
    requires ConsumersOk(s, owed) && u.pending == s.pending && u.submitted == s.submitted
    requires SameLoading(s, u)
    ensures ConsumersOk(u, owed)
  {
    assert forall c, v :: Waits(u, c, v) == Waits(s, c, v);
    assert forall c :: Missing(u, c) == Missing(s, c);
  }

  // ----- a job completes

  /** A job that completed is gone, and so is its URI's loading state: its consumers are
      now owed their image or its error. */
  function Finished(s: State, i: nat): State
    requires i < |s.inFlight|
  {
    s.(inFlight := Take(s.inFlight, i), uris := s.uris - {s.inFlight[i].uri})
  }

  function Members(cs: seq<Consumer>): set<Consumer> {
    set c | c in cs
  }

  lemma {:induction false} CountsItself(jobs: seq<Job>, i: nat)
    requires i < |jobs|
    ensures Count(jobs, jobs[i].uri) >= 1
  {
    if i < |jobs| - 1 {
      CountsItself(jobs[..|jobs| - 1], i);
    }
  }

  lemma FinishStep(s: State, i: nat)
    requires Inv(s, {}) && i < |s.inFlight|
    ensures var uri := s.inFlight[i].uri;
            && IsLoading(s, uri) && Distinct(s.uris[uri].consumers)
            && Inv(Finished(s, i), Members(s.uris[uri].consumers))
            && (forall c :: c in s.uris[uri].consumers ==>
                  c.id in s.submitted && s.submitted[c.id].UriOf(c.side) == uri)
  {
    hide PairsOk, Count;
    var uri := s.inFlight[i].uri;
    var u := Finished(s, i);
    CountsItself(s.inFlight, i);
    assert Outstanding(s, uri) == if IsLoading(s, uri) then 1 else 0;
    CountTake(s.inFlight, i);
    forall v
      ensures Outstanding(u, v) == if IsLoading(u, v) then 1 else 0
      ensures IsReady(u, v) == IsReady(s, v) && (IsReady(s, v) ==> u.uris[v] == s.uris[v])
    {
      assert Outstanding(s, v) == if IsLoading(s, v) then 1 else 0;
    }
    FinishConsumers(s, u, uri);
    SamePairs(s, u);
  }

  lemma FinishConsumers(s: State, u: State, uri: string)
    requires ConsumersOk(s, {}) && PairsOk(s) && IsLoading(s, uri) && u.uris == s.uris - {uri}
    requires u.pending == s.pending && u.submitted == s.submitted
    ensures ConsumersOk(u, Members(s.uris[uri].consumers))
    ensures forall c :: c in s.uris[uri].consumers ==>
              c.id in s.submitted && s.submitted[c.id].UriOf(c.side) == uri
  {
    var owed := Members(s.uris[uri].consumers);
    forall c, v ensures Waits(u, c, v) <==> Waits(s, c, v) && v != uri {
    }
    forall c ensures Missing(u, c) == Missing(s, c) && (c in owed <==> Waits(s, c, uri)) {
    }
    forall v | IsLoading(u, v) ensures IsLoading(s, v) && u.uris[v] == s.uris[v] {
    }
  }

  // ----- an image, or the failure to get it, reaches a consumer

  function Failed(s: State, id: nat): State {
    s.(pending := s.pending - {id}, reports := s.reports + [Report(id, false)], failed := s.failed + 1)
  }

  function Filled(pair: Pair, side: Side, image: Image): Pair {
    if side == A then pair.(fileA := Some(image)) else pair.(fileB := Some(image))
  }

  function Completed(s: State, id: nat, pair: Pair): State
    requires pair.fileA.Some? && pair.fileB.Some?
  {
    var staged := Staged(pair.candidate, pair.fileA.value, pair.fileB.value);
    var u := s.(pending := s.pending - {id}, reports := s.reports + [Report(id, true)]);
    match pair.candidate.pool
    case IntraChain => u.(intra := s.intra + [staged])
    case CrossChain => u.(cross := s.cross + [staged])
  }

  /** `deliver_image`, with `None` for an error. */
  function Delivered(s: State, c: Consumer, image: Option<Image>): State {
    if c.id !in s.pending then s
    else if image.None? then Failed(s, c.id)
    else
      var pair := Filled(s.pending[c.id], c.side, image.value);
      if pair.fileA.None? || pair.fileB.None? then s.(pending := s.pending[c.id := pair])
      else Completed(s, c.id, pair)
  }

  lemma DeliverStep(s: State, owed: set<Consumer>, c: Consumer, image: Option<Image>)
    requires Inv(s, owed) && c in owed
    requires image.Some? ==> image.value.uri == s.submitted[c.id].UriOf(c.side)
    ensures Inv(Delivered(s, c, image), owed - {c})
    ensures Delivered(s, c, image).submitted == s.submitted && Delivered(s, c, image).uris == s.uris
  {
    hide JobsOk, ReadyOk, ConsumersOk, PairsOk;
    OwedSubmitted(s, owed, c);
    var u := Delivered(s, c, image);
    SubmitJobs(s, u);
    DeliverConsumers(s, owed, c, image);
    DeliverPairs(s, owed, c, image);
  }

  lemma OwedSubmitted(s: State, owed: set<Consumer>, c: Consumer)
    requires ConsumersOk(s, owed) && c in owed
    ensures c.id in s.submitted
  {}

  lemma DeliverConsumers(s: State, owed: set<Consumer>, c: Consumer, image: Option<Image>)
    requires ConsumersOk(s, owed) && c in owed
    ensures ConsumersOk(Delivered(s, c, image), owed - {c})
  {
    var u := Delivered(s, c, image);
    DeliveredSides(s, c, image);
    hide Delivered;
    forall d, v ensures Waits(u, d, v) == Waits(s, d, v) {
    }
  }

  /** Delivering to `c` settles that side of its pair, or the whole pair, and no other. */
  lemma DeliveredSides(s: State, c: Consumer, image: Option<Image>)
    requires forall id :: id in s.pending ==> s.pending[id].fileA.None? || s.pending[id].fileB.None?
    requires c.id in s.pending ==> Missing(s, c)
    ensures var u := Delivered(s, c, image);
            && u.uris == s.uris && u.submitted == s.submitted && !Missing(u, c)
            && (forall id :: id in u.pending ==> u.pending[id].fileA.None? || u.pending[id].fileB.None?)
            && (forall d: Consumer :: d.id in u.pending ==>
                  && d.id in s.pending && u.pending[d.id].candidate == s.pending[d.id].candidate
                  && (Missing(u, d) <==> Missing(s, d) && d != c))
  {}

  /** A pending candidate is reported: it leaves the pending pairs for good. */
  lemma ReportStep(s: State, u: State, r: Report)
    requires Accounted(s) && ReportedOnce(s.reports) && PendingOk(s) && r.id in s.pending
    requires u.pending == s.pending - {r.id} && u.reports == s.reports + [r] && u.submitted == s.submitted
    ensures Accounted(u) && ReportedOnce(u.reports) && PendingOk(u) && |u.pending| == |s.pending| - 1
    ensures r in u.reports && forall x :: x in s.reports ==> x in u.reports
  {
    assert u.pending.Keys == s.pending.Keys - {r.id};
    assert u.reports[|s.reports|] == r;
    forall x | x in s.reports ensures x in u.reports {
      var i :| 0 <= i < |s.reports| && s.reports[i] == x;
      assert u.reports[i] == x;
    }
    forall id ensures Reported(u.reports, id) <==> Reported(s.reports, id) || id == r.id {
      if Reported(s.reports, id) {
        var i :| 0 <= i < |s.reports| && s.reports[i].id == id;
        assert u.reports[i].id == id;
      }
    }
  }

  lemma FailPairs(s: State, id: nat)
    requires PairsOk(s) && id in s.pending
    ensures PairsOk(Failed(s, id))
  {
    hide StagedOk, Accounted, PendingOk, ReportedOnce;
    var u := Failed(s, id);
    ReportStep(s, u, Report(id, false));
    StagedStays(s, u, s.intra, IntraChain);
    StagedStays(s, u, s.cross, CrossChain);
  }

  lemma FillPairs(s: State, c: Consumer, image: Image)
    requires PairsOk(s) && c.id in s.pending && image.uri == s.pending[c.id].candidate.UriOf(c.side)
    ensures PairsOk(s.(pending := s.pending[c.id := Filled(s.pending[c.id], c.side, image)]))
  {
    hide StagedOk, ReportedOnce, Reported, Accounted, PendingOk;
    FillPending(s, c, image);
    var u := s.(pending := s.pending[c.id := Filled(s.pending[c.id], c.side, image)]);
    assert u.pending.Keys == s.pending.Keys;
    StagedStays(s, u, s.intra, IntraChain);
    StagedStays(s, u, s.cross, CrossChain);
  }

  lemma FillPending(s: State, c: Consumer, image: Image)
    requires Accounted(s) && PendingOk(s)
    requires c.id in s.pending && image.uri == s.pending[c.id].candidate.UriOf(c.side)
    ensures var u := s.(pending := s.pending[c.id := Filled(s.pending[c.id], c.side, image)]);
            Accounted(u) && PendingOk(u)
  {
    hide Reported;
  }

  lemma StagedPushed(s: State, staged: seq<Staged>, pool: Pool, x: Staged)
    requires StagedOk(s, staged, pool) && x.candidate.pool == pool
    requires Own(x.fileA, x.candidate, A) && Own(x.fileB, x.candidate, B)
    requires Report(x.candidate.id, true) in s.reports
    requires x.candidate.id in s.submitted && s.submitted[x.candidate.id] == x.candidate
    requires forall i :: 0 <= i < |staged| ==> staged[i].candidate.id != x.candidate.id
    ensures StagedOk(s, staged + [x], pool)
  {}

  lemma StagedReported(s: State, staged: seq<Staged>, pool: Pool)
    requires StagedOk(s, staged, pool)
    ensures forall i :: 0 <= i < |staged| ==> Reported(s.reports, staged[i].candidate.id)
  {
    forall i | 0 <= i < |staged| ensures Reported(s.reports, staged[i].candidate.id) {
      var r :| 0 <= r < |s.reports| && s.reports[r] == Report(staged[i].candidate.id, true);
    }
  }

  lemma CompletePairs(s: State, id: nat)
    requires PairsOk(s) && id in s.pending && s.pending[id].fileA.Some? && s.pending[id].fileB.Some?
    ensures PairsOk(Completed(s, id, s.pending[id]))
  {
    var pair := s.pending[id];
    assert pair.candidate.id == id && s.submitted[id] == pair.candidate;
    assert Own(pair.fileA.value, pair.candidate, A) && Own(pair.fileB.value, pair.candidate, B);
    StagedReported(s, s.intra, IntraChain);
    StagedReported(s, s.cross, CrossChain);
    hide StagedOk, Accounted, PendingOk, ReportedOnce, Own, Reported;
    var u := Completed(s, id, pair);
    ReportStep(s, u, Report(id, true));
    StagedStays(s, u, s.intra, IntraChain);
    StagedStays(s, u, s.cross, CrossChain);
    var x := Staged(pair.candidate, pair.fileA.value, pair.fileB.value);
    match pair.candidate.pool
    case IntraChain => StagedPushed(u, s.intra, IntraChain, x);
    case CrossChain => StagedPushed(u, s.cross, CrossChain, x);
  }

  lemma DeliverPairs(s: State, owed: set<Consumer>, c: Consumer, image: Option<Image>)
    requires PairsOk(s)
    requires image.Some? ==> c.id in s.submitted && image.value.uri == s.submitted[c.id].UriOf(c.side)
    ensures PairsOk(Delivered(s, c, image))
  {
    if c.id in s.pending {
      assert c.id in s.submitted && s.submitted[c.id] == s.pending[c.id].candidate;
      hide PairsOk;
      if image.None? {
        FailPairs(s, c.id);
      } else {
        FillPairs(s, c, image.value);
        var pair := Filled(s.pending[c.id], c.side, image.value);
        if pair.fileA.Some? && pair.fileB.Some? {
          var u := s.(pending := s.pending[c.id := pair]);
          assert u.pending - {c.id} == s.pending - {c.id};
          CompletePairs(u, c.id);
        }
      }
    }
  }
}
