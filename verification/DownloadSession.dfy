/** The streaming download session itself: candidates are submitted, workers answer in any
    order, and every candidate is reported once. */
module DownloadSession {
  import opened Wrappers
  import opened Sorting
  import opened Text
  import opened DownloadState
  import opened DownloadBudget
  import opened DownloadAnswers

  /** What the image cache on disk says of a URI. */
  datatype Lookup = Hit(suffix: string) | Miss | Unreadable

  /** How an attempt to fetch an image ends. */
  datatype Response = Fetched(suffix: string) | Temporary(delay: nat) | Permanent

  /** What a worker sends back. */
  datatype Outcome = Complete(image: Option<Image>) | Retry(job: Job, readyAt: nat)

  /** One turn of the receiving loop: the time, the free room in the workers' queue, and a
      number that picks the job in flight a worker answers for, if any does before the
      time-out. */
  datatype Turn = Turn(now: nat, room: nat, answer: Option<nat>, response: Response)

  /** `image_download_worker`: a temporary failure is worth another attempt unless this was
      the last one. */
  function Attempt(job: Job, response: Response, now: nat): (r: Outcome)
    ensures r.Retry? <==> response.Temporary? && job.attempt < 1
    ensures r.Retry? ==> r.job.uri == job.uri && r.job.attempt == job.attempt + 1 && r.readyAt >= now
    ensures r.Complete? && r.image.Some? <==> response.Fetched?
    ensures r.Complete? && r.image.Some? ==> r.image.value.uri == job.uri
  {
    match response
    case Fetched(suffix) => Complete(Some(Image(job.uri, suffix)))
    case Permanent => Complete(None)
    case Temporary(delay) =>
      if job.attempt + 1 < MAX_ATTEMPTS then Retry(job.(attempt := job.attempt + 1), now + delay)
      else Complete(None)
  }

  /** The retry order of the heap: the earliest first, then the one queued first. */
  predicate Sooner(x: Delayed, y: Delayed) {
    x.readyAt < y.readyAt || (x.readyAt == y.readyAt && x.ordinal <= y.ordinal)
  }

  /** When a retry that a turn asks for is due. */
  function DueAgain(turn: Turn): nat {
    match turn.response
    case Temporary(delay) => turn.now + delay
    case _ => turn.now
  }

  /** Turns that do not keep the session waiting: the workers' queue has room, a worker
      answers if a job is in flight, and every retry is due by the turns that follow. */
  ghost predicate Prompt(delayed: seq<Delayed>, turns: seq<Turn>) {
    && (forall n :: 0 <= n < |turns| ==> turns[n].room > 0 && turns[n].answer.Some?)
    && (forall d, n :: d in delayed && 0 <= n < |turns| ==> d.readyAt <= turns[n].now)
    && (forall m, n :: 0 <= m < n < |turns| ==> DueAgain(turns[m]) <= turns[n].now)
  }

  /** As long as a pair is pending some job is under way; so an idle session has reported
      every candidate, and each once. */
  lemma IdleMeansDone(s: State)
    requires Inv(s, {}) && Idle(s)
    ensures s.pending == map[] && s.attempted == |s.reports| && ReportedOnce(s.reports)
    ensures forall id :: id in s.submitted <==> Reported(s.reports, id)
  {
    hide ConsumersOk, ReadyOk, Reported, ReportedOnce, JobsOk, PendingOk, StagedOk;
    forall id ensures id !in s.pending {
      if id in s.pending {
        NotComplete(s, id);
      }
    }
    assert s.pending == map[];
  }

  /** A pending pair lacks a side, and that side's URI has its job. */
  lemma NotComplete(s: State, id: nat)
    requires Inv(s, {}) && id in s.pending
    ensures exists side :: Missing(s, Consumer(id, side))
                           && Outstanding(s, s.pending[id].candidate.UriOf(side)) == 1
  {
    var c := Consumer(id, if s.pending[id].fileA.None? then A else B);
    hide ReadyOk, PairsOk, Count;
    assert Missing(s, c) && Waits(s, c, s.pending[id].candidate.UriOf(c.side));
  }

  lemma LandStep(s: State, i: nat, image: Option<Image>)
    requires Inv(s, {}) && i < |s.inFlight| && (image.Some? ==> image.value.uri == s.inFlight[i].uri)
    ensures var uri := s.inFlight[i].uri;
            && IsLoading(s, uri) && Distinct(s.uris[uri].consumers)
            && Inv(Landed(s, i, image), Members(s.uris[uri].consumers))
            && Landed(s, i, image).submitted == s.submitted
            && (forall c :: c in s.uris[uri].consumers ==>
                  c.id in s.submitted && s.submitted[c.id].UriOf(c.side) == uri)
  {
    hide Inv, Forgotten;
    var uri := s.inFlight[i].uri;
    FinishStep(s, i);
    if image.Some? {
      RememberStep(Finished(s, i), Members(s.uris[uri].consumers), uri, image.value);
    }
  }

  lemma {:induction false} DeliveredAllJobs(s: State, cs: seq<Consumer>, image: Option<Image>, stored: Consumer -> bool)
    ensures var u := DeliveredAll(s, cs, image, stored);
            u.unsent == s.unsent && u.inFlight == s.inFlight && u.delayed == s.delayed
  {
    if cs != [] {
      DeliveredAllJobs(s, cs[..|cs| - 1], image, stored);
    }
  }

  /** Completing a job uses up what it had left. */
  lemma CompletedBudget(s: State, i: nat, image: Option<Image>, cs: seq<Consumer>, stored: Consumer -> bool)
    requires Inv(s, {}) && i < |s.inFlight|
    ensures var u := DeliveredAll(Landed(s, i, image), cs, image, stored);
            Budget(u) < Budget(s) && u.delayed == s.delayed
  {
    var u := DeliveredAll(Landed(s, i, image), cs, image, stored);
    DeliveredAllJobs(Landed(s, i, image), cs, image, stored);
    hide Inv, Budget;
    FinishBudget(s, {}, i, u);
  }

  lemma {:induction false} DeliverAllStep(s: State, cs: seq<Consumer>, image: Option<Image>,
                                          stored: Consumer -> bool, uri: string)
    requires Inv(s, Members(cs)) && Distinct(cs)
    requires forall c :: c in cs ==> c.id in s.submitted && s.submitted[c.id].UriOf(c.side) == uri
    requires image.Some? ==> image.value.uri == uri
    ensures Inv(DeliveredAll(s, cs, image, stored), {})
    ensures DeliveredAll(s, cs, image, stored).submitted == s.submitted
  {
    DeliverPrefix(s, cs, |cs|, image, stored, uri);
    assert cs[..|cs|] == cs && Members(cs[|cs|..]) == {};
  }

  lemma {:induction false} DeliverPrefix(s: State, cs: seq<Consumer>, n: nat, image: Option<Image>,
                                         stored: Consumer -> bool, uri: string)
    requires n <= |cs| && Inv(s, Members(cs)) && Distinct(cs)
    requires forall c :: c in cs ==> c.id in s.submitted && s.submitted[c.id].UriOf(c.side) == uri
    requires image.Some? ==> image.value.uri == uri
    ensures Inv(DeliveredAll(s, cs[..n], image, stored), Members(cs[n..]))
    ensures DeliveredAll(s, cs[..n], image, stored).submitted == s.submitted
  {
    hide Inv, Delivered;
    if n == 0 {
      assert cs[0..] == cs;
    } else {
      DeliverPrefix(s, cs, n - 1, image, stored, uri);
      var c := cs[n - 1];
      assert cs[..n][..n - 1] == cs[..n - 1] && cs[..n][n - 1] == c;
      assert cs[n - 1..] == [c] + cs[n..];
      assert Members(cs[n - 1..]) - {c} == Members(cs[n..]) by {
        assert c !in cs[n..];
      }
      DeliverStep(DeliveredAll(s, cs[..n - 1], image, stored), Members(cs[n - 1..]), c,
                  if stored(c) then image else None);
    }
  }

  /** What a worker's answer does. An image goes to every waiting side, where it can be
      stored, and stays ready; a temporary failure leaves everything as it was but for the
      job, which gets its second and last attempt later; any other failure gives up every
      pair that waits. */
  ghost predicate Answered(s: State, job: Job, response: Response, now: nat, ordinal: nat, stored: Consumer -> bool, u: State)
    requires job.uri in s.uris && s.uris[job.uri].Loading?
  {
    var waiting := set c | c in s.uris[job.uri].consumers;
    if response.Fetched? then
      && OnlyPending(s, u) && job.uri in u.uris && u.uris[job.uri] == Ready(Image(job.uri, response.suffix))
      && forall id :: id in s.pending ==> Fate(s, u, waiting, Some(Image(job.uri, response.suffix)), stored, id)
    else if response.Temporary? && job.attempt == 0 then
      && u.unsent == s.unsent && u.uris == s.uris && u.pending == s.pending && u.reports == s.reports
      && u.intra == s.intra && u.cross == s.cross
      && u.delayed == s.delayed + [Delayed(now + response.delay, ordinal, Job(job.uri, 1))]
    else
      && OnlyPending(s, u) && job.uri !in u.uris
      && forall id :: id in s.pending ==>
           if Consumer(id, A) in waiting || Consumer(id, B) in waiting then GivenUp(u, id) else Untouched(s, u, id)
  }

  lemma AnsweredMeans(s: State, i: nat, response: Response, now: nat, ordinal: nat, stored: Consumer -> bool)
    requires Inv(s, {}) && i < |s.inFlight| && IsLoading(s, s.inFlight[i].uri)
    ensures var job, cs := s.inFlight[i], s.uris[s.inFlight[i].uri].consumers;
            var r := Attempt(job, response, now);
            Answered(s, job, response, now, ordinal, stored,
                     if r.Retry? then Retried(s, i, r.readyAt, ordinal) else DeliveredAll(Landed(s, i, r.image), cs, r.image, stored))
  {
    hide Inv, Landed, DeliveredAll, OnlyPending, HasFiles, Fate;
    var job, cs := s.inFlight[i], s.uris[s.inFlight[i].uri].consumers;
    var r := Attempt(job, response, now);
    if r.Complete? {
      AnswerMeans(s, i, r.image, stored);
      assert Members(cs) == set c | c in cs;
      if r.image.None? {
        NoImageFates(s, DeliveredAll(Landed(s, i, r.image), cs, r.image, stored), Members(cs), stored);
      }
    }
  }

  lemma NoImageFates(s: State, u: State, served: set<Consumer>, stored: Consumer -> bool)
    requires forall id :: id in s.pending ==> Fate(s, u, served, None, stored, id)
    ensures forall id :: id in s.pending ==>
              if Consumer(id, A) in served || Consumer(id, B) in served then GivenUp(u, id) else Untouched(s, u, id)
  {
    hide HasFiles, GivenUp, Untouched;
  }

  /** What a request does: it joins a URI that loads, is served an image at hand, or starts
      the one job of the URI. */
  ghost predicate Requested(s: State, c: Consumer, uri: string, lookup: Lookup, stored: Consumer -> bool, u: State) {
    if uri in s.uris && s.uris[uri].Loading? then
      u == s.(uris := s.uris[uri := Loading(s.uris[uri].consumers + [c])])
    else if uri in s.uris then
      u.uris == s.uris && Served(s, c, s.uris[uri].image, stored, u)
    else if lookup.Hit? then
      && uri in u.uris && u.uris[uri] == Ready(Image(uri, lookup.suffix))
      && Served(s, c, Image(uri, lookup.suffix), stored, u)
    else
      u == s.(uris := s.uris[uri := Loading([c])], unsent := s.unsent + [Job(uri, 0)])
  }

  /** The image went to the consumer, if its pair was still pending, and no job changed. */
  ghost predicate Served(s: State, c: Consumer, image: Image, stored: Consumer -> bool, u: State) {
    && u.unsent == s.unsent && u.inFlight == s.inFlight && u.delayed == s.delayed && OnlyPending(s, u)
    && forall id :: id in s.pending ==> Fate(s, u, {c}, Some(image), stored, id)
  }

  /** A candidate was taken in: its pair is pending with neither image, and then the images
      of its two sides are requested. */
  ghost predicate TakenIn(s: State, candidate: Candidate, lookup: string -> Lookup, stored: Consumer -> bool, u: State) {
    var start := s.(attempted := s.attempted + 1, pending := s.pending[candidate.id := Pair(candidate, None, None)],
                    submitted := s.submitted[candidate.id := candidate]);
    exists middle ::
      && Requested(start, Consumer(candidate.id, A), Trim(candidate.uriA), lookup(Trim(candidate.uriA)), stored, middle)
      && Requested(middle, Consumer(candidate.id, B), Trim(candidate.uriB), lookup(Trim(candidate.uriB)), stored, u)
  }

  lemma ServedFates(s: State, owed: set<Consumer>, c: Consumer, image: Image, stored: Consumer -> bool)
    requires Inv(s, owed) && c in owed
    ensures Served(s, c, image, stored, Delivered(s, c, if stored(c) then Some(image) else None))
  {
    hide Inv, Delivered, Fate;
    var u := Delivered(s, c, if stored(c) then Some(image) else None);
    ReportsKept(s, c, if stored(c) then Some(image) else None);
    JobsKept(s, c, if stored(c) then Some(image) else None);
    if c.id in s.pending {
      OwedLacks(s, owed, c);
    }
    assert {} + {c} == {c};
    forall id | id in s.pending ensures Fate(s, u, {c}, Some(image), stored, id) {
      NoneServed(s, Some(image), stored, id);
      DeliverMore(s, s, {}, c, Some(image), stored, id);
    }
  }

  lemma NoneServed(s: State, image: Option<Image>, stored: Consumer -> bool, id: nat)
    requires id in s.pending
    ensures Fate(s, s, {}, image, stored, id)
  {}

  lemma JobsKept(s: State, c: Consumer, image: Option<Image>)
    ensures var u := Delivered(s, c, image);
            u.unsent == s.unsent && u.inFlight == s.inFlight && u.delayed == s.delayed && u.uris == s.uris
  {}

  lemma ServedFrom(s: State, v: State, c: Consumer, image: Image, stored: Consumer -> bool, u: State)
    requires Served(v, c, image, stored, u)
    requires v == s.(uris := v.uris, readyOrder := v.readyOrder)
    ensures Served(s, c, image, stored, u)
  {
    forall id | id in s.pending ensures Fate(s, u, {c}, Some(image), stored, id) {
      SameFate(s, v, u, {c}, Some(image), stored, id);
    }
    hide Fate;
  }

  lemma OwedLacks(s: State, owed: set<Consumer>, c: Consumer)
    requires Inv(s, owed) && c in owed && c.id in s.pending
    ensures s.pending[c.id].File(c.side).None?
  {
    assert Missing(s, c);
  }

  /** Retries carry the numbers in which they were queued. */
  ghost predicate Queued(delayed: seq<Delayed>, next: nat) {
    && (forall i, j :: 0 <= i < j < |delayed| ==> delayed[i].ordinal < delayed[j].ordinal)
    && (forall i :: 0 <= i < |delayed| ==> delayed[i].ordinal < next)
  }

  lemma StillQueued(delayed: seq<Delayed>, next: nat, k: nat)
    requires Queued(delayed, next) && k < |delayed|
    ensures Queued(Take(delayed, k), next)
  {}

  lemma OneMoreQueued(delayed: seq<Delayed>, next: nat, more: Delayed)
    requires Queued(delayed, next) && more.ordinal == next
    ensures Queued(delayed + [more], next + 1)
  {}

  class Session {
    var unsent: seq<Job>
    var inFlight: seq<Job>
    var delayed: seq<Delayed>
    var nextOrdinal: nat
    var uris: map<string, UriState>
    var readyOrder: seq<string>
    var pending: map<nat, Pair>
    var completed: seq<Report>
    var intra: seq<Staged>
    var cross: seq<Staged>
    var attempted: nat
    var failed: nat
    var networkJobs: nat
    var cacheHits: nat
    var coalesced: nat

    /** The reports already handed out, and the candidates ever submitted. */
    ghost var polled: seq<Report>
    ghost var submitted: map<nat, Candidate>

    ghost function Snapshot(): State reads this {
      State(unsent, inFlight, delayed, uris, readyOrder, pending, polled + completed, intra, cross,
            attempted, failed, submitted)
    }

    /** Every request of an image joined a job, met an image at hand or started a job. */
    ghost predicate Balanced(owed: nat) reads this {
      cacheHits + coalesced + networkJobs + owed == 2 * attempted
    }

    ghost predicate Valid() reads this {
      Inv(Snapshot(), {}) && Balanced(0) && Queued(delayed, nextOrdinal)
    }

    constructor ()
      ensures Valid() && Snapshot() == State([], [], [], map[], [], map[], [], [], [], 0, 0, map[])
    {
      hide Inv;
      unsent, inFlight, delayed, nextOrdinal := [], [], [], 0;
      uris, readyOrder, pending, completed := map[], [], map[], [];
      intra, cross, attempted, failed := [], [], 0, 0;
      networkJobs, cacheHits, coalesced := 0, 0, 0;
      polled, submitted := [], map[];
      new;
      assert polled + completed == [];
      NothingYet();
    }

    method DeliverImage(c: Consumer, image: Option<Image>, stored: bool)
      modifies this`pending, this`completed, this`intra, this`cross, this`failed
      ensures Snapshot() == Delivered(old(Snapshot()), c, if stored then image else None)
    {
      if c.id !in pending {
        return;
      }
      var pair := pending[c.id];
      if image.Some? && stored {
        pair := match c.side
          case A => pair.(fileA := image)
          case B => pair.(fileB := image);
        pending := pending[c.id := pair];
      } else {
        pending := pending - {c.id};
        completed := completed + [Report(c.id, false)];
        failed := failed + 1;
        assert polled + old(completed) + [Report(c.id, false)] == polled + completed;
        return;
      }
      if pair.fileA.None? || pair.fileB.None? {
        return;
      }
      pending := pending - {c.id};
      assert pending == old(pending) - {c.id};
      var staged := Staged(pair.candidate, pair.fileA.value, pair.fileB.value);
      match pair.candidate.pool {
        case IntraChain => intra := intra + [staged];
        case CrossChain => cross := cross + [staged];
      }
      completed := completed + [Report(c.id, true)];
      assert polled + old(completed) + [Report(c.id, true)] == polled + completed;
    }

    method RememberReadyUri(uri: string, image: Image)
      requires ReadyOk(Snapshot()) && uri !in uris
      modifies this`uris, this`readyOrder
      ensures Snapshot() == Remembered(old(Snapshot()), uri, image)
    {
      ghost var u := Snapshot().(uris := uris[uri := Ready(image)], readyOrder := readyOrder + [uri]);
      assert readyOrder != [] ==> readyOrder[0] in readyOrder && IsReady(Snapshot(), readyOrder[0]);
      hide ReadyOk;
      uris := uris[uri := Ready(image)];
      readyOrder := readyOrder + [uri];
      assert IsReady(u, u.readyOrder[0]);
      while |readyOrder| > READY_URI_CACHE_CAPACITY
        invariant if |u.readyOrder| > READY_URI_CACHE_CAPACITY && |readyOrder| <= READY_URI_CACHE_CAPACITY
                  then Snapshot() == Forgotten(u) else Snapshot() == u
        decreases |readyOrder|
      {
        var expired := readyOrder[0];
        readyOrder := readyOrder[1..];
        if expired in uris && uris[expired].Ready? {
          uris := uris - {expired};
        }
      }
    }

    method Keep(uri: string, image: Image, ghost owed: set<Consumer>)
      requires Inv(Snapshot(), owed) && uri !in uris && image.uri == uri
      modifies this`uris, this`readyOrder
      ensures Snapshot() == Remembered(old(Snapshot()), uri, image) && IsReady(Snapshot(), uri)
      ensures Inv(Snapshot(), owed) && uris[uri] == Ready(image)
    {
      hide Forgotten;
      RememberStep(Snapshot(), owed, uri, image);
      ReadyImages(Snapshot(), owed);
      hide Inv, Queued, ReadyOk;
      RememberReadyUri(uri, image);
    }

    /** A ready image goes straight to the consumer that asked for it. */
    method Serve(c: Consumer, uri: string, image: Image, stored: Consumer -> bool, ghost owed: set<Consumer>)
      requires Inv(Snapshot(), owed) && c in owed && c.id in submitted && submitted[c.id].UriOf(c.side) == uri
      requires uri in uris && uris[uri] == Ready(image)
      modifies this`pending, this`completed, this`intra, this`cross, this`failed
      ensures Inv(Snapshot(), owed - {c}) && Served(old(Snapshot()), c, image, stored, Snapshot())
    {
      hide Inv, Queued, Delivered, ReadyOk, Served;
      ReadyImages(Snapshot(), owed);
      ServedFates(Snapshot(), owed, c, image, stored);
      DeliverStep(Snapshot(), owed, c, if stored(c) then Some(image) else None);
      DeliverImage(c, Some(image), stored(c));
    }

    /** The image is there, or on its way. */
    method RequestKnown(c: Consumer, uri: string, stored: Consumer -> bool, ghost owed: set<Consumer>)
      requires Inv(Snapshot(), owed) && c in owed && c.id in submitted && submitted[c.id].UriOf(c.side) == uri
      requires uri in uris
      modifies this`coalesced, this`cacheHits, this`uris
      modifies this`pending, this`completed, this`intra, this`cross, this`failed
      ensures Inv(Snapshot(), owed - {c})
      ensures coalesced == old(coalesced) + if IsLoading(old(Snapshot()), uri) then 1 else 0
      ensures cacheHits == old(cacheHits) + if IsLoading(old(Snapshot()), uri) then 0 else 1
      ensures old(uris)[uri].Loading? ==>
                Snapshot() == old(Snapshot()).(uris := old(uris)[uri := Loading(old(uris)[uri].consumers + [c])])
      ensures old(uris)[uri].Ready? ==>
                uris == old(uris) && Served(old(Snapshot()), c, old(uris)[uri].image, stored, Snapshot())
    {
      hide Inv, Queued, Served;
      match uris[uri] {
        case Loading(consumers) =>
          JoinStep(Snapshot(), owed, uri, c);
          coalesced := coalesced + 1;
          uris := uris[uri := Loading(consumers + [c])];
        case Ready(image) =>
          cacheHits := cacheHits + 1;
          Serve(c, uri, image, stored, owed);
      }
    }

    /** The image is in the disk cache: it becomes ready and is served. */
    method ServeCached(c: Consumer, image: Image, stored: Consumer -> bool, ghost owed: set<Consumer>)
      requires Inv(Snapshot(), owed) && c in owed && c.id in submitted && submitted[c.id].UriOf(c.side) == image.uri
      requires image.uri !in uris
      modifies this`uris, this`readyOrder
      modifies this`pending, this`completed, this`intra, this`cross, this`failed
      ensures Inv(Snapshot(), owed - {c}) && Served(old(Snapshot()), c, image, stored, Snapshot())
      ensures image.uri in uris && uris[image.uri] == Ready(image)
    {
      hide Inv, Queued, Served, Remembered;
      ghost var s := Snapshot();
      Keep(image.uri, image, owed);
      ghost var v := Snapshot();
      Serve(c, image.uri, image, stored, owed);
      ServedFrom(s, v, c, image, stored, Snapshot());
    }

    method StartJob(c: Consumer, uri: string, ghost owed: set<Consumer>)
      requires Inv(Snapshot(), owed) && c in owed && c.id in submitted && submitted[c.id].UriOf(c.side) == uri
      requires uri !in uris
      modifies this`uris, this`unsent
      ensures Snapshot() == Started(old(Snapshot()), uri, c) && Inv(Snapshot(), owed - {c})
    {
      hide Inv, Queued;
      StartStep(Snapshot(), owed, uri, c);
      uris := uris[uri := Loading([c])];
      unsent := unsent + [Job(uri, 0)];
    }

    /** Asks for the image of one side of a candidate; fails if the disk cache does. */
    method RequestImage(c: Consumer, rawUri: string, lookup: string -> Lookup, stored: Consumer -> bool,
                        ghost owed: set<Consumer>)
      returns (ok: bool)
      requires Inv(Snapshot(), owed) && c in owed && c.id in submitted
      requires Trim(rawUri) == submitted[c.id].UriOf(c.side)
      modifies this
      ensures submitted == old(submitted) && polled == old(polled) && attempted == old(attempted)
      ensures delayed == old(delayed) && nextOrdinal == old(nextOrdinal)
      ensures ok <==> (Trim(rawUri) in old(uris) || !lookup(Trim(rawUri)).Unreadable?)
      ensures ok ==> Inv(Snapshot(), owed - {c})
      ensures ok ==> old(coalesced) <= coalesced && old(cacheHits) <= cacheHits && old(networkJobs) <= networkJobs
      ensures ok ==> coalesced + cacheHits + networkJobs == old(coalesced + cacheHits + networkJobs) + 1
      ensures ok ==> (coalesced > old(coalesced) <==> IsLoading(old(Snapshot()), Trim(rawUri)))
      ensures ok ==> (networkJobs > old(networkJobs) <==> Trim(rawUri) !in old(uris) && lookup(Trim(rawUri)).Miss?)
      ensures ok ==> Requested(old(Snapshot()), c, Trim(rawUri), lookup(Trim(rawUri)), stored, Snapshot())
    {
      hide Inv, Queued, Trim, ReadyOk, Delivered, Remembered, Forgotten, Served;
      var uri := Trim(rawUri);
      ok := true;
      if uri in uris {
        RequestKnown(c, uri, stored, owed);
        return;
      }
      match lookup(uri) {
        case Unreadable =>
          ok := false;
        case Hit(suffix) =>
          cacheHits := cacheHits + 1;
          ServeCached(c, Image(uri, suffix), stored, owed);
        case Miss =>
          networkJobs := networkJobs + 1;
          StartJob(c, uri, owed);
      }
    }

    /** `submit_candidate`. The directory for its row cannot be made if the candidate is
        pending or was staged before: then it is refused. */
    method SubmitCandidate(candidate: Candidate, made: bool, lookup: string -> Lookup, stored: Consumer -> bool)
      returns (ok: bool)
      requires Valid() && (made ==> candidate.id !in submitted)
      modifies this
      ensures polled == old(polled) && attempted == old(attempted) + 1
      ensures !made ==> !ok && Snapshot() == old(Snapshot()).(attempted := attempted)
      ensures made ==> submitted == old(submitted)[candidate.id := candidate]
      ensures ok ==> Valid()
      ensures made && (forall u :: !lookup(u).Unreadable?) ==> ok
      ensures ok ==> TakenIn(old(Snapshot()), candidate, lookup, stored, Snapshot())
    {
      hide Inv, Queued, Trim, Requested;
      if !made {
        attempted := attempted + 1;
        return false;
      }
      var a, b := Consumer(candidate.id, A), Consumer(candidate.id, B);
      SubmitStep(Snapshot(), candidate);
      attempted := attempted + 1;
      pending := pending[candidate.id := Pair(candidate, None, None)];
      submitted := submitted[candidate.id := candidate];
      ghost var start := Snapshot();
      assert {a, b} - {a} == {b} && {b} - {b} == {};
      ok := RequestImage(a, candidate.uriA, lookup, stored, {a, b});
      ghost var middle := Snapshot();
      if ok {
        ok := RequestImage(b, candidate.uriB, lookup, stored, {b});
      }
    }

    /** Sends unsent jobs to the workers while their queue has room. */
    method PumpJobs(room: nat)
      requires Valid()
      modifies this`unsent, this`inFlight
      ensures Valid()
      ensures var n := if room < |old(unsent)| then room else |old(unsent)|;
              unsent == old(unsent)[n..] && inFlight == old(inFlight) + old(unsent)[..n]
      ensures Budget(Snapshot()) == old(Budget(Snapshot()))
    {
      hide Inv, Queued, Budget;
      var sent := 0;
      while unsent != [] && sent < room
        invariant Valid() && sent <= room && sent <= |old(unsent)|
        invariant unsent == old(unsent)[sent..] && inFlight == old(inFlight) + old(unsent)[..sent]
        invariant Budget(Snapshot()) == old(Budget(Snapshot()))
        decreases |unsent|
      {
        PumpStep(Snapshot(), {});
        PumpBudget(Snapshot(), {});
        unsent, inFlight := unsent[1..], inFlight + [unsent[0]];
        sent := sent + 1;
      }
    }

    /** The retry at the top of the heap. */
    method Soonest() returns (k: nat)
      requires delayed != []
      ensures k < |delayed| && forall i :: 0 <= i < |delayed| ==> Sooner(delayed[k], delayed[i])
    {
      k := 0;
      for n := 1 to |delayed|
        invariant k < |delayed| && forall i :: 0 <= i < n ==> Sooner(delayed[k], delayed[i])
      {
        if !Sooner(delayed[k], delayed[n]) {
          k := n;
        }
      }
    }

    /** Makes the retries that are due unsent again, soonest first. */
    method SubmitDueRetries(now: nat) returns (ghost moved: seq<Delayed>)
      requires Valid()
      modifies this`unsent, this`delayed
      ensures Valid() && unsent == old(unsent) + Waiting(moved)
      ensures Drained(old(delayed), moved, delayed)
      ensures forall d :: d in moved ==> d.readyAt <= now
      ensures forall d :: d in delayed ==> d.readyAt > now
      ensures Budget(Snapshot()) == old(Budget(Snapshot()))
    {
      hide Inv, Queued, Drained, Budget;
      moved := [];
      NoneDrained(delayed);
      while delayed != []
        invariant Valid() && unsent == old(unsent) + Waiting(moved)
        invariant Drained(old(delayed), moved, delayed)
        invariant forall d :: d in moved ==> d.readyAt <= now
        invariant Budget(Snapshot()) == old(Budget(Snapshot()))
        decreases |delayed|
      {
        var k := Soonest();
        if delayed[k].readyAt > now {
          return;
        }
        ResubmitStep(Snapshot(), {}, k);
        ResubmitBudget(Snapshot(), {}, k);
        DrainOne(old(delayed), moved, delayed, k);
        StillQueued(delayed, nextOrdinal, k);
        moved := moved + [delayed[k]];
        unsent, delayed := unsent + [delayed[k].job], Take(delayed, k);
      }
    }

    /** A worker's answer for the job at `i`. */
    method ProcessWorkerResult(i: nat, response: Response, now: nat, stored: Consumer -> bool)
      requires Valid() && i < |inFlight|
      modifies this
      ensures Valid() && submitted == old(submitted) && polled == old(polled)
      ensures match Attempt(old(inFlight)[i], response, now)
        case Retry(job, readyAt) => Snapshot() == Retried(old(Snapshot()), i, readyAt, old(nextOrdinal))
        case Complete(image) =>
          && IsLoading(old(Snapshot()), old(inFlight)[i].uri)
          && Snapshot() == DeliveredAll(Landed(old(Snapshot()), i, image), old(uris[inFlight[i].uri].consumers), image, stored)
      ensures Budget(Snapshot()) < old(Budget(Snapshot()))
      ensures IsLoading(old(Snapshot()), old(inFlight)[i].uri)
      ensures nextOrdinal == old(nextOrdinal) + |delayed| - |old(delayed)|
      ensures Answered(old(Snapshot()), old(inFlight)[i], response, now, old(nextOrdinal), stored, Snapshot())
    {
      hide Inv, Queued, Landed, Budget;
      FinishStep(Snapshot(), i);
      AnsweredMeans(Snapshot(), i, response, now, nextOrdinal, stored);
      match Attempt(inFlight[i], response, now) {
        case Retry(again, readyAt) =>
          RetryStep(Snapshot(), {}, i, readyAt, nextOrdinal);
          RetryBudget(Snapshot(), {}, i, readyAt, nextOrdinal);
          OneMoreQueued(delayed, nextOrdinal, Delayed(readyAt, nextOrdinal, again));
          inFlight, delayed := Take(inFlight, i), delayed + [Delayed(readyAt, nextOrdinal, again)];
          nextOrdinal := nextOrdinal + 1;
        case Complete(image) =>
          ghost var s := Snapshot();
          CompleteJob(i, image, stored);
          CompletedBudget(s, i, image, s.uris[s.inFlight[i].uri].consumers, stored);
      }
    }

    method CompleteJob(i: nat, image: Option<Image>, stored: Consumer -> bool)
      requires Valid() && i < |inFlight| && (image.Some? ==> image.value.uri == inFlight[i].uri)
      modifies this`inFlight, this`uris, this`readyOrder, this`pending, this`completed, this`intra, this`cross, this`failed
      ensures Valid() && IsLoading(old(Snapshot()), old(inFlight)[i].uri)
      ensures Snapshot() == DeliveredAll(Landed(old(Snapshot()), i, image), old(uris[inFlight[i].uri].consumers), image, stored)
    {
      hide Inv, Queued, Landed, DeliveredAll, Members;
      LandStep(Snapshot(), i, image);
      var uri := inFlight[i].uri;
      var consumers := uris[uri].consumers;
      LandImage(i, image);
      DeliverAllStep(Snapshot(), consumers, image, stored, uri);
      DeliverEach(consumers, image, stored);
    }

    method LandImage(i: nat, image: Option<Image>)
      requires Inv(Snapshot(), {}) && i < |inFlight| && (image.Some? ==> image.value.uri == inFlight[i].uri)
      modifies this`inFlight, this`uris, this`readyOrder
      ensures Snapshot() == Landed(old(Snapshot()), i, image)
    {
      hide Inv, Queued, Remembered;
      FinishStep(Snapshot(), i);
      var job := inFlight[i];
      ghost var owed := Members(uris[job.uri].consumers);
      inFlight, uris := Take(inFlight, i), uris - {job.uri};
      if image.Some? {
        Keep(job.uri, image.value, owed);
      }
    }

    method DeliverEach(consumers: seq<Consumer>, image: Option<Image>, stored: Consumer -> bool)
      modifies this`pending, this`completed, this`intra, this`cross, this`failed
      ensures Snapshot() == DeliveredAll(old(Snapshot()), consumers, image, stored)
    {
      hide Delivered;
      for n := 0 to |consumers|
        invariant Snapshot() == DeliveredAll(old(Snapshot()), consumers[..n], image, stored)
      {
        assert consumers[..n + 1][..n] == consumers[..n];
        DeliverImage(consumers[n], image, stored(consumers[n]));
      }
      assert consumers[..|consumers|] == consumers;
    }

    /** One turn: due retries are queued, jobs are sent, and an answer is taken in. */
    method TakeTurn(turn: Turn, stored: Consumer -> bool) returns (ghost answered: bool)
      requires Valid()
      modifies this
      ensures Valid() && submitted == old(submitted) && polled == old(polled)
      ensures Budget(Snapshot()) + (if answered then 1 else 0) <= old(Budget(Snapshot()))
      ensures forall d :: d in delayed ==> d.readyAt == DueAgain(turn) || (d in old(delayed) && d.readyAt > turn.now)
      ensures turn.room > 0 && turn.answer.Some? && !old(Idle(Snapshot())) ==>
                answered || exists d :: d in old(delayed) && d.readyAt > turn.now
    {
      hide Inv, Queued, Budget, Landed, Drained;
      var moved := SubmitDueRetries(turn.now);
      DrainedAll(old(delayed), moved, delayed);
      assert delayed == [] || delayed[0] in delayed;
      PumpJobs(turn.room);
      answered := false;
      if turn.answer.Some? && inFlight != [] {
        answered := true;
        ghost var s := Snapshot();
        var i := turn.answer.value % |inFlight|;
        DelayedAfter(s, i, turn, stored);
        ProcessWorkerResult(i, turn.response, turn.now, stored);
      }
    }

    /** Takes in what the workers answered and hands out the candidates done since. Each
        answer uses up some of the budget, so with prompt workers the session comes to an
        end, and then every candidate has its report. */
    method Poll(turns: seq<Turn>, stored: Consumer -> bool) returns (results: seq<Report>, ghost answered: nat)
      requires Valid()
      modifies this
      ensures Valid() && submitted == old(submitted)
      ensures completed == [] && polled == old(polled) + results && ReportedOnce(polled)
      ensures Budget(Snapshot()) + answered <= old(Budget(Snapshot()))
      ensures Prompt(old(delayed), turns) ==> Idle(Snapshot()) || answered == |turns|
      ensures Prompt(old(delayed), turns) && |turns| >= old(Budget(Snapshot())) ==>
                pending == map[] && forall id :: id in submitted <==> Reported(polled, id)
    {
      hide Inv, Queued, Budget, Reported, ReportedOnce;
      answered := 0;
      for n := 0 to |turns|
        invariant Valid() && submitted == old(submitted) && polled == old(polled)
        invariant Budget(Snapshot()) + answered <= old(Budget(Snapshot()))
        invariant Prompt(old(delayed), turns) ==>
                    || Idle(Snapshot())
                    || (answered == n && forall d, m :: d in delayed && n <= m < |turns| ==> d.readyAt <= turns[m].now)
      {
        BudgetMeans(Snapshot(), {});
        var more := TakeTurn(turns[n], stored);
        BudgetMeans(Snapshot(), {});
        answered := answered + if more then 1 else 0;
      }
      BudgetMeans(Snapshot(), {});
      ghost var s := Snapshot();
      results, completed := completed, [];
      polled := polled + results;
      assert polled + completed == old(polled) + results + [] == polled;
      assert Snapshot() == s;
      ReportsOnce(s);
      if Idle(s) {
        IdleMeansDone(s);
      }
    }

    /** `retain_candidates`: only the selected candidates stay, and all of them must be there. */
    method RetainCandidates(selected: set<nat>) returns (ok: bool)
      requires Valid()
      modifies this`intra, this`cross
      ensures KeptOf(old(intra), selected, intra) && KeptOf(old(cross), selected, cross)
      ensures ok <==> selected <= Ids(old(intra)) + Ids(old(cross))
    {
      PairsIn(Snapshot());
      RetainedAll(Snapshot(), selected);
      RetainedInOrder(intra, selected);
      RetainedInOrder(cross, selected);
      hide Inv, Queued, PairsOk, Retained, KeptOf;
      intra, cross := Retained(intra, selected), Retained(cross, selected);
      ok := |intra| + |cross| == |selected|;
    }
  }

  lemma PairsIn(s: State)
    requires Inv(s, {})
    ensures PairsOk(s)
  {}

  lemma NothingYet()
    ensures Inv(State([], [], [], map[], [], map[], [], [], [], 0, 0, map[]), {})
  {}

  lemma ReportsOnce(s: State)
    requires Inv(s, {})
    ensures ReportedOnce(s.reports)
  {}

  lemma ReadyImages(s: State, owed: set<Consumer>)
    requires Inv(s, owed)
    ensures ReadyOk(s) && forall u :: IsReady(s, u) ==> s.uris[u].image.uri == u
  {}

  /** The heap gave up `moved`, in order, and `left` remains. */
  ghost predicate Drained(all: seq<Delayed>, moved: seq<Delayed>, left: seq<Delayed>) {
    && multiset(moved) + multiset(left) == multiset(all)
    && (forall i, j :: 0 <= i < j < |moved| ==>
          moved[i].readyAt < moved[j].readyAt || (moved[i].readyAt == moved[j].readyAt && moved[i].ordinal <= moved[j].ordinal))
    && forall x, y :: x in moved && y in left ==>
         x.readyAt < y.readyAt || (x.readyAt == y.readyAt && x.ordinal <= y.ordinal)
  }

  lemma DrainedAll(all: seq<Delayed>, moved: seq<Delayed>, left: seq<Delayed>)
    requires Drained(all, moved, left)
    ensures |moved| + |left| == |all| && forall d :: d in left ==> d in all
  {
    assert |multiset(moved) + multiset(left)| == |multiset(all)|;
    forall d | d in left ensures d in all {
      assert d in multiset(left);
      assert d in multiset(all);
    }
  }

  /** What is delayed after an answer: what was, and the retry it asks for. */
  lemma DelayedAfter(s: State, i: nat, turn: Turn, stored: Consumer -> bool)
    requires Inv(s, {}) && i < |s.inFlight|
    ensures match Attempt(s.inFlight[i], turn.response, turn.now)
      case Retry(job, readyAt) =>
        readyAt == DueAgain(turn) && forall ordinal :: Retried(s, i, readyAt, ordinal).delayed == s.delayed + [Delayed(readyAt, ordinal, job)]
      case Complete(image) =>
        forall cs :: DeliveredAll(Landed(s, i, image), cs, image, stored).delayed == s.delayed
  {
    hide Inv, Queued, Landed;
    match Attempt(s.inFlight[i], turn.response, turn.now)
    case Retry(_, _) =>
    case Complete(image) =>
      forall cs ensures DeliveredAll(Landed(s, i, image), cs, image, stored).delayed == s.delayed {
        CompletedBudget(s, i, image, cs, stored);
      }
  }

  lemma NoneDrained(all: seq<Delayed>)
    ensures Drained(all, [], all)
  {}

  lemma DrainOne(all: seq<Delayed>, moved: seq<Delayed>, left: seq<Delayed>, k: nat)
    requires Drained(all, moved, left) && k < |left|
    requires forall i :: 0 <= i < |left| ==> Sooner(left[k], left[i])
    ensures Drained(all, moved + [left[k]], Take(left, k))
  {
    TakeCounts(left, k);
    hide Take;
    assert forall y :: y in Take(left, k) ==> Sooner(left[k], y);
  }

  lemma TakeCounts<T>(s: seq<T>, k: nat)
    requires k < |s|
    ensures multiset(s) == multiset(Take(s, k)) + multiset{s[k]}
    ensures forall x :: x in Take(s, k) ==> x in s
  {
    assert s == s[..k] + [s[k]] + s[k + 1..];
  }

  // ----- retaining the selected candidates

  function Ids(staged: seq<Staged>): set<nat> {
    if staged == [] then {}
    else Ids(staged[..|staged| - 1]) + {staged[|staged| - 1].candidate.id}
  }

  lemma {:induction false} IdsMeaning(staged: seq<Staged>, id: nat)
    ensures id in Ids(staged) <==> exists i :: 0 <= i < |staged| && staged[i].candidate.id == id
  {
    if staged != [] {
      var init := staged[..|staged| - 1];
      assert staged == init + [staged[|staged| - 1]];
      IdsMeaning(init, id);
    }
  }

  function Retained(staged: seq<Staged>, selected: set<nat>): (r: seq<Staged>)
    ensures forall x :: x in r <==> x in staged && x.candidate.id in selected
  {
    if staged == [] then []
    else
      var rest := Retained(staged[..|staged| - 1], selected);
      var last := staged[|staged| - 1];
      if last.candidate.id in selected then rest + [last] else rest
  }

  /** The selected ones stay, each at its place among the others. */
  ghost predicate KeptOf(staged: seq<Staged>, selected: set<nat>, r: seq<Staged>) {
    && (forall x :: x in r <==> x in staged && x.candidate.id in selected)
    && (forall x, y :: StandsBefore(r, x, y) ==> StandsBefore(staged, x, y))
  }

  lemma RetainedInOrder(staged: seq<Staged>, selected: set<nat>)
    ensures KeptOf(staged, selected, Retained(staged, selected))
  {
    forall x, y | StandsBefore(Retained(staged, selected), x, y) ensures StandsBefore(staged, x, y) {
      RetainedOrder(staged, selected, x, y);
    }
  }

  lemma {:induction false} RetainedOrder(staged: seq<Staged>, selected: set<nat>, x: Staged, y: Staged)
    requires StandsBefore(Retained(staged, selected), x, y)
    ensures StandsBefore(staged, x, y)
  {
    var init, last := staged[..|staged| - 1], staged[|staged| - 1];
    var r, rest := Retained(staged, selected), Retained(init, selected);
    var i, j :| 0 <= i < j < |r| && r[i] == x && r[j] == y;
    if j < |rest| {
      assert rest[i] == x && rest[j] == y;
      RetainedOrder(init, selected, x, y);
      var m, n :| 0 <= m < n < |init| && init[m] == x && init[n] == y;
      assert staged[m] == x && staged[n] == y;
    } else {
      assert x in rest && y == last;
      var m :| 0 <= m < |init| && init[m] == x;
      assert staged[m] == x;
    }
  }

  lemma {:induction false} RetainedCount(staged: seq<Staged>, selected: set<nat>)
    requires StagedOnce(staged)
    ensures |Retained(staged, selected)| == |Ids(staged) * selected|
  {
    if staged == [] {
      assert Ids(staged) * selected == {};
    } else {
      var init, last := staged[..|staged| - 1], staged[|staged| - 1].candidate.id;
      RetainedCount(init, selected);
      IdsMeaning(init, last);
      hide StagedOnce;
      assert Ids(staged) * selected == Ids(init) * selected + if last in selected then {last} else {};
    }
  }

  /** Keeping the selected candidates succeeds exactly when all of them are staged. */
  lemma RetainedAll(s: State, selected: set<nat>)
    requires PairsOk(s)
    ensures |Retained(s.intra, selected)| + |Retained(s.cross, selected)| == |selected|
            <==> selected <= Ids(s.intra) + Ids(s.cross)
  {
    hide Accounted, PendingOk, ReportedOnce, Retained, Totals, Own;
    RetainedCount(s.intra, selected);
    RetainedCount(s.cross, selected);
    forall id ensures !(id in Ids(s.intra) && id in Ids(s.cross)) {
      IdsMeaning(s.intra, id);
      IdsMeaning(s.cross, id);
    }
    SplitCount(Ids(s.intra), Ids(s.cross), selected);
  }

  lemma {:induction false} SplitCount<T>(x: set<T>, y: set<T>, selected: set<T>)
    requires x !! y
    ensures |x * selected| + |y * selected| == |selected| <==> selected <= x + y
  {
    var kept := x * selected + y * selected;
    assert |kept| == |x * selected| + |y * selected|;
    assert selected == kept + (selected - kept);
    assert selected - kept == {} <==> |selected - kept| == 0;
    assert selected - kept == {} <==> selected <= x + y;
  }
}
