/** What an answer for an image does to the candidates that wait for it. */
module DownloadAnswers {
  import opened Wrappers
  import opened Sorting
  import opened DownloadState

  /** `deliver_image` to each consumer in turn; `stored` says where the copy succeeds. */
  function DeliveredAll(s: State, cs: seq<Consumer>, image: Option<Image>, stored: Consumer -> bool): State {
    if cs == [] then s
    else
      var last := |cs| - 1;
      Delivered(DeliveredAll(s, cs[..last], image, stored), cs[last], if stored(cs[last]) then image else None)
  }

  /** The job at `i` completed: its URI is ready, or forgotten if it has no image. */
  function Landed(s: State, i: nat, image: Option<Image>): State
    requires i < |s.inFlight|
  {
    var u := Finished(s, i);
    if image.Some? then Remembered(u, s.inFlight[i].uri, image.value) else u
  }

  // ----- the fate of a pair

  /** The pair is as it was. */
  ghost predicate Untouched(s: State, u: State, id: nat)
    requires id in s.pending
  {
    id in u.pending && u.pending[id] == s.pending[id]
  }

  /** The pair is given up and reported so. */
  ghost predicate GivenUp(u: State, id: nat) {
    id !in u.pending && Report(id, false) in u.reports
  }

  /** The pair has these files: it still waits for one, or it stands in the pool of its
      candidate and is reported. */
  ghost predicate HasFiles(u: State, candidate: Candidate, id: nat, fileA: Option<Image>, fileB: Option<Image>) {
    if fileA.Some? && fileB.Some? then
      && id !in u.pending && Report(id, true) in u.reports
      && Staged(candidate, fileA.value, fileB.value) in (if candidate.pool == IntraChain then u.intra else u.cross)
    else id in u.pending && u.pending[id] == Pair(candidate, fileA, fileB)
  }

  /** What becomes of a pending pair once these consumers have had the image, or the failure
      to get it. */
  ghost predicate Fate(s: State, u: State, served: set<Consumer>, image: Option<Image>, stored: Consumer -> bool, id: nat)
    requires id in s.pending
  {
    var a, b := Consumer(id, A) in served, Consumer(id, B) in served;
    if !a && !b then Untouched(s, u, id)
    else if image.None? || (a && !stored(Consumer(id, A))) || (b && !stored(Consumer(id, B))) then GivenUp(u, id)
    else HasFiles(u, s.pending[id].candidate, id, if a then image else s.pending[id].fileA, if b then image else s.pending[id].fileB)
  }

  /** Nothing that was reported or staged goes, and what is new concerns pairs that were pending. */
  ghost predicate OnlyPending(s: State, u: State) {
    && s.reports <= u.reports && s.intra <= u.intra && s.cross <= u.cross
    && (forall id :: id in u.pending ==> id in s.pending)
    && (forall k :: |s.reports| <= k < |u.reports| ==> u.reports[k].id in s.pending)
  }

  // ----- one delivery after the other

  lemma DeliverMore(s: State, v: State, served: set<Consumer>, c: Consumer, image: Option<Image>, stored: Consumer -> bool, id: nat)
    requires id in s.pending && Fate(s, v, served, image, stored, id) && c !in served
    requires c.id == id ==> s.pending[id].File(c.side).None?
    ensures Fate(s, Delivered(v, c, if stored(c) then image else None), served + {c}, image, stored, id)
  {
    var u := Delivered(v, c, if stored(c) then image else None);
    ReportsKept(v, c, if stored(c) then image else None);
    if c.id == id {
      match c.side {
        case A => assert c == Consumer(id, A);
        case B => assert c == Consumer(id, B);
      }
    } else {
      OthersKept(v, c, if stored(c) then image else None, id);
    }
  }

  lemma ReportsKept(v: State, c: Consumer, image: Option<Image>)
    ensures var u := Delivered(v, c, image);
            && v.reports <= u.reports && v.intra <= u.intra && v.cross <= u.cross
            && (forall id :: id in u.pending ==> id in v.pending)
            && (forall k :: |v.reports| <= k < |u.reports| ==> u.reports[k].id in v.pending)
            && (forall r :: r in v.reports ==> r in u.reports)
            && (forall x :: x in v.intra ==> x in u.intra) && (forall x :: x in v.cross ==> x in u.cross)
  {}

  lemma OthersKept(v: State, c: Consumer, image: Option<Image>, id: nat)
    requires c.id != id
    ensures var u := Delivered(v, c, image);
            (id in u.pending <==> id in v.pending) && (id in v.pending ==> u.pending[id] == v.pending[id])
  {}

  lemma {:induction false} DeliveredFate(s: State, cs: seq<Consumer>, n: nat, image: Option<Image>, stored: Consumer -> bool, id: nat)
    requires n <= |cs| && Distinct(cs) && id in s.pending
    requires forall c :: c in cs && c.id == id ==> s.pending[id].File(c.side).None?
    ensures Fate(s, DeliveredAll(s, cs[..n], image, stored), Members(cs[..n]), image, stored, id)
  {
    hide Delivered;
    if n > 0 {
      DeliveredFate(s, cs, n - 1, image, stored, id);
      hide Fate;
      var c := cs[n - 1];
      assert cs[..n][..n - 1] == cs[..n - 1] && cs[..n] == cs[..n - 1] + [c] && c in cs;
      assert Members(cs[..n]) == Members(cs[..n - 1]) + {c};
      assert c !in cs[..n - 1];
      DeliverMore(s, DeliveredAll(s, cs[..n - 1], image, stored), Members(cs[..n - 1]), c, image, stored, id);
    }
  }

  lemma {:induction false} DeliveredOnlyPending(s: State, cs: seq<Consumer>, image: Option<Image>, stored: Consumer -> bool)
    ensures OnlyPending(s, DeliveredAll(s, cs, image, stored))
    ensures DeliveredAll(s, cs, image, stored).uris == s.uris
  {
    if cs != [] {
      var v := DeliveredAll(s, cs[..|cs| - 1], image, stored);
      DeliveredOnlyPending(s, cs[..|cs| - 1], image, stored);
      var c := cs[|cs| - 1];
      ReportsKept(v, c, if stored(c) then image else None);
      SameUris(v, c, if stored(c) then image else None);
      hide Delivered;
      var u := DeliveredAll(s, cs, image, stored);
      assert forall k :: |s.reports| <= k < |v.reports| ==> u.reports[k] == v.reports[k];
    }
  }

  lemma SameUris(v: State, c: Consumer, image: Option<Image>)
    ensures Delivered(v, c, image).uris == v.uris
  {}

  /** An answer decides for every pending pair exactly what its own sides waited for, and
      leaves the URI ready or forgotten. */
  lemma AnswerMeans(s: State, i: nat, image: Option<Image>, stored: Consumer -> bool)
    requires Inv(s, {}) && i < |s.inFlight| && IsLoading(s, s.inFlight[i].uri)
    requires image.Some? ==> image.value.uri == s.inFlight[i].uri
    ensures var cs := s.uris[s.inFlight[i].uri].consumers;
            var u := DeliveredAll(Landed(s, i, image), cs, image, stored);
            && OnlyPending(s, u)
            && (forall id :: id in s.pending ==> Fate(s, u, Members(cs), image, stored, id))
            && (if image.Some? then s.inFlight[i].uri in u.uris && u.uris[s.inFlight[i].uri] == Ready(image.value)
                else s.inFlight[i].uri !in u.uris)
  {
    var uri := s.inFlight[i].uri;
    var cs, v := s.uris[uri].consumers, Landed(s, i, image);
    LandedBooks(s, i, image);
    WaitersLack(s, uri);
    DeliveredOnlyPending(v, cs, image, stored);
    hide Inv, Landed, DeliveredAll, Fate, IsLoading;
    forall id | id in s.pending
      ensures Fate(s, DeliveredAll(v, cs, image, stored), Members(cs), image, stored, id)
    {
      DeliveredFate(v, cs, |cs|, image, stored, id);
      assert cs[..|cs|] == cs;
      SameFate(s, v, DeliveredAll(v, cs, image, stored), Members(cs), image, stored, id);
    }
  }

  lemma SameFate(s: State, v: State, u: State, served: set<Consumer>, image: Option<Image>, stored: Consumer -> bool, id: nat)
    requires v.pending == s.pending && id in s.pending && Fate(v, u, served, image, stored, id)
    ensures Fate(s, u, served, image, stored, id)
  {}

  lemma LandedBooks(s: State, i: nat, image: Option<Image>)
    requires Inv(s, {}) && i < |s.inFlight| && IsLoading(s, s.inFlight[i].uri)
    requires image.Some? ==> image.value.uri == s.inFlight[i].uri
    ensures var v := Landed(s, i, image);
            && v.pending == s.pending && v.reports == s.reports && v.intra == s.intra && v.cross == s.cross
            && (if image.Some? then s.inFlight[i].uri in v.uris && v.uris[s.inFlight[i].uri] == Ready(image.value)
                else s.inFlight[i].uri !in v.uris)
  {
    FinishStep(s, i);
    if image.Some? {
      RememberStep(Finished(s, i), Members(s.uris[s.inFlight[i].uri].consumers), s.inFlight[i].uri, image.value);
    }
  }

  /** Who waits for a URI lacks that side. */
  lemma WaitersLack(s: State, uri: string)
    requires Inv(s, {}) && IsLoading(s, uri)
    ensures Distinct(s.uris[uri].consumers)
    ensures forall c :: c in s.uris[uri].consumers && c.id in s.pending ==> s.pending[c.id].File(c.side).None?
  {
    forall c | c in s.uris[uri].consumers && c.id in s.pending ensures s.pending[c.id].File(c.side).None? {
      assert Waits(s, c, uri) && Missing(s, c);
    }
  }
}
