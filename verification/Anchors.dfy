/** The metadata anchors of a contract: a sorted list of records with different token ids,
    kept short by a limit, or collected unsorted and put in order at the end. */
module Anchors {
  import opened Wrappers
  import opened Sorting
  import opened TokenOrder

  datatype MetadataRecord = MetadataRecord(tokenId: string, json: string, sourceOrder: nat)

  ghost predicate InOrder(isEvm: bool, anchors: seq<MetadataRecord>) {
    forall i, j :: 0 <= i < j < |anchors| ==> TokenLeq(anchors[i].tokenId, anchors[j].tokenId, isEvm)
  }

  ghost predicate DistinctIds(anchors: seq<MetadataRecord>) {
    forall i, j :: 0 <= i < j < |anchors| ==> anchors[i].tokenId != anchors[j].tokenId
  }

  ghost predicate HasId(anchors: seq<MetadataRecord>, id: string) {
    exists i :: 0 <= i < |anchors| && anchors[i].tokenId == id
  }

  ghost predicate WithinLimit(anchors: seq<MetadataRecord>, limit: Option<nat>) {
    limit.Some? ==> |anchors| <= limit.value
  }

  /** Nothing kept is greater. */
  ghost predicate NoneGreater(isEvm: bool, anchors: seq<MetadataRecord>, id: string) {
    forall i :: 0 <= i < |anchors| ==> TokenLeq(anchors[i].tokenId, id, isEvm)
  }

  /** An id that was seen is kept, or the list is full of ids that are not greater. */
  ghost predicate Smallest(isEvm: bool, anchors: seq<MetadataRecord>, limit: Option<nat>, seen: set<string>) {
    forall id :: id in seen ==>
      HasId(anchors, id) || (limit.Some? && |anchors| == limit.value && NoneGreater(isEvm, anchors, id))
  }

  ghost predicate Bounded(isEvm: bool, anchors: seq<MetadataRecord>, limit: Option<nat>, seen: set<string>) {
    && InOrder(isEvm, anchors) && DistinctIds(anchors) && WithinLimit(anchors, limit)
    && Smallest(isEvm, anchors, limit, seen)
    && forall i :: 0 <= i < |anchors| ==> anchors[i].tokenId in seen
  }

  /** Where a token may be put: at an equal id, or between the smaller and the greater ones. */
  ghost predicate Fits(isEvm: bool, anchors: seq<MetadataRecord>, id: string, p: nat) {
    && p <= |anchors|
    && (forall i :: 0 <= i < p ==> TokenLeq(anchors[i].tokenId, id, isEvm))
    && (forall i :: p <= i < |anchors| ==> TokenLeq(id, anchors[i].tokenId, isEvm))
  }

  /** `binary_search_by`, probing wherever it likes: any equal id will do. */
  method BinarySearch(anchors: seq<MetadataRecord>, id: string, isEvm: bool, probe: (nat, nat) -> nat) returns (p: nat)
    requires InOrder(isEvm, anchors)
    ensures Fits(isEvm, anchors, id, p)
  {
    hide CompareTokenIds;
    var lo, hi: nat := 0, |anchors|;
    while lo < hi
      invariant lo <= hi <= |anchors|
      invariant forall i :: 0 <= i < lo ==> TokenLeq(anchors[i].tokenId, id, isEvm)
      invariant forall i :: hi <= i < |anchors| ==> TokenLeq(id, anchors[i].tokenId, isEvm)
    {
      var mid := if lo <= probe(lo, hi) < hi then probe(lo, hi) else lo;
      TokenReversed(anchors[mid].tokenId, id, isEvm);
      forall i | 0 <= i < mid && TokenLeq(anchors[mid].tokenId, id, isEvm) ensures TokenLeq(anchors[i].tokenId, id, isEvm) {
        TokenTransitive(anchors[i].tokenId, anchors[mid].tokenId, id, isEvm);
      }
      forall i | mid < i < |anchors| && TokenLeq(id, anchors[mid].tokenId, isEvm) ensures TokenLeq(id, anchors[i].tokenId, isEvm) {
        TokenTransitive(id, anchors[mid].tokenId, anchors[i].tokenId, isEvm);
      }
      match CompareTokenIds(anchors[mid].tokenId, id, isEvm) {
        case Less => lo := mid + 1;
        case Greater => hi := mid;
        case Equal => return mid;
      }
    }
    p := lo;
  }

  function Inserted(anchors: seq<MetadataRecord>, p: nat, r: MetadataRecord): seq<MetadataRecord>
    requires p <= |anchors|
  {
    anchors[..p] + [r] + anchors[p..]
  }

  lemma InsertedInOrder(isEvm: bool, anchors: seq<MetadataRecord>, p: nat, r: MetadataRecord)
    requires InOrder(isEvm, anchors) && DistinctIds(anchors) && !HasId(anchors, r.tokenId) && Fits(isEvm, anchors, r.tokenId, p)
    ensures InOrder(isEvm, Inserted(anchors, p, r)) && DistinctIds(Inserted(anchors, p, r))
  {
    hide TokenLeq;
    var now := Inserted(anchors, p, r);
    forall i | 0 <= i < |now| ensures now[i] == if i < p then anchors[i] else if i == p then r else anchors[i - 1] {
    }
  }

  lemma InsertedHas(anchors: seq<MetadataRecord>, p: nat, r: MetadataRecord, id: string)
    requires p <= |anchors|
    ensures HasId(Inserted(anchors, p, r), id) <==> HasId(anchors, id) || id == r.tokenId
  {
    var now := Inserted(anchors, p, r);
    forall i | 0 <= i < |now| ensures now[i] == if i < p then anchors[i] else if i == p then r else anchors[i - 1] {
    }
    if HasId(anchors, id) {
      var i :| 0 <= i < |anchors| && anchors[i].tokenId == id;
      assert now[if i < p then i else i + 1].tokenId == id;
    }
    assert now[p].tokenId == r.tokenId;
  }

  /** With no room for it, a token at the end of the list is one nothing kept is greater than. */
  lemma Refused(isEvm: bool, anchors: seq<MetadataRecord>, limit: Option<nat>, seen: set<string>, id: string)
    requires Bounded(isEvm, anchors, limit, seen)
    requires HasId(anchors, id) || (limit.Some? && |anchors| == limit.value && NoneGreater(isEvm, anchors, id))
    ensures Bounded(isEvm, anchors, limit, seen + {id})
  {
    hide TokenLeq, HasId, NoneGreater;
  }

  lemma Accepted(isEvm: bool, anchors: seq<MetadataRecord>, limit: Option<nat>, seen: set<string>, r: MetadataRecord, p: nat)
    requires Bounded(isEvm, anchors, limit, seen) && !HasId(anchors, r.tokenId) && Fits(isEvm, anchors, r.tokenId, p)
    requires limit.Some? ==> |anchors| < limit.value
    ensures Bounded(isEvm, Inserted(anchors, p, r), limit, seen + {r.tokenId})
  {
    hide TokenLeq, HasId, NoneGreater, InOrder, DistinctIds;
    InsertedInOrder(isEvm, anchors, p, r);
    forall id ensures HasId(Inserted(anchors, p, r), id) <==> HasId(anchors, id) || id == r.tokenId {
      InsertedHas(anchors, p, r, id);
    }
    var now := Inserted(anchors, p, r);
    forall i | 0 <= i < |now| ensures now[i].tokenId in seen + {r.tokenId} {
      assert now[i] == if i < p then anchors[i] else if i == p then r else anchors[i - 1];
    }
  }

  /** In a full list a token takes its place and the last one goes. */
  lemma Displaced(isEvm: bool, anchors: seq<MetadataRecord>, limit: Option<nat>, seen: set<string>, r: MetadataRecord, p: nat)
    requires Bounded(isEvm, anchors, limit, seen) && !HasId(anchors, r.tokenId) && Fits(isEvm, anchors, r.tokenId, p)
    requires limit.Some? && |anchors| == limit.value && p < |anchors|
    ensures Bounded(isEvm, Inserted(anchors, p, r)[..|anchors|], limit, seen + {r.tokenId})
  {
    var full := Inserted(anchors, p, r);
    var now := full[..|anchors|];
    InsertedInOrder(isEvm, anchors, p, r);
    hide TokenLeq;
    forall i | 0 <= i < |full| ensures full[i] == if i < p then anchors[i] else if i == p then r else anchors[i - 1] {
    }
    forall id | id in seen + {r.tokenId} ensures HasId(now, id) || NoneGreater(isEvm, now, id) {
      DisplacedKeeps(isEvm, anchors, limit, seen, r, p, id);
    }
  }

  lemma DisplacedKeeps(isEvm: bool, anchors: seq<MetadataRecord>, limit: Option<nat>, seen: set<string>, r: MetadataRecord, p: nat,
                       id: string)
    requires Bounded(isEvm, anchors, limit, seen) && Fits(isEvm, anchors, r.tokenId, p) && id in seen + {r.tokenId}
    requires limit.Some? && |anchors| == limit.value && p < |anchors|
    requires InOrder(isEvm, Inserted(anchors, p, r))
    ensures HasId(Inserted(anchors, p, r)[..|anchors|], id) || NoneGreater(isEvm, Inserted(anchors, p, r)[..|anchors|], id)
  {
    hide TokenLeq, InOrder, DistinctIds;
    var full := Inserted(anchors, p, r);
    var now, last := full[..|anchors|], full[|anchors|].tokenId;
    InsertedHas(anchors, p, r, id);
    if HasId(full, id) {
      LastOrKept(isEvm, full, |anchors|, id);
    } else {
      assert NoneGreater(isEvm, anchors, id);
      forall i | 0 <= i < |now| ensures TokenLeq(now[i].tokenId, id, isEvm) {
        if i == p {
          assert full[p] == r;
          TokenTransitive(r.tokenId, anchors[p].tokenId, id, isEvm);
        } else {
          assert now[i] == anchors[if i < p then i else i - 1];
        }
      }
    }
  }

  lemma LastOrKept(isEvm: bool, full: seq<MetadataRecord>, n: nat, id: string)
    requires InOrder(isEvm, full) && |full| == n + 1 && HasId(full, id)
    ensures HasId(full[..n], id) || NoneGreater(isEvm, full[..n], id)
  {
    var i :| 0 <= i < |full| && full[i].tokenId == id;
    if i < n {
      assert full[..n][i].tokenId == id;
    }
  }

  /** The record stands in the list, and no record before it has its id. */
  ghost predicate FirstOfId(s: seq<MetadataRecord>, r: MetadataRecord, f: nat) {
    f < |s| && s[f] == r && forall k :: 0 <= k < f ==> s[k].tokenId != r.tokenId
  }

  ghost predicate IsFirst(s: seq<MetadataRecord>, r: MetadataRecord) {
    exists f: nat :: FirstOfId(s, r, f)
  }

  // ----- which records are kept

  /** No two different ids compare equal, as `1` and `01` do on EVM chains. */
  ghost predicate NoTies(isEvm: bool, seen: set<string>) {
    forall x, y :: x in seen && y in seen && TokenLeq(x, y, isEvm) && TokenLeq(y, x, isEvm) ==> x == y
  }

  /** Each record kept is the first that was offered with its id. */
  ghost predicate FirstRecords(anchors: seq<MetadataRecord>, offered: seq<MetadataRecord>) {
    forall i :: 0 <= i < |anchors| ==> IsFirst(offered, anchors[i])
  }

  /** The list that comes of `offered`. */
  ghost predicate ListOk(isEvm: bool, anchors: seq<MetadataRecord>, limit: Option<nat>, offered: seq<MetadataRecord>) {
    && Bounded(isEvm, anchors, limit, IdsOf(offered))
    && (NoTies(isEvm, IdsOf(offered)) ==> FirstRecords(anchors, offered))
  }

  /** Where an absent id finds room although it was offered before, it ties with a kept one. */
  lemma RoomTies(isEvm: bool, anchors: seq<MetadataRecord>, limit: Option<nat>, seen: set<string>, id: string, p: nat)
    requires Bounded(isEvm, anchors, limit, seen) && !HasId(anchors, id) && Fits(isEvm, anchors, id, p) && id in seen
    requires !(limit.Some? && p >= limit.value && |anchors| >= limit.value)
    ensures p < |anchors| && TokenLeq(anchors[p].tokenId, id, isEvm) && TokenLeq(id, anchors[p].tokenId, isEvm)
  {
    hide TokenLeq;
    assert NoneGreater(isEvm, anchors, id);
  }

  lemma NewIsFirst(isEvm: bool, anchors: seq<MetadataRecord>, limit: Option<nat>, seen: set<string>, id: string, p: nat)
    requires Bounded(isEvm, anchors, limit, seen) && NoTies(isEvm, seen)
    requires !HasId(anchors, id) && Fits(isEvm, anchors, id, p) && !(limit.Some? && p >= limit.value && |anchors| >= limit.value)
    ensures id !in seen
  {
    hide TokenLeq;
    if id in seen {
      RoomTies(isEvm, anchors, limit, seen, id, p);
    }
  }

  lemma OfferMore(offered: seq<MetadataRecord>, r: MetadataRecord)
    ensures forall x :: IsFirst(offered, x) ==> IsFirst(offered + [r], x)
    ensures r.tokenId !in IdsOf(offered) ==> IsFirst(offered + [r], r)
  {
    forall x | IsFirst(offered, x) ensures IsFirst(offered + [r], x) {
      var f: nat :| FirstOfId(offered, x, f);
      assert FirstOfId(offered + [r], x, f);
    }
    if r.tokenId !in IdsOf(offered) {
      assert FirstOfId(offered + [r], r, |offered|);
    }
  }

  /** What stays of a list and a record that was never offered are first records. */
  lemma FirstRecordsMore(anchors: seq<MetadataRecord>, offered: seq<MetadataRecord>, r: MetadataRecord, now: seq<MetadataRecord>)
    requires FirstRecords(anchors, offered)
    requires forall x :: x in now ==> x in anchors || (x == r && r.tokenId !in IdsOf(offered))
    ensures FirstRecords(now, offered + [r])
  {
    hide IsFirst;
    OfferMore(offered, r);
    forall i | 0 <= i < |now| ensures IsFirst(offered + [r], now[i]) {
      assert now[i] in now;
    }
  }

  // ----- the list of one contract

  class AnchorList {
    const isEvm: bool
    const limit: Option<nat>
    const deferred: bool
    var anchors: seq<MetadataRecord>

    /** Every record offered so far. */
    ghost var offered: seq<MetadataRecord>

    ghost predicate Valid() reads this {
      if deferred then limit.None? && anchors == offered
      else ListOk(isEvm, anchors, limit, offered)
    }

    /** Sorting is only put off when there is no limit. */
    constructor (isEvm: bool, limit: Option<nat>, deferred: bool)
      requires deferred ==> limit.None?
      ensures Valid() && offered == [] && this.isEvm == isEvm && this.limit == limit && this.deferred == deferred
    {
      this.isEvm, this.limit, this.deferred := isEvm, limit, deferred;
      anchors, offered := [], [];
    }

    /** `insert_metadata_anchor` */
    method Insert(r: MetadataRecord, probe: (nat, nat) -> nat)
      requires Valid()
      modifies this
      ensures Valid() && offered == old(offered) + [r]
      ensures !deferred && HasId(old(anchors), r.tokenId) ==> anchors == old(anchors)
      ensures forall x :: x in anchors ==> x in old(anchors) || x == r
    {
      hide ListOk, HasId, Inserted, CompareTokenIds, InOrder;
      offered := offered + [r];
      if limit == Some(0) {
        RefuseStep(isEvm, anchors, limit, old(offered), r);
        return;
      }
      if deferred {
        anchors := anchors + [r];
        return;
      }
      var known := KnowsId(anchors, r.tokenId);
      ListParts(isEvm, anchors, limit, old(offered));
      if known {
        RefuseStep(isEvm, anchors, limit, old(offered), r);
        return;
      }
      var at := BinarySearch(anchors, r.tokenId, isEvm, probe);
      if limit.Some? && at >= limit.value && |anchors| >= limit.value {
        RefuseStep(isEvm, anchors, limit, old(offered), r);
        return;
      }
      InsertStep(isEvm, anchors, limit, old(offered), r, at);
      InsertedSize(anchors, at, r);
      anchors := Inserted(anchors, at, r);
      if limit.Some? && |anchors| > limit.value {
        anchors := anchors[..|anchors| - 1];
      }
    }

    /** The anchors of `merge_shard`: what another shard kept of the same contract is
        inserted after everything offered here. */
    method MergeFrom(other: AnchorList, probe: (nat, nat) -> nat)
      requires Valid() && other.Valid() && other != this
      requires isEvm == other.isEvm && limit == other.limit && deferred == other.deferred
      modifies this
      ensures Valid() && offered == old(offered) + other.offered
    {
      hide ListOk, Bounded;
      for k := 0 to |other.anchors|
        invariant Valid() && other.Valid() && offered == old(offered) + other.anchors[..k]
      {
        assert other.anchors[..k + 1] == other.anchors[..k] + [other.anchors[k]];
        Insert(other.anchors[k], probe);
      }
      assert other.anchors[..|other.anchors|] == other.anchors;
      if !deferred {
        Merged(isEvm, anchors, limit, old(offered), other.anchors, other.offered);
        offered := old(offered) + other.offered;
      }
    }

    method KnowsId(list: seq<MetadataRecord>, id: string) returns (known: bool)
      ensures known <==> HasId(list, id)
    {
      for k := 0 to |list|
        invariant forall i :: 0 <= i < k ==> list[i].tokenId != id
      {
        if list[k].tokenId == id {
          return true;
        }
      }
      return false;
    }

    /** `finalize_metadata_anchors`: a deferred list is sorted, then each id kept once. */
    method Finalize()
      requires Valid()
      modifies this`anchors
      ensures InOrder(isEvm, anchors) && DistinctIds(anchors) && WithinLimit(anchors, limit)
      ensures limit.None? ==> forall id :: HasId(anchors, id) <==> HasId(offered, id)
      ensures deferred ==> Earliest(anchors, offered)
      ensures !deferred ==> anchors == old(anchors)
    {
      if !deferred {
        UnboundedKeepsAll(isEvm, anchors, limit, offered);
        return;
      }
      FinalOrder(isEvm, offered);
      anchors := DedupById(Sort(RecordLeq(isEvm), anchors));
    }
  }

  lemma InsertedSize(anchors: seq<MetadataRecord>, p: nat, r: MetadataRecord)
    requires p <= |anchors|
    ensures |Inserted(anchors, p, r)| == |anchors| + 1
  {}

  lemma ListParts(isEvm: bool, anchors: seq<MetadataRecord>, limit: Option<nat>, offered: seq<MetadataRecord>)
    requires ListOk(isEvm, anchors, limit, offered)
    ensures InOrder(isEvm, anchors) && WithinLimit(anchors, limit)
  {}

  lemma FewerNoTies(isEvm: bool, offered: seq<MetadataRecord>, r: MetadataRecord)
    ensures IdsOf(offered + [r]) == IdsOf(offered) + {r.tokenId}
    ensures NoTies(isEvm, IdsOf(offered + [r])) ==> NoTies(isEvm, IdsOf(offered))
  {
    hide TokenLeq;
    IdsMore(offered, r);
  }

  /** A record whose id is listed already, or for which there is no room, changes nothing. */
  lemma RefuseStep(isEvm: bool, anchors: seq<MetadataRecord>, limit: Option<nat>, offered: seq<MetadataRecord>, r: MetadataRecord)
    requires ListOk(isEvm, anchors, limit, offered)
    requires || HasId(anchors, r.tokenId)
             || (limit.Some? && |anchors| >= limit.value && NoneGreater(isEvm, anchors, r.tokenId))
             || limit == Some(0)
    ensures ListOk(isEvm, anchors, limit, offered + [r])
  {
    hide TokenLeq, HasId, NoneGreater, IsFirst, IdsOf, NoTies;
    FewerNoTies(isEvm, offered, r);
    if limit == Some(0) {
      NoneGreaterOfNone(isEvm, anchors, r.tokenId);
    }
    Refused(isEvm, anchors, limit, IdsOf(offered), r.tokenId);
    if NoTies(isEvm, IdsOf(offered + [r])) {
      FirstRecordsMore(anchors, offered, r, anchors);
    }
  }

  lemma NoneGreaterOfNone(isEvm: bool, anchors: seq<MetadataRecord>, id: string)
    ensures anchors == [] ==> NoneGreater(isEvm, anchors, id)
  {}

  /** A record with room takes its place; in a full list the last one goes. */
  lemma InsertStep(isEvm: bool, anchors: seq<MetadataRecord>, limit: Option<nat>, offered: seq<MetadataRecord>, r: MetadataRecord, p: nat)
    requires ListOk(isEvm, anchors, limit, offered) && !HasId(anchors, r.tokenId) && Fits(isEvm, anchors, r.tokenId, p)
    requires !(limit.Some? && p >= limit.value && |anchors| >= limit.value)
    ensures var full := Inserted(anchors, p, r);
            var now := if limit.Some? && |full| > limit.value then full[..|full| - 1] else full;
            ListOk(isEvm, now, limit, offered + [r]) && forall x :: x in now ==> x in anchors || x == r
  {
    hide TokenLeq, HasId, NoneGreater, IsFirst, IdsOf, NoTies, InOrder, DistinctIds, Smallest;
    FewerNoTies(isEvm, offered, r);
    var full := Inserted(anchors, p, r);
    var now := if limit.Some? && |full| > limit.value then full[..|full| - 1] else full;
    if limit.Some? && |full| > limit.value {
      Displaced(isEvm, anchors, limit, IdsOf(offered), r, p);
    } else {
      Accepted(isEvm, anchors, limit, IdsOf(offered), r, p);
    }
    if NoTies(isEvm, IdsOf(offered + [r])) {
      NewIsFirst(isEvm, anchors, limit, IdsOf(offered), r.tokenId, p);
      FirstRecordsMore(anchors, offered, r, now);
    }
  }

  ghost function IdsOf(list: seq<MetadataRecord>): set<string> {
    set i | 0 <= i < |list| :: list[i].tokenId
  }

  lemma IdsMore(list: seq<MetadataRecord>, r: MetadataRecord)
    ensures IdsOf(list + [r]) == IdsOf(list) + {r.tokenId}
  {
    assert (list + [r])[|list|] == r;
    forall id | id in IdsOf(list) ensures id in IdsOf(list + [r]) {
      var i :| 0 <= i < |list| && list[i].tokenId == id;
      assert (list + [r])[i].tokenId == id;
    }
  }

  lemma IdsJoin(a: seq<MetadataRecord>, b: seq<MetadataRecord>)
    ensures IdsOf(a + b) == IdsOf(a) + IdsOf(b)
  {
    forall id ensures id in IdsOf(a + b) <==> id in IdsOf(a) + IdsOf(b) {
      HasIdJoin(a, b, id);
      HasIdIn(a, id);
      HasIdIn(b, id);
      HasIdIn(a + b, id);
    }
  }

  lemma HasIdIn(list: seq<MetadataRecord>, id: string)
    ensures id in IdsOf(list) <==> HasId(list, id)
  {}

  lemma HasIdJoin(a: seq<MetadataRecord>, b: seq<MetadataRecord>, id: string)
    ensures HasId(a + b, id) <==> HasId(a, id) || HasId(b, id)
  {
    if HasId(a, id) {
      var i :| 0 <= i < |a| && a[i].tokenId == id;
      assert (a + b)[i].tokenId == id;
    }
    if HasId(b, id) {
      var i :| 0 <= i < |b| && b[i].tokenId == id;
      assert (a + b)[|a| + i].tokenId == id;
    }
  }

  lemma {:induction false} IdsCount(list: seq<MetadataRecord>)
    requires DistinctIds(list)
    ensures |IdsOf(list)| == |list|
  {
    if list != [] {
      var init, last := list[..|list| - 1], list[|list| - 1];
      IdsCount(init);
      assert list == init + [last];
      IdsMore(init, last);
      assert last.tokenId !in IdsOf(init);
    }
  }

  // ----- merging two shards

  /** Inserting what another list kept is as good as being offered all it was offered. */
  lemma Merged(isEvm: bool, anchors: seq<MetadataRecord>, limit: Option<nat>, before: seq<MetadataRecord>,
               kept: seq<MetadataRecord>, offered: seq<MetadataRecord>)
    requires ListOk(isEvm, anchors, limit, before + kept) && ListOk(isEvm, kept, limit, offered)
    ensures ListOk(isEvm, anchors, limit, before + offered)
  {
    hide TokenLeq, HasId, NoneGreater, IsFirst, IdsOf, InOrder, DistinctIds;
    IdsJoin(before, kept);
    IdsJoin(before, offered);
    KeptIds(isEvm, kept, limit, IdsOf(offered));
    forall id | id in IdsOf(before + offered)
      ensures HasId(anchors, id) || (limit.Some? && |anchors| == limit.value && NoneGreater(isEvm, anchors, id))
    {
      if id !in IdsOf(before + kept) {
        MergedBound(isEvm, anchors, limit, IdsOf(before + kept), kept, IdsOf(offered), id);
      }
    }
    if NoTies(isEvm, IdsOf(before + offered)) {
      assert NoTies(isEvm, IdsOf(before + kept)) && NoTies(isEvm, IdsOf(offered));
      forall i | 0 <= i < |anchors| ensures IsFirst(before + offered, anchors[i]) {
        MergedFirst(before, kept, offered, anchors[i]);
      }
    }
  }

  lemma KeptIds(isEvm: bool, kept: seq<MetadataRecord>, limit: Option<nat>, seen: set<string>)
    requires Bounded(isEvm, kept, limit, seen)
    ensures IdsOf(kept) <= seen
  {}

  /** An id the other list gave up is bounded here too: either all that displaced it came in,
      and fills the list, or the list is full of ids that are not greater than one of them. */
  lemma MergedBound(isEvm: bool, anchors: seq<MetadataRecord>, limit: Option<nat>, seen: set<string>,
                    kept: seq<MetadataRecord>, offered: set<string>, id: string)
    requires Bounded(isEvm, anchors, limit, seen) && Bounded(isEvm, kept, limit, offered) && IdsOf(kept) <= seen
    requires id in offered && id !in IdsOf(kept)
    ensures limit.Some? && |anchors| == limit.value && NoneGreater(isEvm, anchors, id)
  {
    hide TokenLeq, InOrder;
    HasIdIn(kept, id);
    assert NoneGreater(isEvm, kept, id) && |kept| == limit.value;
    IdsCount(kept);
    IdsCount(anchors);
    if IdsOf(kept) <= IdsOf(anchors) {
      SubsetIsAll(IdsOf(kept), IdsOf(anchors));
      forall i | 0 <= i < |anchors| ensures TokenLeq(anchors[i].tokenId, id, isEvm) {
        assert anchors[i].tokenId in IdsOf(kept);
      }
    } else {
      var o :| o in IdsOf(kept) && o !in IdsOf(anchors);
      HasIdIn(anchors, o);
      assert TokenLeq(o, id, isEvm) && NoneGreater(isEvm, anchors, o);
      forall i | 0 <= i < |anchors| ensures TokenLeq(anchors[i].tokenId, id, isEvm) {
        TokenTransitive(anchors[i].tokenId, o, id, isEvm);
      }
    }
  }

  lemma SubsetIsAll<T>(x: set<T>, y: set<T>)
    requires x <= y && |y| <= |x|
    ensures x == y
  {
    assert y == x + (y - x) && |y| == |x| + |y - x|;
    assert y - x == {};
  }

  /** The first record of an id among all that was offered first here and then kept there. */
  lemma MergedFirst(before: seq<MetadataRecord>, kept: seq<MetadataRecord>, offered: seq<MetadataRecord>, r: MetadataRecord)
    requires IsFirst(before + kept, r) && FirstRecords(kept, offered)
    ensures IsFirst(before + offered, r)
  {
    var f: nat :| FirstOfId(before + kept, r, f);
    assert forall k :: 0 <= k < |before| ==> (before + kept)[k] == before[k] == (before + offered)[k];
    if f < |before| {
      assert FirstOfId(before + offered, r, f);
    } else {
      assert IsFirst(offered, kept[f - |before|]);
      var g: nat :| FirstOfId(offered, r, g);
      assert FirstOfId(before + offered, r, |before| + g);
    }
  }

  /** As long as no two different ids tie, the list is a function of what was offered: shards
      merged in order give the list of one insertion after the other. */
  lemma ListIsUnique(isEvm: bool, a: seq<MetadataRecord>, b: seq<MetadataRecord>, limit: Option<nat>, offered: seq<MetadataRecord>)
    requires ListOk(isEvm, a, limit, offered) && ListOk(isEvm, b, limit, offered) && NoTies(isEvm, IdsOf(offered))
    ensures a == b
  {
    hide TokenLeq, HasId, NoneGreater, IsFirst;
    SameKeptIds(isEvm, a, b, limit, IdsOf(offered));
    SameKeptIds(isEvm, b, a, limit, IdsOf(offered));
    IdsCount(a);
    IdsCount(b);
    assert IdsOf(a) == IdsOf(b);
    forall i | 0 <= i < |a| ensures a[i] == b[i] {
      SameIdAt(isEvm, a, b, IdsOf(offered), |a|);
      assert IsFirst(offered, a[i]) && IsFirst(offered, b[i]);
      SameFirst(offered, a[i], b[i]);
    }
  }

  lemma SameFirst(offered: seq<MetadataRecord>, x: MetadataRecord, y: MetadataRecord)
    requires IsFirst(offered, x) && IsFirst(offered, y) && x.tokenId == y.tokenId
    ensures x == y
  {
    var f: nat :| FirstOfId(offered, x, f);
    var g: nat :| FirstOfId(offered, y, g);
  }

  /** An id kept by one list and not by the other ties with one kept the other way round. */
  lemma TiePartner(isEvm: bool, a: seq<MetadataRecord>, b: seq<MetadataRecord>, limit: Option<nat>, seen: set<string>, x: string)
    returns (y: string)
    requires Bounded(isEvm, a, limit, seen) && Bounded(isEvm, b, limit, seen) && x in IdsOf(a) && x !in IdsOf(b)
    ensures y in IdsOf(b) && y !in IdsOf(a) && TokenLeq(x, y, isEvm) && TokenLeq(y, x, isEvm)
  {
    hide TokenLeq, InOrder;
    IdsCount(a);
    IdsCount(b);
    HasIdIn(b, x);
    assert |b| == limit.value && NoneGreater(isEvm, b, x);
    if IdsOf(b) <= IdsOf(a) {
      SubsetIsAll(IdsOf(b), IdsOf(a));
    }
    y :| y in IdsOf(b) && y !in IdsOf(a);
    HasIdIn(a, y);
    assert NoneGreater(isEvm, a, y);
  }

  lemma SameKeptIds(isEvm: bool, a: seq<MetadataRecord>, b: seq<MetadataRecord>, limit: Option<nat>, seen: set<string>)
    requires Bounded(isEvm, a, limit, seen) && Bounded(isEvm, b, limit, seen) && NoTies(isEvm, seen)
    ensures IdsOf(a) <= IdsOf(b)
  {
    hide TokenLeq, InOrder, HasId, NoneGreater;
    KeptIds(isEvm, a, limit, seen);
    KeptIds(isEvm, b, limit, seen);
    if x :| x in IdsOf(a) && x !in IdsOf(b) {
      var _ := TiePartner(isEvm, a, b, limit, seen, x);
    }
  }

  /** Two lists of the same ids in order agree place by place. */
  lemma {:induction false} SameIdAt(isEvm: bool, a: seq<MetadataRecord>, b: seq<MetadataRecord>, seen: set<string>, n: nat)
    requires InOrder(isEvm, a) && DistinctIds(a) && InOrder(isEvm, b) && DistinctIds(b) && NoTies(isEvm, seen)
    requires IdsOf(a) == IdsOf(b) <= seen && |a| == |b| && n <= |a|
    ensures forall i :: 0 <= i < n ==> a[i].tokenId == b[i].tokenId
  {
    hide TokenLeq;
    if n > 0 {
      SameIdAt(isEvm, a, b, seen, n - 1);
      NextId(isEvm, a, b, n - 1);
      NextId(isEvm, b, a, n - 1);
      assert a[n - 1].tokenId in IdsOf(a) && b[n - 1].tokenId in IdsOf(b);
    }
  }

  lemma NextId(isEvm: bool, a: seq<MetadataRecord>, b: seq<MetadataRecord>, k: nat)
    requires InOrder(isEvm, b) && DistinctIds(a) && IdsOf(a) == IdsOf(b) && k < |a| == |b|
    requires forall i :: 0 <= i < k ==> a[i].tokenId == b[i].tokenId
    ensures TokenLeq(b[k].tokenId, a[k].tokenId, isEvm)
  {
    hide TokenLeq;
    assert a[k].tokenId in IdsOf(b);
    var j :| 0 <= j < |b| && b[j].tokenId == a[k].tokenId;
    TokenReflexive(a[k].tokenId, isEvm);
    assert j >= k;
  }

  lemma TokenReflexive(x: string, isEvm: bool)
    ensures TokenLeq(x, x, isEvm)
  {
    TokenReversed(x, x, isEvm);
  }

  /** Without a limit every id seen is kept. */
  lemma UnboundedKeepsAll(isEvm: bool, anchors: seq<MetadataRecord>, limit: Option<nat>, offered: seq<MetadataRecord>)
    requires Bounded(isEvm, anchors, limit, IdsOf(offered))
    ensures InOrder(isEvm, anchors) && DistinctIds(anchors) && WithinLimit(anchors, limit)
    ensures limit.None? ==> forall id :: HasId(anchors, id) <==> HasId(offered, id)
  {
    hide TokenLeq;
    forall id ensures HasId(offered, id) <==> id in IdsOf(offered) {
    }
  }

  // ----- the deferred sort

  /** By token id, then by its text, then by source order. */
  predicate RecordLess(isEvm: bool, x: MetadataRecord, y: MetadataRecord) {
    match CompareTokenIds(x.tokenId, y.tokenId, isEvm)
    case Less => true
    case Greater => false
    case Equal =>
      match CompareText(x.tokenId, y.tokenId)
      case Less => true
      case Greater => false
      case Equal => x.sourceOrder <= y.sourceOrder
  }

  function RecordLeq(isEvm: bool): (MetadataRecord, MetadataRecord) -> bool {
    (x, y) => RecordLess(isEvm, x, y)
  }

  lemma RecordTransitive(isEvm: bool, x: MetadataRecord, y: MetadataRecord, z: MetadataRecord)
    requires RecordLess(isEvm, x, y) && RecordLess(isEvm, y, z)
    ensures RecordLess(isEvm, x, z)
  {
    hide CompareTokenIds, CompareText;
    TokenTransitive(x.tokenId, y.tokenId, z.tokenId, isEvm);
    TokenReversed(x.tokenId, y.tokenId, isEvm);
    TokenReversed(y.tokenId, z.tokenId, isEvm);
    TokenReversed(x.tokenId, z.tokenId, isEvm);
    if CompareTokenIds(x.tokenId, z.tokenId, isEvm).Equal? {
      TokenTransitive(z.tokenId, x.tokenId, y.tokenId, isEvm);
      TokenTransitive(y.tokenId, z.tokenId, x.tokenId, isEvm);
      TextReversed(x.tokenId, y.tokenId);
      TextReversed(y.tokenId, z.tokenId);
      TextReversed(x.tokenId, z.tokenId);
      TextTransitive(x.tokenId, y.tokenId, z.tokenId);
    }
  }

  lemma RecordLeqTotal(isEvm: bool)
    ensures TotalPreorder(RecordLeq(isEvm))
  {
    hide CompareTokenIds, CompareText;
    forall x, y ensures RecordLess(isEvm, x, y) || RecordLess(isEvm, y, x) {
      TokenReversed(x.tokenId, y.tokenId, isEvm);
      TextReversed(x.tokenId, y.tokenId);
    }
    forall x, y, z | RecordLess(isEvm, x, y) && RecordLess(isEvm, y, z) ensures RecordLess(isEvm, x, z) {
      RecordTransitive(isEvm, x, y, z);
    }
  }

  /** `dedup_by` on the token id: of equal neighbours the first stays. */
  function DedupById(s: seq<MetadataRecord>): seq<MetadataRecord> {
    if |s| <= 1 then s
    else if s[|s| - 1].tokenId == s[|s| - 2].tokenId then DedupById(s[..|s| - 1])
    else DedupById(s[..|s| - 1]) + [s[|s| - 1]]
  }

  /** Each record kept is the first of its id by source order. */
  ghost predicate Earliest(anchors: seq<MetadataRecord>, offered: seq<MetadataRecord>) {
    forall i, k :: 0 <= i < |anchors| && 0 <= k < |offered| && offered[k].tokenId == anchors[i].tokenId ==>
      anchors[i].sourceOrder <= offered[k].sourceOrder
  }

  /** Between two records of one id there are only records of that id. */
  lemma Sandwich(isEvm: bool, x: MetadataRecord, y: MetadataRecord, z: MetadataRecord)
    requires RecordLess(isEvm, x, y) && RecordLess(isEvm, y, z) && x.tokenId == z.tokenId
    ensures y.tokenId == x.tokenId
  {
    hide CompareTokenIds, CompareText;
    TokenReversed(x.tokenId, y.tokenId, isEvm);
    TextReversed(x.tokenId, y.tokenId);
  }

  lemma SameIdOrdered(isEvm: bool, x: MetadataRecord, y: MetadataRecord)
    requires RecordLess(isEvm, x, y) && x.tokenId == y.tokenId
    ensures x.sourceOrder <= y.sourceOrder
  {
    hide CompareTokenIds, CompareText;
    TokenReversed(x.tokenId, y.tokenId, isEvm);
    TextReversed(x.tokenId, y.tokenId);
  }

  ghost predicate Ascending(s: seq<MetadataRecord>, x: MetadataRecord, y: MetadataRecord) {
    forall f: nat, g: nat :: FirstOfId(s, x, f) && FirstOfId(s, y, g) ==> f < g
  }

  ghost predicate Firsts(s: seq<MetadataRecord>, d: seq<MetadataRecord>) {
    && (forall i :: 0 <= i < |d| ==> IsFirst(s, d[i]))
    && (forall i, j :: 0 <= i < j < |d| ==> Ascending(s, d[i], d[j]))
    && (forall k :: 0 <= k < |s| ==> HasId(d, s[k].tokenId))
  }

  lemma FirstIsOne(s: seq<MetadataRecord>, r: MetadataRecord, f: nat, g: nat)
    requires FirstOfId(s, r, f) && FirstOfId(s, r, g)
    ensures f == g
  {}

  lemma ShortFirsts(s: seq<MetadataRecord>)
    requires |s| <= 1
    ensures Firsts(s, s)
  {
    if s != [] {
      assert FirstOfId(s, s[0], 0);
    }
  }

  /** If the last record and the one before it differ in their ids, the last id is new. */
  lemma LastIsNew(isEvm: bool, s: seq<MetadataRecord>, k: nat)
    requires Ordered(RecordLeq(isEvm), s) && k < |s| - 1 && s[|s| - 1].tokenId != s[|s| - 2].tokenId
    ensures s[k].tokenId != s[|s| - 1].tokenId
  {
    hide RecordLess;
    if k < |s| - 2 && s[k].tokenId == s[|s| - 1].tokenId {
      assert RecordLeq(isEvm)(s[k], s[|s| - 2]) && RecordLeq(isEvm)(s[|s| - 2], s[|s| - 1]);
      Sandwich(isEvm, s[k], s[|s| - 2], s[|s| - 1]);
    }
  }

  /** Removing neighbours of one id from an ordered list leaves the first of each id. */
  lemma {:induction false} DedupFirsts(isEvm: bool, s: seq<MetadataRecord>)
    requires Ordered(RecordLeq(isEvm), s)
    ensures Firsts(s, DedupById(s))
  {
    hide RecordLess, Firsts;
    if |s| <= 1 {
      ShortFirsts(s);
    } else {
      DedupFirsts(isEvm, s[..|s| - 1]);
      if s[|s| - 1].tokenId == s[|s| - 2].tokenId {
        FirstsRepeat(s, DedupById(s[..|s| - 1]));
      } else {
        forall k | 0 <= k < |s| - 1 ensures s[k].tokenId != s[|s| - 1].tokenId {
          LastIsNew(isEvm, s, k);
        }
        FirstsMore(s, DedupById(s[..|s| - 1]));
      }
    }
  }

  lemma FirstStays(s: seq<MetadataRecord>, r: MetadataRecord, f: nat)
    requires s != []
    ensures FirstOfId(s[..|s| - 1], r, f) ==> FirstOfId(s, r, f)
    ensures FirstOfId(s, r, f) && f < |s| - 1 ==> FirstOfId(s[..|s| - 1], r, f)
  {}

  lemma FirstsStay(s: seq<MetadataRecord>, d: seq<MetadataRecord>)
    requires s != [] && Firsts(s[..|s| - 1], d)
    ensures forall i :: 0 <= i < |d| ==> IsFirst(s, d[i])
    ensures forall i, j :: 0 <= i < j < |d| ==> Ascending(s, d[i], d[j])
  {
    var init := s[..|s| - 1];
    hide HasId;
    forall i | 0 <= i < |d| ensures IsFirst(s, d[i]) {
      var f: nat :| FirstOfId(init, d[i], f);
      FirstStays(s, d[i], f);
    }
    forall i, j | 0 <= i < j < |d| ensures Ascending(s, d[i], d[j]) {
      forall f: nat, g: nat | FirstOfId(s, d[i], f) && FirstOfId(s, d[j], g) ensures f < g {
        FirstBefore(s, d[i], f, i, d);
        FirstBefore(s, d[j], g, j, d);
        assert Ascending(init, d[i], d[j]);
      }
    }
  }

  lemma FirstsRepeat(s: seq<MetadataRecord>, d: seq<MetadataRecord>)
    requires |s| > 1 && Firsts(s[..|s| - 1], d) && s[|s| - 1].tokenId == s[|s| - 2].tokenId
    ensures Firsts(s, d)
  {
    var init := s[..|s| - 1];
    FirstsStay(s, d);
    hide HasId, IsFirst, Ascending;
    assert init[|init| - 1].tokenId == s[|s| - 2].tokenId;
    forall k | 0 <= k < |s| ensures HasId(d, s[k].tokenId) {
      assert k < |init| ==> HasId(d, init[k].tokenId);
    }
  }

  /** The first of a record known to the shorter list is the same in the longer one. */
  lemma FirstBefore(s: seq<MetadataRecord>, r: MetadataRecord, f: nat, i: nat, d: seq<MetadataRecord>)
    requires s != [] && Firsts(s[..|s| - 1], d) && i < |d| && r == d[i] && FirstOfId(s, r, f)
    ensures FirstOfId(s[..|s| - 1], r, f)
  {
    hide HasId;
    assert IsFirst(s[..|s| - 1], d[i]);
    var g: nat :| FirstOfId(s[..|s| - 1], r, g);
    FirstStays(s, r, g);
    FirstIsOne(s, r, f, g);
  }

  lemma FirstsMore(s: seq<MetadataRecord>, d: seq<MetadataRecord>)
    requires s != [] && Firsts(s[..|s| - 1], d)
    requires forall k :: 0 <= k < |s| - 1 ==> s[k].tokenId != s[|s| - 1].tokenId
    ensures Firsts(s, d + [s[|s| - 1]])
  {
    var init, last := s[..|s| - 1], s[|s| - 1];
    var more := d + [last];
    FirstsStay(s, d);
    assert FirstOfId(s, last, |s| - 1);
    forall i | 0 <= i < |d| ensures Ascending(s, d[i], last) {
      forall f: nat, g: nat | FirstOfId(s, d[i], f) && FirstOfId(s, last, g) ensures f < g {
        FirstBefore(s, d[i], f, i, d);
        FirstIsOne(s, last, g, |s| - 1);
      }
    }
    hide IsFirst, Ascending;
    assert IsFirst(s, last) by {
      LastIsFirst(s, last);
    }
    forall k | 0 <= k < |s| ensures HasId(more, s[k].tokenId) {
      if k < |init| {
        assert HasId(d, init[k].tokenId);
        var i :| 0 <= i < |d| && d[i].tokenId == s[k].tokenId;
        assert more[i].tokenId == s[k].tokenId;
      } else {
        assert more[|d|] == last;
      }
    }
  }

  lemma LastIsFirst(s: seq<MetadataRecord>, last: MetadataRecord)
    requires s != [] && FirstOfId(s, last, |s| - 1)
    ensures IsFirst(s, last)
  {}

  /** So what is left is in order, each id once, each the earliest. */
  lemma FinalOrder(isEvm: bool, offered: seq<MetadataRecord>)
    ensures var d := DedupById(Sort(RecordLeq(isEvm), offered));
            && InOrder(isEvm, d) && DistinctIds(d) && Earliest(d, offered)
            && forall id :: HasId(d, id) <==> HasId(offered, id)
  {
    var s := Sort(RecordLeq(isEvm), offered);
    RecordLeqTotal(isEvm);
    SortOrdered(RecordLeq(isEvm), offered);
    PermutationMembers(s, offered);
    DedupFirsts(isEvm, s);
    var d := DedupById(s);
    hide Sort, DedupById, RecordLess, Firsts, HasId;
    FirstsInOrder(isEvm, s, d);
    forall i, k | 0 <= i < |d| && 0 <= k < |offered| && offered[k].tokenId == d[i].tokenId
      ensures d[i].sourceOrder <= offered[k].sourceOrder
    {
      assert offered[k] in s;
      var m :| 0 <= m < |s| && s[m] == offered[k];
      FirstIsEarliest(isEvm, s, d, i, m);
    }
    forall id ensures HasId(d, id) <==> HasId(offered, id) {
      SameIds(s, d, offered, id);
    }
  }

  lemma FirstIsEarliest(isEvm: bool, s: seq<MetadataRecord>, d: seq<MetadataRecord>, i: nat, m: nat)
    requires Ordered(RecordLeq(isEvm), s) && Firsts(s, d) && i < |d| && m < |s| && s[m].tokenId == d[i].tokenId
    ensures d[i].sourceOrder <= s[m].sourceOrder
  {
    hide RecordLess, HasId;
    assert IsFirst(s, d[i]);
    var f: nat :| FirstOfId(s, d[i], f);
    if f < m {
      assert RecordLeq(isEvm)(s[f], s[m]);
      SameIdOrdered(isEvm, s[f], s[m]);
    }
  }

  lemma FirstsInOrder(isEvm: bool, s: seq<MetadataRecord>, d: seq<MetadataRecord>)
    requires Ordered(RecordLeq(isEvm), s) && Firsts(s, d)
    ensures InOrder(isEvm, d) && DistinctIds(d)
  {
    hide HasId;
    forall i, j | 0 <= i < j < |d| ensures TokenLeq(d[i].tokenId, d[j].tokenId, isEvm) && d[i].tokenId != d[j].tokenId {
      assert IsFirst(s, d[i]) && IsFirst(s, d[j]) && Ascending(s, d[i], d[j]);
      var f: nat :| FirstOfId(s, d[i], f);
      var g: nat :| FirstOfId(s, d[j], g);
      assert RecordLeq(isEvm)(s[f], s[g]);
    }
  }

  lemma SameIds(s: seq<MetadataRecord>, d: seq<MetadataRecord>, offered: seq<MetadataRecord>, id: string)
    requires Firsts(s, d) && forall r :: r in s <==> r in offered
    ensures HasId(d, id) <==> HasId(offered, id)
  {
    if HasId(d, id) {
      var i :| 0 <= i < |d| && d[i].tokenId == id;
      assert IsFirst(s, d[i]);
      var f: nat :| FirstOfId(s, d[i], f);
      assert s[f] in offered;
    }
    if HasId(offered, id) {
      var k :| 0 <= k < |offered| && offered[k].tokenId == id;
      assert offered[k] in s;
      var m :| 0 <= m < |s| && s[m] == offered[k];
    }
  }
}
