/** Transfers and sales as propagation events: who passes a token on to whom, and when. */
module PropEvents {
  import opened Wrappers
  import opened Sorting

  /** A transfer, or a sale from seller to buyer. */
  datatype Move = Move(token: string, from: string, to: string, transaction: string,
                       block: Option<nat>, time: Option<int>)

  datatype Evidence = Evidence(transfers: seq<Move>, sales: seq<Move>)

  datatype PropEvent = Transfer(index: nat) | Sale(index: nat)

  predicate Known(e: Evidence, event: PropEvent) {
    match event
    case Transfer(i) => i < |e.transfers|
    case Sale(i) => i < |e.sales|
  }

  function MoveOf(e: Evidence, event: PropEvent): Move
    requires Known(e, event)
  {
    match event
    case Transfer(i) => e.transfers[i]
    case Sale(i) => e.sales[i]
  }

  /** `prop_event_precedes`: by block if both have one, otherwise by time. */
  predicate Precedes(e: Evidence, previous: PropEvent, next: PropEvent)
    requires Known(e, previous) && Known(e, next)
  {
    var p, n := MoveOf(e, previous), MoveOf(e, next);
    if p.block.Some? && n.block.Some? then p.block.value < n.block.value
    else p.time.Some? && n.time.Some? && p.time.value < n.time.value
  }

  ghost predicate Later(x: Option<int>, y: Option<int>) {
    x.Some? && y.Some? && x.value < y.value
  }

  /** The events of a step and the next are dated in ways that do not fit: the middle one
      lacks the block by which the outer ones compare, or has a block where one of them has
      none and their times do not rise. */
  ghost predicate Misdated(p: Move, m: Move, n: Move) {
    || (m.block.None? && p.block.Some? && n.block.Some? && p.block.value >= n.block.value)
    || (m.block.Some? && p.block.Some? && n.block.None? && !Later(p.time, n.time))
    || (m.block.Some? && p.block.None? && n.block.Some? && !Later(p.time, n.time))
  }

  /** Preceding carries over from two steps to both exactly when they are not misdated. */
  lemma PrecedesCarries(e: Evidence, p: PropEvent, m: PropEvent, n: PropEvent)
    requires Known(e, p) && Known(e, m) && Known(e, n) && Precedes(e, p, m) && Precedes(e, m, n)
    ensures Precedes(e, p, n) <==> !Misdated(MoveOf(e, p), MoveOf(e, m), MoveOf(e, n))
  {}

  ghost predicate TwoSteps(e: Evidence, p: PropEvent, m: PropEvent, n: PropEvent) {
    Known(e, p) && Known(e, m) && Known(e, n) && Precedes(e, p, m) && Precedes(e, m, n)
  }

  ghost predicate PrecedesIsTransitive(e: Evidence) {
    forall p, m, n :: TwoSteps(e, p, m, n) ==> Precedes(e, p, n)
  }

  /** The order of an evidence is transitive exactly when it holds no misdated steps. */
  lemma TransitiveWhen(e: Evidence)
    ensures PrecedesIsTransitive(e)
            <==> forall p, m, n :: TwoSteps(e, p, m, n) ==> !Misdated(MoveOf(e, p), MoveOf(e, m), MoveOf(e, n))
  {
    forall p, m, n | TwoSteps(e, p, m, n)
      ensures Precedes(e, p, n) <==> !Misdated(MoveOf(e, p), MoveOf(e, m), MoveOf(e, n))
    {
      PrecedesCarries(e, p, m, n);
    }
  }

  /** So it is when all events have blocks, or none has. */
  lemma TransitiveIfAlike(e: Evidence)
    requires (forall p :: Known(e, p) ==> MoveOf(e, p).block.Some?) || (forall p :: Known(e, p) ==> MoveOf(e, p).block.None?)
    ensures PrecedesIsTransitive(e)
  {
    TransitiveWhen(e);
  }

  /** Three events that precede one another in turn, the last of which lies in an earlier
      block than the first. */
  lemma PrecedesNotTransitive(token: string, a: string, b: string)
    ensures var e := Evidence([Move(token, a, b, "1", Some(5), Some(1)), Move(token, a, b, "2", None, Some(2)),
                               Move(token, a, b, "3", Some(4), Some(3))], []);
            TwoSteps(e, Transfer(0), Transfer(1), Transfer(2)) && !Precedes(e, Transfer(0), Transfer(2))
            && !PrecedesIsTransitive(e)
  {}

  predicate NatOptionLess(x: Option<int>, y: Option<int>) {
    y.Some? && (x.None? || x.value < y.value)
  }

  function Block(e: Evidence, event: PropEvent): Option<int>
    requires Known(e, event)
  {
    var b := MoveOf(e, event).block;
    if b.Some? then Some(b.value) else None
  }

  /** The order of `prop_event_order`: no block or time comes first. */
  predicate OrderLeq(e: Evidence, x: PropEvent, y: PropEvent)
    requires Known(e, x) && Known(e, y)
  {
    var b, c, t, u := Block(e, x), Block(e, y), MoveOf(e, x).time, MoveOf(e, y).time;
    if b != c then NatOptionLess(b, c)
    else if t != u then NatOptionLess(t, u)
    else x.index <= y.index
  }

  function EventLeq(e: Evidence): (PropEvent, PropEvent) -> bool {
    (x, y) =>
      if Known(e, x) && Known(e, y) then OrderLeq(e, x, y)
      else Known(e, x) || !Known(e, y)
  }

  lemma EventLeqTotal(e: Evidence)
    ensures TotalPreorder(EventLeq(e))
  {}

  type Key = (string, string)

  /** The event counts for the outgoing list of its token and sender. */
  ghost predicate Leaves(e: Evidence, event: PropEvent, key: Key) {
    && Known(e, event) && MoveOf(e, event).token == key.0 && MoveOf(e, event).from == key.1
    && key.0 != "" && key.1 != "" && MoveOf(e, event).to != ""
  }

  /** Each list holds the events that leave its key, once, in order. */
  ghost predicate Outgoing(e: Evidence, outgoing: map<Key, seq<PropEvent>>) {
    && (forall key :: key in outgoing ==> outgoing[key] != [] && Distinct(outgoing[key]) && Ordered(EventLeq(e), outgoing[key]))
    && (forall key, event :: key in outgoing ==> (event in outgoing[key] <==> Leaves(e, event, key)))
    && (forall key, event :: Leaves(e, event, key) ==> key in outgoing)
  }

  // ----- the same on the fields of the moves

  ghost predicate Recorded(e: Evidence, event: PropEvent) {
    event.index < if event.Transfer? then |e.transfers| else |e.sales|
  }

  ghost function MoveAt(e: Evidence, event: PropEvent): Move
    requires Recorded(e, event)
  {
    (if event.Transfer? then e.transfers else e.sales)[event.index]
  }

  /** The event takes a token from an address to another, all of them known. */
  ghost predicate Goes(e: Evidence, event: PropEvent, token: string, from: string) {
    && Recorded(e, event) && MoveAt(e, event).token == token && MoveAt(e, event).from == from
    && token != "" && from != "" && MoveAt(e, event).to != ""
  }

  /** By block; without blocks first. By time next, without times first. Then by index, and a
      transfer before a sale. */
  ghost predicate Ahead(e: Evidence, x: PropEvent, y: PropEvent)
    requires Recorded(e, x) && Recorded(e, y)
  {
    var a, b := MoveAt(e, x), MoveAt(e, y);
    || (a.block.None? && b.block.Some?)
    || (a.block.Some? && b.block.Some? && a.block.value < b.block.value)
    || (a.block == b.block && a.time.None? && b.time.Some?)
    || (a.block == b.block && a.time.Some? && b.time.Some? && a.time.value < b.time.value)
    || (a.block == b.block && a.time == b.time && (x.index < y.index || (x.index == y.index && x.Transfer? && y.Sale?)))
  }

  /** The first comes earlier: by block if both have one, otherwise by time. */
  ghost predicate Dated(e: Evidence, x: PropEvent, y: PropEvent)
    requires Recorded(e, x) && Recorded(e, y)
  {
    var a, b := MoveAt(e, x), MoveAt(e, y);
    if a.block.Some? && b.block.Some? then a.block.value < b.block.value
    else a.time.Some? && b.time.Some? && a.time.value < b.time.value
  }

  /** Each list holds the events that take a token from an address, once, in that order. */
  ghost predicate OutgoingOnFields(e: Evidence, outgoing: map<Key, seq<PropEvent>>) {
    && (forall key, event :: key in outgoing && event in outgoing[key] ==> Goes(e, event, key.0, key.1))
    && (forall event, token, from :: Goes(e, event, token, from) ==> (token, from) in outgoing && event in outgoing[(token, from)])
    && (forall key :: key in outgoing ==> outgoing[key] != [] && InAhead(e, outgoing[key]))
  }

  ghost predicate InAhead(e: Evidence, list: seq<PropEvent>) {
    forall i, j :: 0 <= i < j < |list| ==>
      Recorded(e, list[i]) && Recorded(e, list[j]) && Ahead(e, list[i], list[j])
  }

  lemma MoveMeans(e: Evidence, event: PropEvent)
    ensures Known(e, event) <==> Recorded(e, event)
    ensures Known(e, event) ==> MoveOf(e, event) == MoveAt(e, event)
  {}

  lemma LeavesMeans(e: Evidence, event: PropEvent, key: Key)
    ensures Leaves(e, event, key) <==> Goes(e, event, key.0, key.1)
  {
    MoveMeans(e, event);
  }

  /** Of two events in order, the first is ahead, unless they differ in kind alone. */
  lemma OrderMeans(e: Evidence, x: PropEvent, y: PropEvent)
    requires Known(e, x) && Known(e, y) && x != y && OrderLeq(e, x, y)
    ensures Recorded(e, x) && Recorded(e, y)
    ensures Ahead(e, x, y) || (Ahead(e, y, x) && x.Sale? && y.Transfer? && OrderLeq(e, y, x))
  {
    MoveMeans(e, x);
    MoveMeans(e, y);
  }

  /** Before sorting, the transfers of a list stand before the sales. */
  ghost predicate TransfersFirst(list: seq<PropEvent>) {
    forall i, j :: 0 <= i < j < |list| && list[i].Sale? ==> list[j].Sale?
  }

  lemma SortedIsAhead(e: Evidence, list: seq<PropEvent>)
    requires Distinct(list) && TransfersFirst(list) && forall event :: event in list ==> Known(e, event)
    ensures InAhead(e, Sort(EventLeq(e), list))
  {
    var s := Sort(EventLeq(e), list);
    EventLeqTotal(e);
    SortOrdered(EventLeq(e), list);
    PermutationDistinct(s, list);
    PermutationMembers(s, list);
    hide Sort, OrderLeq, Ahead, Known, Recorded;
    forall i, j | 0 <= i < j < |s| ensures Recorded(e, s[i]) && Recorded(e, s[j]) && Ahead(e, s[i], s[j]) {
      assert s[i] in s && s[j] in s && EventLeq(e)(s[i], s[j]);
      OrderMeans(e, s[i], s[j]);
      if s[i].Sale? && s[j].Transfer? && OrderLeq(e, s[j], s[i]) {
        TransferStands(list, s[j], s[i]);
        SortStable(EventLeq(e), list, s[j], s[i]);
      }
    }
  }

  lemma TransferStands(list: seq<PropEvent>, x: PropEvent, y: PropEvent)
    requires TransfersFirst(list) && x in list && y in list && x.Transfer? && y.Sale?
    ensures StandsBefore(list, x, y)
  {
    var i :| 0 <= i < |list| && list[i] == x;
    var j :| 0 <= j < |list| && list[j] == y;
    assert i < j;
  }

  /** The lists before they are sorted, with the events gathered so far. */
  ghost predicate Gathering(e: Evidence, outgoing: map<Key, seq<PropEvent>>, transfers: nat, sales: nat) {
    && (forall key :: key in outgoing ==> outgoing[key] != [] && Distinct(outgoing[key]) && TransfersFirst(outgoing[key]))
    && (forall key, event :: key in outgoing ==>
          (event in outgoing[key] <==> Leaves(e, event, key) && Seen(event, transfers, sales)))
    && (forall key, event :: Leaves(e, event, key) && Seen(event, transfers, sales) ==> key in outgoing)
  }

  ghost predicate Seen(event: PropEvent, transfers: nat, sales: nat) {
    match event
    case Transfer(i) => i < transfers
    case Sale(i) => i < sales
  }

  function Gather(e: Evidence, outgoing: map<Key, seq<PropEvent>>, event: PropEvent): map<Key, seq<PropEvent>>
    requires Known(e, event)
  {
    var m := MoveOf(e, event);
    if m.token == "" || m.from == "" || m.to == "" then outgoing
    else outgoing[(m.token, m.from) := (if (m.token, m.from) in outgoing then outgoing[(m.token, m.from)] else []) + [event]]
  }

  lemma GatherStep(e: Evidence, outgoing: map<Key, seq<PropEvent>>, event: PropEvent, transfers: nat, sales: nat,
                   transfers': nat, sales': nat)
    requires Known(e, event) && Gathering(e, outgoing, transfers, sales) && !Seen(event, transfers, sales)
    requires event.Transfer? ==> sales == 0
    requires forall x :: Seen(x, transfers', sales') <==> Seen(x, transfers, sales) || x == event
    ensures Gathering(e, Gather(e, outgoing, event), transfers', sales')
  {
    forall key, i | key in outgoing && 0 <= i < |outgoing[key]| && outgoing[key][i].Sale? ensures sales > 0 {
      var x := outgoing[key][i];
      assert x in outgoing[key];
      assert Leaves(e, x, key) && Seen(x, transfers, sales);
    }
  }

  /** The first loops of `layered_paths`: events by token and sender. */
  method BuildOutgoing(e: Evidence) returns (outgoing: map<Key, seq<PropEvent>>)
    ensures Outgoing(e, outgoing) && OutgoingOnFields(e, outgoing)
  {
    outgoing := map[];
    for i: nat := 0 to |e.transfers|
      invariant Gathering(e, outgoing, i, 0)
    {
      hide Gathering;
      GatherStep(e, outgoing, Transfer(i), i, 0, i + 1, 0);
      outgoing := Gather(e, outgoing, Transfer(i));
    }
    for i: nat := 0 to |e.sales|
      invariant Gathering(e, outgoing, |e.transfers|, i)
    {
      hide Gathering;
      GatherStep(e, outgoing, Sale(i), |e.transfers|, i, |e.transfers|, i + 1);
      outgoing := Gather(e, outgoing, Sale(i));
    }
    outgoing := SortLists(e, outgoing);
  }

  /** Each list is sorted, in whatever order the map gives them. */
  method SortLists(e: Evidence, lists: map<Key, seq<PropEvent>>) returns (sorted: map<Key, seq<PropEvent>>)
    requires Gathering(e, lists, |e.transfers|, |e.sales|)
    ensures Outgoing(e, sorted) && OutgoingOnFields(e, sorted)
  {
    sorted := map[];
    var todo := lists.Keys;
    while todo != {}
      invariant todo <= lists.Keys && sorted.Keys == lists.Keys - todo
      invariant forall key :: key in sorted ==> sorted[key] == Sort(EventLeq(e), lists[key])
    {
      var key :| key in todo;
      sorted := sorted[key := Sort(EventLeq(e), lists[key])];
      todo := todo - {key};
    }
    SortedLists(e, lists, sorted);
    SortedOnFields(e, lists, sorted);
  }

  lemma SortedOnFields(e: Evidence, lists: map<Key, seq<PropEvent>>, sorted: map<Key, seq<PropEvent>>)
    requires Gathering(e, lists, |e.transfers|, |e.sales|) && Outgoing(e, sorted) && sorted.Keys == lists.Keys
    requires forall key :: key in sorted ==> sorted[key] == Sort(EventLeq(e), lists[key])
    ensures OutgoingOnFields(e, sorted)
  {
    hide Sort, Distinct, Ordered, InAhead, EventLeq, Known;
    forall event, key: Key ensures Leaves(e, event, key) <==> Goes(e, event, key.0, key.1) {
      LeavesMeans(e, event, key);
    }
    forall event, token, from | Goes(e, event, token, from) ensures (token, from) in sorted && event in sorted[(token, from)] {
      assert Leaves(e, event, (token, from));
    }
    forall key | key in sorted ensures InAhead(e, sorted[key]) {
      ListOf(e, lists, key);
      SortedIsAhead(e, lists[key]);
    }
  }

  lemma SortedList(e: Evidence, list: seq<PropEvent>)
    requires Distinct(list) && list != []
    ensures var sorted := Sort(EventLeq(e), list);
            sorted != [] && Ordered(EventLeq(e), sorted) && Distinct(sorted) && forall event :: event in sorted <==> event in list
  {
    EventLeqTotal(e);
    SortOrdered(EventLeq(e), list);
    PermutationDistinct(Sort(EventLeq(e), list), list);
    PermutationMembers(Sort(EventLeq(e), list), list);
  }

  lemma SortedLists(e: Evidence, lists: map<Key, seq<PropEvent>>, sorted: map<Key, seq<PropEvent>>)
    requires Gathering(e, lists, |e.transfers|, |e.sales|) && sorted.Keys == lists.Keys
    requires forall key :: key in sorted ==> sorted[key] == Sort(EventLeq(e), lists[key])
    ensures Outgoing(e, sorted)
  {
    forall key | key in sorted
      ensures Ordered(EventLeq(e), sorted[key]) && Distinct(sorted[key]) && sorted[key] != []
      ensures forall event :: event in sorted[key] <==> event in lists[key]
    {
      hide *;
      ListOf(e, lists, key);
      SortedList(e, lists[key]);
    }
    forall event, key ensures Leaves(e, event, key) ==> Seen(event, |e.transfers|, |e.sales|) {
    }
    hide Sort, Ordered, Distinct, EventLeq, Leaves, Seen;
  }

  lemma ListOf(e: Evidence, lists: map<Key, seq<PropEvent>>, key: Key)
    requires Gathering(e, lists, |e.transfers|, |e.sales|) && key in lists
    ensures Distinct(lists[key]) && lists[key] != [] && TransfersFirst(lists[key])
    ensures forall event :: event in lists[key] ==> Known(e, event)
  {
    forall event | event in lists[key] ensures Known(e, event) {
      assert Leaves(e, event, key);
    }
  }
}
