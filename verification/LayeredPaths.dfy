/** The layered-path search: an exhaustive depth-first search for a chain of events that
    visits enough different addresses. */
module LayeredPaths {
  import opened Wrappers
  import opened Sorting
  import opened PropEvents

  type Lists = map<Key, seq<PropEvent>>

  // ----- what is looked for

  /** A chain of events of one token from `start`: each leaves where the one before arrived,
      strictly later, and no address is visited twice. */
  ghost predicate LayeredChain(e: Evidence, token: string, start: string, path: seq<PropEvent>) {
    && (forall k :: 0 <= k < |path| ==> Link(e, token, start, path, k))
    && Distinct(Visited(e, start, path))
  }

  ghost predicate Link(e: Evidence, token: string, start: string, path: seq<PropEvent>, k: nat)
    requires k < |path|
  {
    && Leaves(e, path[k], (token, if k == 0 then start else Arrival(e, path[k - 1])))
    && (k > 0 ==> Known(e, path[k - 1]) && Precedes(e, path[k - 1], path[k]))
  }

  function Arrival(e: Evidence, event: PropEvent): string {
    if Known(e, event) then MoveOf(e, event).to else ""
  }

  /** `layered_path_addresses` */
  function Visited(e: Evidence, start: string, path: seq<PropEvent>): seq<string> {
    [start] + seq(|path|, k requires 0 <= k < |path| => Arrival(e, path[k]))
  }

  // ----- one step of the search

  /** `event` may be tried next. */
  ghost predicate Step(e: Evidence, lists: Lists, token: string, addresses: seq<string>, selected: seq<PropEvent>, event: PropEvent) {
    && addresses != [] && (token, addresses[|addresses| - 1]) in lists
    && event in lists[(token, addresses[|addresses| - 1])]
    && Allowed(e, addresses, selected, event)
  }

  ghost predicate Allowed(e: Evidence, addresses: seq<string>, selected: seq<PropEvent>, event: PropEvent) {
    && Known(e, event) && Arrival(e, event) != "" && Arrival(e, event) !in addresses
    && (selected != [] ==> Known(e, selected[|selected| - 1]) && Precedes(e, selected[|selected| - 1], event))
  }

  /** `rest` completes the path so far to the wanted number of addresses. */
  ghost predicate Completes(e: Evidence, lists: Lists, token: string, addresses: seq<string>, selected: seq<PropEvent>,
                            minimum: nat, rest: seq<PropEvent>)
    decreases |rest|
  {
    if rest == [] then |addresses| >= minimum
    else
      && |addresses| < minimum && Step(e, lists, token, addresses, selected, rest[0])
      && Completes(e, lists, token, addresses + [Arrival(e, rest[0])], selected + [rest[0]], minimum, rest[1..])
  }

  /** One completion comes no later than another: where they part, its event stands first in
      the outgoing list. */
  ghost predicate ComesFirst(e: Evidence, lists: Lists, token: string, at: string, x: seq<PropEvent>, y: seq<PropEvent>)
    decreases |x|
  {
    || x == y
    || (x != [] && y != [] && x[0] == y[0] && ComesFirst(e, lists, token, Arrival(e, x[0]), x[1..], y[1..]))
    || (x != [] && y != [] && (token, at) in lists && StandsBefore(lists[(token, at)], x[0], y[0]))
  }

  /** No completion starts with one of these events. */
  ghost predicate NoneFrom(e: Evidence, lists: Lists, token: string, addresses: seq<string>, selected: seq<PropEvent>,
                           minimum: nat, tried: seq<PropEvent>) {
    forall rest :: rest != [] && rest[0] in tried ==> !Completes(e, lists, token, addresses, selected, minimum, rest)
  }

  /** `rest` is the first of all completions. */
  ghost predicate First(e: Evidence, lists: Lists, token: string, addresses: seq<string>, selected: seq<PropEvent>,
                        minimum: nat, rest: seq<PropEvent>) {
    && addresses != [] && Completes(e, lists, token, addresses, selected, minimum, rest)
    && forall other :: Completes(e, lists, token, addresses, selected, minimum, other) ==>
         ComesFirst(e, lists, token, addresses[|addresses| - 1], rest, other)
  }

  /** Extending the first completion below an event that nothing before it completes. */
  lemma FirstExtends(e: Evidence, lists: Lists, token: string, addresses: seq<string>, selected: seq<PropEvent>,
                     minimum: nat, list: seq<PropEvent>, k: nat, below: seq<PropEvent>)
    requires addresses != [] && |addresses| < minimum && (token, addresses[|addresses| - 1]) in lists
    requires list == lists[(token, addresses[|addresses| - 1])] && k < |list|
    requires Allowed(e, addresses, selected, list[k])
    requires NoneFrom(e, lists, token, addresses, selected, minimum, list[..k])
    requires First(e, lists, token, addresses + [Arrival(e, list[k])], selected + [list[k]], minimum, below)
    ensures First(e, lists, token, addresses, selected, minimum, [list[k]] + below)
  {}

  /** A path can only grow through addresses that events arrive at. */
  function Arrivals(e: Evidence): set<string> {
    (set i | 0 <= i < |e.transfers| :: e.transfers[i].to) + (set i | 0 <= i < |e.sales| :: e.sales[i].to)
  }

  lemma ArrivesSomewhere(e: Evidence, event: PropEvent)
    requires Known(e, event)
    ensures Arrival(e, event) in Arrivals(e)
  {}

  function Members(s: seq<string>): set<string> {
    set x | x in s
  }

  class PathSearch {
    var addresses: seq<string>
    var selected: seq<PropEvent>

    constructor (start: string)
      ensures addresses == [start] && selected == []
    {
      addresses, selected := [start], [];
    }

    /** The recursive `search`. It stops with the first completion, or leaves the path as it
        was when there is none. */
    method Search(e: Evidence, lists: Lists, token: string, minimum: nat) returns (found: bool)
      requires addresses != [] && Outgoing(e, lists)
      requires forall k :: 0 <= k < |selected| ==> Known(e, selected[k])
      modifies this
      ensures found ==> exists rest ::
                && First(e, lists, token, old(addresses), old(selected), minimum, rest)
                && selected == old(selected) + rest
      ensures !found ==> addresses == old(addresses) && selected == old(selected)
      ensures !found ==> forall rest :: !Completes(e, lists, token, addresses, selected, minimum, rest)
      decreases |Arrivals(e) - Members(addresses)|, 1
    {
      hide Completes, First, ComesFirst, Precedes, Arrivals, Members;
      if |addresses| >= minimum {
        NothingToAdd(e, lists, token, addresses, selected, minimum);
        assert selected + [] == selected;
        return true;
      }
      var key := (token, addresses[|addresses| - 1]);
      if key !in lists {
        NoList(e, lists, token, addresses, selected, minimum);
        return false;
      }
      var events := lists[key];
      for k := 0 to |events|
        invariant addresses == old(addresses) && selected == old(selected)
        invariant NoneFrom(e, lists, token, addresses, selected, minimum, events[..k])
      {
        var event := events[k];
        assert event in events && Leaves(e, event, key);
        assert events[..k + 1] == events[..k] + [event];
        var next := MoveOf(e, event).to;
        if (selected != [] && !Precedes(e, selected[|selected| - 1], event)) || next == "" || next in addresses {
          NotAllowed(e, lists, token, addresses, selected, minimum, event);
          continue;
        }
        found := Descend(e, lists, token, minimum, event);
        if found {
          ghost var below :| First(e, lists, token, old(addresses) + [next], old(selected) + [event], minimum, below)
                             && selected == old(selected) + [event] + below;
          FirstExtends(e, lists, token, old(addresses), old(selected), minimum, events, k, below);
          assert selected == old(selected) + ([event] + below);
          return;
        }
      }
      assert events[..|events|] == events;
      AllTried(e, lists, token, addresses, selected, minimum, events);
      return false;
    }

    /** Pushes an event, searches below it and pops it again if nothing is found there. */
    method Descend(e: Evidence, lists: Lists, token: string, minimum: nat, event: PropEvent) returns (found: bool)
      requires addresses != [] && Outgoing(e, lists) && Allowed(e, addresses, selected, event)
      requires forall k :: 0 <= k < |selected| ==> Known(e, selected[k])
      modifies this
      ensures found ==> exists below ::
                && First(e, lists, token, old(addresses) + [Arrival(e, event)], old(selected) + [event], minimum, below)
                && selected == old(selected) + [event] + below
      ensures !found ==> addresses == old(addresses) && selected == old(selected)
      ensures !found ==> forall rest :: rest != [] && rest[0] == event ==>
                           !Completes(e, lists, token, addresses, selected, minimum, rest)
      decreases |Arrivals(e) - Members(addresses)|, 0
    {
      hide Completes, First, ComesFirst, Precedes, Outgoing, Arrivals, Members;
      ghost var was, had := addresses, selected;
      var next := MoveOf(e, event).to;
      ArrivesSomewhere(e, event);
      Shrinks(Arrivals(e), addresses, next);
      addresses, selected := addresses + [next], selected + [event];
      found := Search(e, lists, token, minimum);
      if !found {
        selected, addresses := selected[..|selected| - 1], addresses[..|addresses| - 1];
        assert addresses == was && selected == had;
        NoneBelow(e, lists, token, was, had, minimum, event);
      }
    }
  }

  lemma NoList(e: Evidence, lists: Lists, token: string, addresses: seq<string>, selected: seq<PropEvent>, minimum: nat)
    requires addresses != [] && |addresses| < minimum && (token, addresses[|addresses| - 1]) !in lists
    ensures forall rest :: !Completes(e, lists, token, addresses, selected, minimum, rest)
  {}

  lemma NothingToAdd(e: Evidence, lists: Lists, token: string, addresses: seq<string>, selected: seq<PropEvent>, minimum: nat)
    requires addresses != [] && |addresses| >= minimum
    ensures First(e, lists, token, addresses, selected, minimum, [])
  {}

  lemma NotAllowed(e: Evidence, lists: Lists, token: string, addresses: seq<string>, selected: seq<PropEvent>, minimum: nat,
                   event: PropEvent)
    requires !Allowed(e, addresses, selected, event)
    ensures forall rest :: rest != [] && rest[0] == event ==> !Completes(e, lists, token, addresses, selected, minimum, rest)
  {}

  lemma NoneBelow(e: Evidence, lists: Lists, token: string, addresses: seq<string>, selected: seq<PropEvent>, minimum: nat,
                  event: PropEvent)
    requires forall rest ::
               !Completes(e, lists, token, addresses + [Arrival(e, event)], selected + [event], minimum, rest)
    ensures forall rest :: rest != [] && rest[0] == event ==> !Completes(e, lists, token, addresses, selected, minimum, rest)
  {}

  lemma AllTried(e: Evidence, lists: Lists, token: string, addresses: seq<string>, selected: seq<PropEvent>, minimum: nat,
                 events: seq<PropEvent>)
    requires addresses != [] && |addresses| < minimum && (token, addresses[|addresses| - 1]) in lists
    requires events == lists[(token, addresses[|addresses| - 1])]
    requires NoneFrom(e, lists, token, addresses, selected, minimum, events)
    ensures forall rest :: !Completes(e, lists, token, addresses, selected, minimum, rest)
  {}

  lemma {:induction false} Shrinks(all: set<string>, addresses: seq<string>, next: string)
    requires next in all && next !in addresses
    ensures |all - Members(addresses + [next])| < |all - Members(addresses)|
  {
    assert all - Members(addresses) == (all - Members(addresses + [next])) + {next};
  }

  // ----- completions are layered chains

  lemma VisitedMore(e: Evidence, start: string, path: seq<PropEvent>, event: PropEvent)
    ensures Visited(e, start, path + [event]) == Visited(e, start, path) + [Arrival(e, event)]
    ensures Visited(e, start, path)[|path|] == if path == [] then start else Arrival(e, path[|path| - 1])
  {}

  /** A step extends a layered chain, and every longer chain begins with such a step. */
  lemma StepExtends(e: Evidence, lists: Lists, token: string, start: string, path: seq<PropEvent>, event: PropEvent)
    requires Outgoing(e, lists) && LayeredChain(e, token, start, path)
    ensures Step(e, lists, token, Visited(e, start, path), path, event) <==> LayeredChain(e, token, start, path + [event])
  {
    var addresses, more := Visited(e, start, path), path + [event];
    var key := (token, addresses[|addresses| - 1]);
    VisitedMore(e, start, path, event);
    hide Outgoing, Precedes;
    ListHolds(e, lists, key, event);
    forall k | 0 <= k < |path| ensures Link(e, token, start, more, k) {
      assert Link(e, token, start, path, k);
    }
    if Step(e, lists, token, addresses, path, event) {
      assert Link(e, token, start, more, |path|);
    }
    if LayeredChain(e, token, start, more) {
      assert Link(e, token, start, more, |path|);
      var all := Visited(e, start, more);
      assert forall k :: 0 <= k < |addresses| ==> all[k] == addresses[k] && all[k] != all[|addresses|];
    }
  }

  lemma ListHolds(e: Evidence, lists: Lists, key: Key, event: PropEvent)
    requires Outgoing(e, lists)
    ensures key in lists && event in lists[key] <==> Leaves(e, event, key)
  {}

  lemma PrefixChain(e: Evidence, token: string, start: string, path: seq<PropEvent>, k: nat)
    requires LayeredChain(e, token, start, path) && k <= |path|
    ensures LayeredChain(e, token, start, path[..k])
  {
    hide Precedes;
    forall m | 0 <= m < k ensures Link(e, token, start, path[..k], m) {
      assert Link(e, token, start, path, m);
    }
    assert Visited(e, start, path[..k]) == Visited(e, start, path)[..k + 1];
  }

  lemma {:induction false} CompletesMeans(e: Evidence, lists: Lists, token: string, start: string, path: seq<PropEvent>,
                                          minimum: nat, rest: seq<PropEvent>)
    requires Outgoing(e, lists) && LayeredChain(e, token, start, path) && |path| + 1 <= minimum
    ensures Completes(e, lists, token, Visited(e, start, path), path, minimum, rest) <==>
            LayeredChain(e, token, start, path + rest) && |path| + |rest| + 1 == minimum
    decreases |rest|
  {
    hide Outgoing, LayeredChain, Step;
    if rest == [] {
      assert path + rest == path;
    } else {
      StepExtends(e, lists, token, start, path, rest[0]);
      VisitedMore(e, start, path, rest[0]);
      assert path + [rest[0]] + rest[1..] == path + rest;
      if LayeredChain(e, token, start, path + rest) {
        PrefixChain(e, token, start, path + rest, |path| + 1);
        assert (path + rest)[..|path| + 1] == path + [rest[0]];
      }
      if LayeredChain(e, token, start, path + [rest[0]]) && |path| + 2 <= minimum {
        CompletesMeans(e, lists, token, start, path + [rest[0]], minimum, rest[1..]);
      }
    }
  }

  /** Of the wanted length, and from `start`. */
  ghost predicate Wanted(e: Evidence, token: string, start: string, minimum: nat, path: seq<PropEvent>) {
    LayeredChain(e, token, start, path) && |path| + 1 == minimum
  }

  lemma FromStart(e: Evidence, lists: Lists, token: string, start: string, minimum: nat)
    requires Outgoing(e, lists) && minimum > 0
    ensures forall path :: Completes(e, lists, token, [start], [], minimum, path) <==> Wanted(e, token, start, minimum, path)
  {
    hide Outgoing, Completes;
    forall path ensures Completes(e, lists, token, [start], [], minimum, path) <==> Wanted(e, token, start, minimum, path) {
      assert Visited(e, start, []) == [start] && LayeredChain(e, token, start, []);
      CompletesMeans(e, lists, token, start, [], minimum, path);
      assert [] + path == path;
    }
  }

  /** `layered_event_path_from`: a wanted chain, and of those the first, or none if there is
      none; no chain at all is needed to visit no address. */
  method LayeredEventPathFrom(e: Evidence, lists: Lists, token: string, start: string, minimum: nat)
    returns (path: Option<seq<PropEvent>>)
    requires Outgoing(e, lists)
    ensures minimum == 0 ==> path == Some([])
    ensures minimum > 0 ==> (path.Some? <==> exists p :: Wanted(e, token, start, minimum, p))
    ensures minimum > 0 && path.Some? ==>
              && Wanted(e, token, start, minimum, path.value)
              && forall p :: Wanted(e, token, start, minimum, p) ==> ComesFirst(e, lists, token, start, path.value, p)
  {
    if minimum == 0 {
      return Some([]);
    }
    hide Outgoing, Completes, Wanted, ComesFirst;
    FromStart(e, lists, token, start, minimum);
    var search := new PathSearch(start);
    var found := search.Search(e, lists, token, minimum);
    if !found {
      return None;
    }
    ghost var rest :| First(e, lists, token, [start], [], minimum, rest) && search.selected == [] + rest;
    path := Some(search.selected);
    assert search.selected == rest;
  }

  /** Coming first is no tie: two paths that each come first are the same path. */
  lemma {:induction false} FirstIsUnique(e: Evidence, lists: Lists, token: string, at: string, x: seq<PropEvent>, y: seq<PropEvent>)
    requires Outgoing(e, lists) && ComesFirst(e, lists, token, at, x, y) && ComesFirst(e, lists, token, at, y, x)
    ensures x == y
    decreases |x|
  {
    assert (token, at) in lists ==> Distinct(lists[(token, at)]);
    if x != [] && y != [] && x[0] == y[0] {
      FirstIsUnique(e, lists, token, Arrival(e, x[0]), x[1..], y[1..]);
      assert x == [x[0]] + x[1..] && y == [y[0]] + y[1..];
    }
  }

  // ----- how far the order of a path reaches

  ghost predicate InOrder(e: Evidence, path: seq<PropEvent>) {
    forall i, j :: 0 <= i < j < |path| ==> Known(e, path[i]) && Known(e, path[j]) && Precedes(e, path[i], path[j])
  }

  /** The step into `path[j]` is not misdated against the earlier event `path[i]`. */
  ghost predicate StepFits(e: Evidence, path: seq<PropEvent>, i: nat, j: nat) {
    0 < j < |path| && i < |path| && Known(e, path[i]) && Known(e, path[j - 1]) && Known(e, path[j])
    && !Misdated(MoveOf(e, path[i]), MoveOf(e, path[j - 1]), MoveOf(e, path[j]))
  }

  ghost predicate Steps(e: Evidence, path: seq<PropEvent>) {
    && (forall k :: 0 <= k < |path| ==> Known(e, path[k]))
    && (forall k :: 0 < k < |path| ==> Precedes(e, path[k - 1], path[k]))
  }

  lemma ChainSteps(e: Evidence, token: string, start: string, path: seq<PropEvent>)
    requires LayeredChain(e, token, start, path)
    ensures Steps(e, path)
  {
    forall k | 0 <= k < |path|
      ensures Known(e, path[k]) && (k > 0 ==> Known(e, path[k - 1]) && Precedes(e, path[k - 1], path[k]))
    {
      assert Link(e, token, start, path, k);
    }
  }

  /** Only neighbours of a layered chain are compared. Every event of it precedes every later
      one exactly when no step is misdated against an earlier event. */
  lemma ChainInOrderWhen(e: Evidence, token: string, start: string, path: seq<PropEvent>)
    requires LayeredChain(e, token, start, path)
    ensures InOrder(e, path) <==> forall i: nat, j: nat :: i + 1 < j < |path| ==> StepFits(e, path, i, j)
  {
    hide LayeredChain, Precedes, Misdated;
    ChainSteps(e, token, start, path);
    if InOrder(e, path) {
      forall i: nat, j: nat | i + 1 < j < |path| ensures StepFits(e, path, i, j) {
        PrecedesCarries(e, path[i], path[j - 1], path[j]);
      }
    }
    if forall i: nat, j: nat :: i + 1 < j < |path| ==> StepFits(e, path, i, j) {
      forall i, j | 0 <= i < j < |path| ensures Precedes(e, path[i], path[j]) {
        StepsCarry(e, path, i, j);
      }
    }
  }

  lemma {:induction false} StepsCarry(e: Evidence, path: seq<PropEvent>, i: nat, j: nat)
    requires i < j < |path| && Steps(e, path)
    requires forall k: nat :: i + 1 < k < |path| ==> StepFits(e, path, i, k)
    ensures Precedes(e, path[i], path[j])
  {
    hide Precedes, Misdated;
    if i + 1 < j {
      StepsCarry(e, path, i, j - 1);
      assert StepFits(e, path, i, j);
      PrecedesCarries(e, path[i], path[j - 1], path[j]);
    }
  }

  /** A path that the search accepts although its last event lies before its first. */
  lemma PathOutOfOrder()
    ensures var e := Evidence([Move("t", "a", "b", "1", Some(5), Some(1)), Move("t", "b", "c", "2", None, Some(2)),
                               Move("t", "c", "d", "3", Some(4), Some(3))], []);
            var path := [Transfer(0), Transfer(1), Transfer(2)];
            Wanted(e, "t", "a", 4, path) && !InOrder(e, path)
  {
    var e := Evidence([Move("t", "a", "b", "1", Some(5), Some(1)), Move("t", "b", "c", "2", None, Some(2)),
                       Move("t", "c", "d", "3", Some(4), Some(3))], []);
    var path := [Transfer(0), Transfer(1), Transfer(2)];
    assert Visited(e, "a", path) == ["a", "b", "c", "d"];
    assert !Precedes(e, path[0], path[2]);
  }

  // ----- paths on the fields of the moves

  /** The address that a path has reached before its event `k`. */
  ghost function AddressAt(e: Evidence, start: string, path: seq<PropEvent>, k: nat): string
    requires k <= |path|
  {
    if k == 0 then start else if Recorded(e, path[k - 1]) then MoveAt(e, path[k - 1]).to else ""
  }

  /** The event goes on from there, and is dated later than the one before. */
  ghost predicate GoesOn(e: Evidence, token: string, start: string, path: seq<PropEvent>, k: nat)
    requires k < |path|
  {
    && Goes(e, path[k], token, AddressAt(e, start, path, k))
    && (k > 0 ==> Recorded(e, path[k - 1]) && Dated(e, path[k - 1], path[k]))
  }

  /** Events of one token, each from where the one before went, each dated later than the one
      before, and no address twice. */
  ghost predicate PathOn(e: Evidence, token: string, start: string, path: seq<PropEvent>) {
    && (forall k :: 0 <= k < |path| ==> GoesOn(e, token, start, path, k))
    && (forall i, j :: 0 <= i < j <= |path| ==> AddressAt(e, start, path, i) != AddressAt(e, start, path, j))
  }

  lemma WantedMeans(e: Evidence, token: string, start: string, minimum: nat, path: seq<PropEvent>)
    ensures Wanted(e, token, start, minimum, path) <==> PathOn(e, token, start, path) && |path| + 1 == minimum
  {
    hide Link, GoesOn, AddressAt, Visited;
    VisitedMeans(e, start, path);
    forall k | 0 <= k < |path| ensures Link(e, token, start, path, k) <==> GoesOn(e, token, start, path, k) {
      LinkMeans(e, token, start, path, k);
    }
    assert LayeredChain(e, token, start, path) <==> PathOn(e, token, start, path);
  }

  lemma VisitedMeans(e: Evidence, start: string, path: seq<PropEvent>)
    ensures Distinct(Visited(e, start, path))
            <==> forall i, j :: 0 <= i < j <= |path| ==> AddressAt(e, start, path, i) != AddressAt(e, start, path, j)
  {
    hide Recorded, Known;
    forall k | 0 <= k <= |path| ensures |Visited(e, start, path)| == |path| + 1 && Visited(e, start, path)[k] == AddressAt(e, start, path, k) {
      if k > 0 {
        MoveMeans(e, path[k - 1]);
      }
    }
    hide Visited, AddressAt;
  }

  lemma LinkMeans(e: Evidence, token: string, start: string, path: seq<PropEvent>, k: nat)
    requires k < |path|
    ensures Link(e, token, start, path, k) <==> GoesOn(e, token, start, path, k)
  {
    LeavesMeans(e, path[k], (token, AddressAt(e, start, path, k)));
    MoveMeans(e, path[k]);
    if k > 0 {
      MoveMeans(e, path[k - 1]);
    }
  }

  /** Where two paths part, the first has the event that is ahead. */
  ghost predicate PathFirst(e: Evidence, x: seq<PropEvent>, y: seq<PropEvent>) {
    x == y || exists k: nat :: AheadAt(e, x, y, k)
  }

  ghost predicate AheadAt(e: Evidence, x: seq<PropEvent>, y: seq<PropEvent>, k: nat) {
    && k < |x| && k < |y| && x[..k] == y[..k]
    && Recorded(e, x[k]) && Recorded(e, y[k]) && Ahead(e, x[k], y[k])
  }

  lemma {:induction false} FirstMeans(e: Evidence, lists: Lists, token: string, at: string, x: seq<PropEvent>, y: seq<PropEvent>)
    requires OutgoingOnFields(e, lists) && ComesFirst(e, lists, token, at, x, y)
    ensures PathFirst(e, x, y)
    decreases |x|
  {
    hide Ahead, Recorded;
    if x != y {
      if x != [] && y != [] && x[0] == y[0] && ComesFirst(e, lists, token, Arrival(e, x[0]), x[1..], y[1..]) {
        FirstMeans(e, lists, token, Arrival(e, x[0]), x[1..], y[1..]);
        assert x == [x[0]] + x[1..] && y == [y[0]] + y[1..];
        var k: nat :| AheadAt(e, x[1..], y[1..], k);
        assert x[..k + 1] == [x[0]] + x[1..][..k] && y[..k + 1] == [y[0]] + y[1..][..k];
        assert AheadAt(e, x, y, k + 1);
      } else {
        var list := lists[(token, at)];
        var i, j :| 0 <= i < j < |list| && list[i] == x[0] && list[j] == y[0];
        assert InAhead(e, list);
        assert AheadAt(e, x, y, 0);
      }
    }
  }

  /** The path that is wanted of a start: none but the first of the paths of its length. */
  ghost predicate BestPath(e: Evidence, token: string, start: string, minimum: nat, path: seq<PropEvent>) {
    if minimum == 0 then path == []
    else
      && PathOn(e, token, start, path) && |path| + 1 == minimum
      && forall p :: PathOn(e, token, start, p) && |p| + 1 == minimum ==> PathFirst(e, path, p)
  }

  /** The instance names the addresses and transactions of a path. */
  ghost predicate Shows(e: Evidence, token: string, start: string, path: seq<PropEvent>, instance: Layered) {
    && instance.token == token && |instance.addresses| == |path| + 1 && |instance.transactions| == |path|
    && instance.addresses[0] == start
    && forall k :: 0 <= k < |path| && Recorded(e, path[k]) ==>
         instance.addresses[k + 1] == MoveAt(e, path[k]).to && instance.transactions[k] == MoveAt(e, path[k]).transaction
  }

  lemma FoundMeans(e: Evidence, lists: Lists, key: Key, minimum: nat, path: seq<PropEvent>)
    requires OutgoingOnFields(e, lists) && Found(e, lists, key, minimum, path)
    ensures BestPath(e, key.0, key.1, minimum, path) && Shows(e, key.0, key.1, path, LayeredOf(e, key, path))
  {
    hide OutgoingOnFields, Wanted, PathOn, PathFirst, ComesFirst, Recorded;
    forall k | 0 <= k < |path| && Recorded(e, path[k])
      ensures Arrival(e, path[k]) == MoveAt(e, path[k]).to && Transaction(e, path[k]) == MoveAt(e, path[k]).transaction
    {
      MoveMeans(e, path[k]);
    }
    if minimum > 0 {
      WantedMeans(e, key.0, key.1, minimum, path);
      forall p | PathOn(e, key.0, key.1, p) && |p| + 1 == minimum ensures PathFirst(e, path, p) {
        WantedMeans(e, key.0, key.1, minimum, p);
        FirstMeans(e, lists, key.0, key.1, path, p);
      }
    }
  }

  /** There is a path to be found from this start. */
  ghost predicate HasPath(e: Evidence, key: Key, minimum: nat) {
    minimum == 0 || exists path :: PathOn(e, key.0, key.1, path) && |path| + 1 == minimum
  }

  /** The instances are the best paths of the malicious starts that have one. */
  ghost predicate InstancesOnFields(e: Evidence, malicious: string -> bool, minimum: nat, starts: seq<Key>, instances: seq<Layered>) {
    && |starts| == |instances| && Distinct(starts)
    && (forall key :: key in starts <==>
          malicious(key.1) && (exists event :: Goes(e, event, key.0, key.1)) && HasPath(e, key, minimum))
    && forall i :: 0 <= i < |starts| ==> InstanceOnFields(e, starts[i], minimum, instances[i])
  }

  ghost predicate InstanceOnFields(e: Evidence, key: Key, minimum: nat, instance: Layered) {
    exists path :: BestPath(e, key.0, key.1, minimum, path) && Shows(e, key.0, key.1, path, instance)
  }

  lemma HasPathMeans(e: Evidence, key: Key, minimum: nat, path: Option<seq<PropEvent>>)
    requires minimum == 0 ==> path == Some([])
    requires minimum > 0 ==> (path.Some? <==> exists p :: Wanted(e, key.0, key.1, minimum, p))
    ensures path.Some? <==> HasPath(e, key, minimum)
  {
    hide Wanted, PathOn;
    if minimum > 0 {
      forall p ensures Wanted(e, key.0, key.1, minimum, p) <==> PathOn(e, key.0, key.1, p) && |p| + 1 == minimum {
        WantedMeans(e, key.0, key.1, minimum, p);
      }
    }
  }

  lemma StartsMean(e: Evidence, malicious: string -> bool, key: Key)
    ensures Malicious(e, malicious, key) <==> malicious(key.1) && exists event :: Goes(e, event, key.0, key.1)
  {
    hide Leaves, Goes;
    forall event ensures Leaves(e, event, key) <==> Goes(e, event, key.0, key.1) {
      LeavesMeans(e, event, key);
    }
  }

  lemma InstancesMean(e: Evidence, lists: Lists, malicious: string -> bool, minimum: nat, starts: seq<Key>, instances: seq<Layered>)
    requires OutgoingOnFields(e, lists) && PathsOf(e, lists, minimum, starts, instances)
    requires forall key :: key in starts <==> Malicious(e, malicious, key) && HasPath(e, key, minimum)
    ensures InstancesOnFields(e, malicious, minimum, starts, instances)
  {
    hide OutgoingOnFields, Found, BestPath, Shows, HasPath, Malicious, Goes;
    forall key ensures Malicious(e, malicious, key) <==> malicious(key.1) && exists event :: Goes(e, event, key.0, key.1) {
      StartsMean(e, malicious, key);
    }
    forall i | 0 <= i < |starts| ensures InstanceOnFields(e, starts[i], minimum, instances[i]) {
      assert PathOf(e, lists, minimum, starts[i], instances[i]);
      var path :| Found(e, lists, starts[i], minimum, path) && instances[i] == LayeredOf(e, starts[i], path);
      FoundMeans(e, lists, starts[i], minimum, path);
    }
  }

  // ----- all starts

  /** What makes two layered paths the same: token, addresses and transactions. */
  datatype Layered = Layered(token: string, addresses: seq<string>, transactions: seq<string>)

  function Transaction(e: Evidence, event: PropEvent): string {
    if Known(e, event) then MoveOf(e, event).transaction else ""
  }

  function LayeredOf(e: Evidence, key: Key, path: seq<PropEvent>): Layered {
    Layered(key.0, Visited(e, key.1, path), seq(|path|, k requires 0 <= k < |path| => Transaction(e, path[k])))
  }

  /** The path found from a start: the first wanted one, or the empty one. */
  ghost predicate Found(e: Evidence, lists: Lists, key: Key, minimum: nat, path: seq<PropEvent>) {
    if minimum == 0 then path == []
    else
      && Wanted(e, key.0, key.1, minimum, path)
      && forall p :: Wanted(e, key.0, key.1, minimum, p) ==> ComesFirst(e, lists, key.0, key.1, path, p)
  }

  ghost predicate Malicious(e: Evidence, malicious: string -> bool, key: Key) {
    malicious(key.1) && exists event :: Leaves(e, event, key)
  }

  /** Instance `i` is the path of start `i`. */
  ghost predicate PathsOf(e: Evidence, lists: Lists, minimum: nat, starts: seq<Key>, instances: seq<Layered>) {
    && |starts| == |instances| && Distinct(starts)
    && forall i :: 0 <= i < |starts| ==> PathOf(e, lists, minimum, starts[i], instances[i])
  }

  ghost predicate PathOf(e: Evidence, lists: Lists, minimum: nat, key: Key, instance: Layered) {
    exists path :: Found(e, lists, key, minimum, path) && instance == LayeredOf(e, key, path)
  }

  /** Paths of different starts differ, so the check for paths seen before never fires. */
  lemma NewPath(e: Evidence, lists: Lists, minimum: nat, starts: seq<Key>, instances: seq<Layered>, key: Key, path: seq<PropEvent>)
    requires PathsOf(e, lists, minimum, starts, instances) && key !in starts
    ensures LayeredOf(e, key, path) !in instances
  {
    hide Found;
    assert forall i :: 0 <= i < |starts| ==> PathOf(e, lists, minimum, starts[i], instances[i]);
    forall i | 0 <= i < |instances| ensures instances[i] != LayeredOf(e, key, path) {
      var other :| Found(e, lists, starts[i], minimum, other) && instances[i] == LayeredOf(e, starts[i], other);
      assert instances[i].addresses[0] == starts[i].1 && instances[i].token == starts[i].0;
      assert LayeredOf(e, key, path).addresses[0] == key.1 && starts[i] in starts;
    }
  }

  /** `layered_paths`: one instance for every start that is malicious and has a path. */
  method FindLayeredPaths(e: Evidence, malicious: string -> bool, minimum: nat)
    returns (instances: seq<Layered>, ghost lists: Lists, ghost starts: seq<Key>)
    ensures Outgoing(e, lists) && PathsOf(e, lists, minimum, starts, instances) && Distinct(instances)
    ensures forall key :: key in starts <==> Malicious(e, malicious, key) && exists path :: Found(e, lists, key, minimum, path)
    ensures InstancesOnFields(e, malicious, minimum, starts, instances)
  {
    hide Outgoing, OutgoingOnFields, Found, Wanted, ComesFirst, Leaves, HasPath, InstancesOnFields;
    var outgoing := BuildOutgoing(e);
    lists, instances, starts := outgoing, [], [];
    var todo := set key | key in outgoing && malicious(key.1);
    KeysLeave(e, outgoing, malicious, todo);
    ghost var all := todo;
    while todo != {}
      invariant todo <= all && PathsOf(e, lists, minimum, starts, instances) && Distinct(instances)
      invariant forall key :: key in starts <==> key in all && key !in todo && exists path :: Found(e, lists, key, minimum, path)
      invariant forall key :: key in starts <==> key in all && key !in todo && HasPath(e, key, minimum)
    {
      var key :| key in todo;
      todo := todo - {key};
      var path := LayeredEventPathFrom(e, outgoing, key.0, key.1, minimum);
      FoundIs(e, outgoing, key, minimum, path);
      HasPathMeans(e, key, minimum, path);
      if path.Some? {
        var instance := LayeredOf(e, key, path.value);
        NewPath(e, lists, minimum, starts, instances, key, path.value);
        if instance !in instances {
          MorePaths(e, lists, minimum, starts, instances, key, path.value);
          instances, starts := instances + [instance], starts + [key];
        }
      }
    }
    InstancesMean(e, lists, malicious, minimum, starts, instances);
  }

  lemma MorePaths(e: Evidence, lists: Lists, minimum: nat, starts: seq<Key>, instances: seq<Layered>, key: Key, path: seq<PropEvent>)
    requires PathsOf(e, lists, minimum, starts, instances) && key !in starts && Found(e, lists, key, minimum, path)
    ensures PathsOf(e, lists, minimum, starts + [key], instances + [LayeredOf(e, key, path)])
  {}

  lemma KeysLeave(e: Evidence, lists: Lists, malicious: string -> bool, keys: set<Key>)
    requires Outgoing(e, lists) && keys == set key | key in lists && malicious(key.1)
    ensures forall key :: key in keys <==> Malicious(e, malicious, key)
  {
    forall key | key in lists ensures exists event :: Leaves(e, event, key) {
      assert lists[key][0] in lists[key];
    }
  }

  lemma FoundIs(e: Evidence, lists: Lists, key: Key, minimum: nat, path: Option<seq<PropEvent>>)
    requires minimum == 0 ==> path == Some([])
    requires minimum > 0 ==> (path.Some? <==> exists p :: Wanted(e, key.0, key.1, minimum, p))
    requires minimum > 0 && path.Some? ==>
               && Wanted(e, key.0, key.1, minimum, path.value)
               && forall p :: Wanted(e, key.0, key.1, minimum, p) ==> ComesFirst(e, lists, key.0, key.1, path.value, p)
    ensures path.Some? <==> exists p :: Found(e, lists, key, minimum, p)
    ensures path.Some? ==> Found(e, lists, key, minimum, path.value)
  {
    hide Wanted, ComesFirst;
    if path.Some? {
      assert Found(e, lists, key, minimum, path.value);
    }
  }
}
