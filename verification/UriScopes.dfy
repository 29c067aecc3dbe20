/** The scopes of one group of image URI postings: which of them have duplicates, and what
    they add up to. */
module UriScopes {
  import opened UriSpec
  import opened UriTally

  /** The postings of a chain that have something open in a reach. */
  ghost function Scope(ms: seq<Posting>, barred: set<Hit>, c: nat, r: Reach): set<(nat, Reach)> {
    set i: nat | i < |ms| && ms[i].chain == c && Open(ms[i], r, barred) != {} :: (i, r)
  }

  ghost predicate Nonempty(ms: seq<Posting>, barred: set<Hit>, c: nat, r: Reach) {
    exists i :: 0 <= i < |ms| && ms[i].chain == c && Open(ms[i], r, barred) != {}
  }

  ghost predicate Several(ms: seq<Posting>, barred: set<Hit>, c: nat, r: Reach) {
    exists i, j :: 0 <= i < j < |ms| && ms[i].chain == c && ms[j].chain == c
                   && Open(ms[i], r, barred) != {} && Open(ms[j], r, barred) != {}
  }

  ghost predicate OpenAbroad(ms: seq<Posting>, barred: set<Hit>, c: nat) {
    exists o: nat :: o != c && Nonempty(ms, barred, o, Across)
  }

  /** The open postings of a chain have mates in a reach. */
  ghost predicate ScopeLinked(ms: seq<Posting>, barred: set<Hit>, c: nat, r: Reach) {
    match r
    case Within => Several(ms, barred, c, Within)
    case Across => OpenAbroad(ms, barred, c)
    case Against(o) => o != c && Nonempty(ms, barred, o, Against(c))
  }

  lemma LinkedByScope(t: Table, d: Dimension, ms: seq<Posting>, barred: set<Hit>, i: nat, r: Reach)
    requires WellFormed(t) && Group(t, d, ms) && i < |ms|
    ensures Linked(ms, barred, i, r) <==> Open(ms[i], r, barred) != {} && ScopeLinked(ms, barred, ms[i].chain, r)
  {
    hide Open, PostingOf;
    if Linked(ms, barred, i, r) {
      var j: nat :| j < |ms| && PairUp(ms, barred, i, j, r);
      assert Open(ms[j], Mirror(r, ms[i].chain), barred) != {};
      assert Nonempty(ms, barred, ms[j].chain, Mirror(r, ms[i].chain));
    }
    if Open(ms[i], r, barred) != {} && ScopeLinked(ms, barred, ms[i].chain, r) {
      match r {
        case Within =>
          var a, b :| 0 <= a < b < |ms| && ms[a].chain == ms[i].chain && ms[b].chain == ms[i].chain
                      && Open(ms[a], r, barred) != {} && Open(ms[b], r, barred) != {};
          var j := if a == i then b else a;
          assert ms[i].contract != ms[j].contract;
          assert PairUp(ms, barred, i, j, r);
        case Across =>
          var o: nat :| o != ms[i].chain && Nonempty(ms, barred, o, Across);
          var j :| 0 <= j < |ms| && ms[j].chain == o && Open(ms[j], Across, barred) != {};
          assert PairUp(ms, barred, i, j, r);
        case Against(o) =>
          var j :| 0 <= j < |ms| && ms[j].chain == o && Open(ms[j], Against(ms[i].chain), barred) != {};
          assert PairUp(ms, barred, i, j, r);
      }
    }
  }

  /** The linked pairs of the scopes dealt with so far. */
  ghost predicate LinkedScopes(ms: seq<Posting>, barred: set<Hit>, done: set<(nat, Reach)>, pairs: set<(nat, Reach)>) {
    forall x :: x in pairs <==> Linked(ms, barred, x.0, x.1) && x.0 < |ms| && (ms[x.0].chain, x.1) in done
  }

  lemma ScopeDone(t: Table, d: Dimension, ms: seq<Posting>, barred: set<Hit>, done: set<(nat, Reach)>,
                  pairs: set<(nat, Reach)>, c: nat, r: Reach)
    requires WellFormed(t) && Group(t, d, ms) && LinkedScopes(ms, barred, done, pairs) && (c, r) !in done
    ensures LinkedScopes(ms, barred, done + {(c, r)},
                         pairs + if ScopeLinked(ms, barred, c, r) then Scope(ms, barred, c, r) else {})
    ensures pairs !! Scope(ms, barred, c, r)
  {
    hide Linked, ScopeLinked, Open, Group;
    forall x: (nat, Reach) | x.0 < |ms| && ms[x.0].chain == c && x.1 == r
      ensures Linked(ms, barred, x.0, x.1) <==> x in Scope(ms, barred, c, r) && ScopeLinked(ms, barred, c, r)
    {
      LinkedByScope(t, d, ms, barred, x.0, x.1);
      assert x == (x.0, r);
    }
  }

  ghost predicate AllScopes(ms: seq<Posting>, done: set<(nat, Reach)>) {
    forall i, j :: 0 <= i < |ms| && 0 <= j < |ms| ==>
      (ms[i].chain, Within) in done && (ms[i].chain, Across) in done && (ms[i].chain, Against(ms[j].chain)) in done
  }

  // ----- adding up the postings of a scope

  /** `GroupScopeAggregate` */
  datatype GroupScope = GroupScope(contracts: seq<nat>, rows: nat, postings: nat)

  const NO_POSTINGS: GroupScope := GroupScope([], 0, 0)

  function AddPosting(g: GroupScope, contract: nat, rows: nat): GroupScope {
    if rows == 0 then g else GroupScope(g.contracts + [contract], g.rows + rows, g.postings + 1)
  }

  ghost function Summed(ms: seq<Posting>, barred: set<Hit>, k: nat, c: nat, r: Reach): GroupScope
    requires k <= |ms|
  {
    if k == 0 then NO_POSTINGS
    else
      var g := Summed(ms, barred, k - 1, c, r);
      if ms[k - 1].chain == c then AddPosting(g, ms[k - 1].contract, |Open(ms[k - 1], r, barred)|) else g
  }

  /** The open NFTs of a chain among the first `k` postings. */
  ghost function OpenTo(ms: seq<Posting>, barred: set<Hit>, k: nat, c: nat, r: Reach): set<nat>
    requires k <= |ms|
  {
    if k == 0 then {}
    else OpenTo(ms, barred, k - 1, c, r) + if ms[k - 1].chain == c then Open(ms[k - 1], r, barred) else {}
  }

  lemma {:induction false} OpenToHas(ms: seq<Posting>, barred: set<Hit>, k: nat, c: nat, r: Reach, n: nat)
    requires k <= |ms|
    ensures n in OpenTo(ms, barred, k, c, r) <==>
              exists i :: 0 <= i < k && ms[i].chain == c && n in Open(ms[i], r, barred)
  {
    hide Open;
    if k > 0 {
      OpenToHas(ms, barred, k - 1, c, r, n);
    }
  }

  /** The next posting's NFTs are not among those of the postings before. */
  lemma OpenApart(t: Table, d: Dimension, ms: seq<Posting>, barred: set<Hit>, k: nat, c: nat, r: Reach)
    requires WellFormed(t) && Group(t, d, ms) && k < |ms|
    ensures OpenTo(ms, barred, k, c, r) !! Open(ms[k], r, barred)
  {
    hide Group;
    var before, now := OpenTo(ms, barred, k, c, r), Open(ms[k], r, barred);
    forall n ensures n !in before || n !in now {
      OpenToHas(ms, barred, k, c, r, n);
      if n in before && n in now {
        var i :| 0 <= i < k && ms[i].chain == c && n in Open(ms[i], r, barred);
        OnePostingEach(t, d, ms, i, k, n);
      }
    }
  }

  lemma SummedNone(ms: seq<Posting>, barred: set<Hit>, c: nat, r: Reach)
    ensures Summed(ms, barred, 0, c, r) == NO_POSTINGS && OpenTo(ms, barred, 0, c, r) == {}
  {}

  lemma SummedNext(ms: seq<Posting>, barred: set<Hit>, k: nat, c: nat, r: Reach)
    requires k < |ms|
    ensures Summed(ms, barred, k + 1, c, r).rows ==
            Summed(ms, barred, k, c, r).rows + if ms[k].chain == c then |Open(ms[k], r, barred)| else 0
    ensures OpenTo(ms, barred, k + 1, c, r) ==
            if ms[k].chain == c then OpenTo(ms, barred, k, c, r) + Open(ms[k], r, barred) else OpenTo(ms, barred, k, c, r)
  {}

  lemma {:induction false} SummedRows(t: Table, d: Dimension, ms: seq<Posting>, barred: set<Hit>, k: nat, c: nat, r: Reach)
    requires WellFormed(t) && Group(t, d, ms) && k <= |ms|
    ensures Summed(ms, barred, k, c, r).rows == |OpenTo(ms, barred, k, c, r)|
  {
    hide Group, Open, Summed, OpenTo;
    SummedNone(ms, barred, c, r);
    if k > 0 {
      SummedRows(t, d, ms, barred, k - 1, c, r);
      OpenApart(t, d, ms, barred, k - 1, c, r);
      SummedNext(ms, barred, k - 1, c, r);
    }
  }

  lemma {:induction false} SummedContracts(ms: seq<Posting>, barred: set<Hit>, k: nat, c: nat, r: Reach, contract: nat)
    requires k <= |ms|
    ensures contract in Summed(ms, barred, k, c, r).contracts <==>
              exists i :: 0 <= i < k && ms[i].chain == c && Open(ms[i], r, barred) != {} && ms[i].contract == contract
  {
    hide Open;
    if k > 0 {
      SummedContracts(ms, barred, k - 1, c, r, contract);
    }
  }

  lemma {:induction false} SummedPostings(ms: seq<Posting>, barred: set<Hit>, k: nat, c: nat, r: Reach)
    requires k <= |ms|
    ensures Summed(ms, barred, k, c, r).postings >= 1 <==> Nonempty(ms[..k], barred, c, r)
    ensures Summed(ms, barred, k, c, r).postings >= 2 <==> Several(ms[..k], barred, c, r)
    ensures Summed(ms, barred, k, c, r).rows != 0 <==> Summed(ms, barred, k, c, r).postings != 0
  {
    hide Open;
    if k > 0 {
      SummedPostings(ms, barred, k - 1, c, r);
      assert ms[..k][..k - 1] == ms[..k - 1];
      OneMorePosting(ms[..k], barred, c, r);
    }
  }

  lemma OneMorePosting(ms: seq<Posting>, barred: set<Hit>, c: nat, r: Reach)
    requires ms != []
    ensures var init, last := ms[..|ms| - 1], ms[|ms| - 1];
            var counts := last.chain == c && Open(last, r, barred) != {};
            && (Nonempty(ms, barred, c, r) <==> Nonempty(init, barred, c, r) || counts)
            && (Several(ms, barred, c, r) <==> Several(init, barred, c, r) || (counts && Nonempty(init, barred, c, r)))
  {
    hide Nonempty, Several, Open;
    var init, last := ms[..|ms| - 1], ms[|ms| - 1];
    assert ms == init + [last];
    NonemptyPush(init, last, barred, c, r);
    SeveralPush(init, last, barred, c, r);
  }

  lemma NonemptyPush(ms: seq<Posting>, p: Posting, barred: set<Hit>, c: nat, r: Reach)
    ensures Nonempty(ms + [p], barred, c, r) <==> Nonempty(ms, barred, c, r) || (p.chain == c && Open(p, r, barred) != {})
  {
    hide Open;
    var more := ms + [p];
    if Nonempty(ms, barred, c, r) {
      var i :| 0 <= i < |ms| && ms[i].chain == c && Open(ms[i], r, barred) != {};
      assert more[i].chain == c && Open(more[i], r, barred) != {};
    }
    assert more[|ms|] == p;
  }

  lemma SeveralPush(ms: seq<Posting>, p: Posting, barred: set<Hit>, c: nat, r: Reach)
    ensures Several(ms + [p], barred, c, r) <==>
              Several(ms, barred, c, r) || (p.chain == c && Open(p, r, barred) != {} && Nonempty(ms, barred, c, r))
  {
    hide Open;
    var more := ms + [p];
    if Several(ms, barred, c, r) {
      var i, j :| 0 <= i < j < |ms| && ms[i].chain == c && ms[j].chain == c
                  && Open(ms[i], r, barred) != {} && Open(ms[j], r, barred) != {};
      assert more[i] == ms[i] && more[j] == ms[j];
    }
    if p.chain == c && Open(p, r, barred) != {} && Nonempty(ms, barred, c, r) {
      var i :| 0 <= i < |ms| && ms[i].chain == c && Open(ms[i], r, barred) != {};
      assert more[i] == ms[i] && more[|ms|] == p;
    }
  }

  /** What `GroupScopeAggregate` holds after all postings of a group. */
  lemma SummedMeans(t: Table, d: Dimension, ms: seq<Posting>, barred: set<Hit>, c: nat, r: Reach)
    requires WellFormed(t) && Group(t, d, ms)
    ensures var g, scope := Summed(ms, barred, |ms|, c, r), Scope(ms, barred, c, r);
            && SameScope(ms, barred, scope, r, c)
            && Elements(g.contracts) == (set x | x in scope :: ms[x.0].contract)
            && InGroup(ms, scope) && g.rows == |OpenIn(ms, barred, r, scope)|
            && (g.rows != 0 <==> Nonempty(ms, barred, c, r)) && (g.postings >= 2 <==> Several(ms, barred, c, r))
            && (scope != {} <==> Nonempty(ms, barred, c, r))
  {
    hide Summed, Open, Group, Nonempty, Several, Scope, OpenTo, OpenIn, Elements;
    SummedRows(t, d, ms, barred, |ms|, c, r);
    SummedPostings(ms, barred, |ms|, c, r);
    assert ms[..|ms|] == ms;
    ScopeContracts(ms, barred, c, r);
    ScopeOpen(ms, barred, c, r);
    ScopeNonempty(ms, barred, c, r);
  }

  lemma ScopeNonempty(ms: seq<Posting>, barred: set<Hit>, c: nat, r: Reach)
    ensures SameScope(ms, barred, Scope(ms, barred, c, r), r, c)
    ensures Scope(ms, barred, c, r) != {} <==> Nonempty(ms, barred, c, r)
  {}

  lemma ScopeContracts(ms: seq<Posting>, barred: set<Hit>, c: nat, r: Reach)
    ensures Elements(Summed(ms, barred, |ms|, c, r).contracts) == (set x | x in Scope(ms, barred, c, r) :: ms[x.0].contract)
  {
    hide Open;
    var scope := Scope(ms, barred, c, r);
    forall contract: nat
      ensures contract in Summed(ms, barred, |ms|, c, r).contracts <==> contract in (set x | x in scope :: ms[x.0].contract)
    {
      SummedContracts(ms, barred, |ms|, c, r, contract);
      if contract in Summed(ms, barred, |ms|, c, r).contracts {
        var i :| 0 <= i < |ms| && ms[i].chain == c && Open(ms[i], r, barred) != {} && ms[i].contract == contract;
        assert (i, r) in scope;
      }
    }
  }

  lemma ScopeOpen(ms: seq<Posting>, barred: set<Hit>, c: nat, r: Reach)
    ensures InGroup(ms, Scope(ms, barred, c, r))
    ensures OpenTo(ms, barred, |ms|, c, r) == OpenIn(ms, barred, r, Scope(ms, barred, c, r))
  {
    var scope := Scope(ms, barred, c, r);
    forall n: nat ensures n in OpenTo(ms, barred, |ms|, c, r) <==> n in OpenIn(ms, barred, r, scope) {
      OpenToHas(ms, barred, |ms|, c, r, n);
      if n in OpenTo(ms, barred, |ms|, c, r) {
        var i :| 0 <= i < |ms| && ms[i].chain == c && n in Open(ms[i], r, barred);
        assert (i, r) in scope;
      }
    }
  }
}
