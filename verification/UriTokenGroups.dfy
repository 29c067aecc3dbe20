/** Reading one group of token URI postings, by bit masks or by a map of chains. */
module UriTokenGroups {
  import opened Sorting
  import opened WordBits
  import opened UriSpec
  import opened UriTally
  import opened UriPostings
  import opened UriTokens

  ghost predicate Present(ms: seq<Posting>, c: nat) {
    exists i :: 0 <= i < |ms| && ms[i].chain == c
  }

  ghost predicate ChainsOf(ms: seq<Posting>, chains: seq<nat>) {
    Distinct(chains) && forall c :: c in chains <==> 0 <= c && Present(ms, c)
  }

  /** Another posting of the same chain. */
  ghost predicate Twin(ms: seq<Posting>, i: nat) {
    exists j :: 0 <= j < |ms| && j != i && i < |ms| && ms[j].chain == ms[i].chain
  }

  lemma OthersPresent(ms: seq<Posting>, chains: seq<nat>, i: nat)
    requires ChainsOf(ms, chains) && i < |ms|
    ensures |chains| >= 2 <==> exists j :: 0 <= j < |ms| && ms[j].chain != ms[i].chain
    ensures |chains| < 2 ==> forall o :: o in chains ==> o == ms[i].chain
  {
    assert ms[i].chain in chains by {
      assert Present(ms, ms[i].chain);
    }
    if |chains| >= 2 {
      var c := if chains[0] == ms[i].chain then chains[1] else chains[0];
      assert c in chains && c != ms[i].chain;
    }
    assert |chains| < 2 ==> chains == [ms[i].chain];
    forall j | 0 <= j < |ms| && ms[j].chain != ms[i].chain ensures |chains| >= 2 {
      assert Present(ms, ms[j].chain) && ms[j].chain in chains;
    }
  }

  /** Which pairs of a group are linked, when nothing is barred. */
  lemma LinkShape(t: Table, ms: seq<Posting>, chains: seq<nat>, i: nat)
    requires WellFormed(t) && Group(t, TokenUri, ms) && ChainsOf(ms, chains) && i < |ms|
    ensures Linked(ms, {}, i, Within) <==> Twin(ms, i)
    ensures Linked(ms, {}, i, Across) <==> |chains| >= 2
    ensures forall o: nat :: Linked(ms, {}, i, Against(o)) <==> o in chains && o != ms[i].chain
    ensures |chains| < 2 ==> forall o :: o in chains ==> o == ms[i].chain
  {
    hide PostingOf, Open;
    assert forall j :: 0 <= j < |ms| ==> PostingOf(t, TokenUri, ms[j]);
    forall j, r | 0 <= j < |ms| ensures Open(ms[j], r, {}) != {} {
      AllOpen(t, TokenUri, ms[j], r);
    }
    OthersPresent(ms, chains, i);
    LinkedWhen(ms, i);
    forall o: nat ensures (exists j :: 0 <= j < |ms| && ms[j].chain == o) <==> o in chains {
      assert Present(ms, o) <==> o in chains;
    }
    assert forall j :: 0 <= j < |ms| && j != i ==> ms[j].contract != ms[i].contract;
  }

  lemma LinkedWhen(ms: seq<Posting>, i: nat)
    requires i < |ms| && forall j, r :: 0 <= j < |ms| ==> Open(ms[j], r, {}) != {}
    ensures forall r :: Linked(ms, {}, i, r) <==>
              exists j :: 0 <= j < |ms| && Reaches(r, ms[i].chain, ms[i].contract, ms[j].chain, ms[j].contract)
  {
    hide Open, Reaches;
    forall r
      ensures Linked(ms, {}, i, r) <==>
              exists j :: 0 <= j < |ms| && Reaches(r, ms[i].chain, ms[i].contract, ms[j].chain, ms[j].contract)
    {
      forall j: nat | j < |ms|
        ensures PairUp(ms, {}, i, j, r) <==> Reaches(r, ms[i].chain, ms[i].contract, ms[j].chain, ms[j].contract)
      {
      }
    }
  }

  /** A group of one has no duplicates. */
  lemma LoneMember(ms: seq<Posting>, barred: set<Hit>)
    requires |ms| < 2
    ensures LinkedPairs(ms, barred, {})
  {}

  // ----- by bit masks

  function ChainCount(ms: seq<Posting>, k: nat, c: nat): nat
    requires k <= |ms|
  {
    if k == 0 then 0 else ChainCount(ms, k - 1, c) + if ms[k - 1].chain == c then 1 else 0
  }

  lemma {:induction false} CountedTwice(ms: seq<Posting>, k: nat, i: nat)
    requires i < k <= |ms|
    ensures ChainCount(ms, k, ms[i].chain) >= 1
    ensures ChainCount(ms, k, ms[i].chain) >= 2 <==> exists j :: 0 <= j < k && j != i && ms[j].chain == ms[i].chain
  {
    if i < k - 1 {
      CountedTwice(ms, k - 1, i);
    } else {
      Counted(ms, i, ms[i].chain);
    }
  }

  lemma {:induction false} Counted(ms: seq<Posting>, k: nat, c: nat)
    requires k <= |ms|
    ensures ChainCount(ms, k, c) >= 1 <==> exists j :: 0 <= j < k && ms[j].chain == c
  {
    if k > 0 {
      Counted(ms, k - 1, c);
    }
  }

  /** The posting counts and the present chains of a group. */
  method CountChains(members: seq<Posting>) returns (counts: array<nat>, chains: seq<nat>)
    requires forall i :: 0 <= i < |members| ==> members[i].chain < WORD_BITS
    ensures fresh(counts) && counts.Length == WORD_BITS
    ensures forall c: nat :: c < WORD_BITS ==> counts[c] == ChainCount(members, |members|, c)
    ensures ChainsOf(members, chains)
  {
    hide Has, Bit, Join;
    counts := new nat[WORD_BITS](_ => 0);
    var mask: Word := 0;
    ZeroWord();
    for k := 0 to |members|
      invariant forall c: nat :: c < WORD_BITS ==> counts[c] == ChainCount(members, k, c)
      invariant forall c: nat :: c < WORD_BITS ==> (Has(mask, c) <==> exists i :: 0 <= i < k && members[i].chain == c)
    {
      var chain := members[k].chain;
      counts[chain] := counts[chain] + 1;
      SetBit(mask, chain);
      mask := Join(mask, Bit(chain));
    }
    chains := Members(mask);
  }

  /** The pairs of the postings so far. */
  ghost predicate LinkedSoFar(ms: seq<Posting>, k: nat, pairs: set<(nat, Reach)>) {
    forall x :: x in pairs <==> Linked(ms, {}, x.0, x.1) && x.0 < k
  }

  method AccumulateCompact(members: seq<Posting>, worker: TokenWorker, ghost t: Table, ghost base: set<Hit>)
    returns (ghost pairs: set<(nat, Reach)>)
    requires Ready(t, TokenUri, members, base) && worker.Carries(t, base) && worker.matrix.Compact?
    requires forall i :: 0 <= i < |members| ==> members[i].chain < WORD_BITS
    modifies worker, worker.uri
    ensures LinkedPairs(members, {}, pairs) && InGroup(members, pairs)
    ensures worker.Carries(t, base + Credited(members, {}, pairs)) && worker.matrix.Compact?
  {
    var counts, chains := CountChains(members);
    hide Linked, Credited, Group, Elsewhere;
    pairs := {};
    assert base + Credited(members, {}, {}) == base by {
      NothingCredited(members);
    }
    for k: nat := 0 to |members|
      invariant LinkedSoFar(members, k, pairs) && InGroup(members, pairs)
      invariant worker.Carries(t, base + Credited(members, {}, pairs)) && worker.matrix.Compact?
      invariant fresh(counts) && forall c: nat :: c < WORD_BITS ==> counts[c] == ChainCount(members, |members|, c)
    {
      var posting := members[k];
      CountedTwice(members, |members|, k);
      pairs := CreditPosting(posting, counts[posting.chain] >= 2, chains, worker, t, members, base, k, pairs);
    }
  }

  lemma NothingCredited(ms: seq<Posting>)
    ensures Credited(ms, {}, {}) == {}
  {}

  method CreditPosting(posting: Posting, twin: bool, chains: seq<nat>, worker: TokenWorker, ghost t: Table, ghost ms: seq<Posting>,
                    ghost base: set<Hit>, ghost k: nat, ghost had: set<(nat, Reach)>)
    returns (ghost pairs: set<(nat, Reach)>)
    requires Ready(t, TokenUri, ms, base) && k < |ms| && posting == ms[k] && ChainsOf(ms, chains)
    requires worker.matrix.Compact? ==> forall o :: o in chains ==> o < WORD_BITS
    requires twin <==> Twin(ms, k)
    requires LinkedSoFar(ms, k, had) && InGroup(ms, had) && worker.Carries(t, base + Credited(ms, {}, had))
    modifies worker, worker.uri
    ensures LinkedSoFar(ms, k + 1, pairs) && InGroup(ms, pairs)
    ensures worker.Carries(t, base + Credited(ms, {}, pairs)) && worker.matrix.Compact? == old(worker.matrix.Compact?)
  {
    hide Linked, Credited, Group, Elsewhere, Twin;
    LinkShape(t, ms, chains, k);
    pairs := had;
    if twin {
      worker.AddIntra(posting, t, ms, base, k, pairs);
      pairs := pairs + {(k, Within)};
    }
    if |chains| >= 2 {
      worker.AddCrossSummary(posting, t, ms, base, k, pairs);
      pairs := pairs + {(k, Across)};
      worker.AddMatrix(posting, chains, t, ms, base, k, pairs);
      pairs := pairs + Peers(k, posting.chain, chains);
    }
    forall r ensures (k, r) in pairs <==> Linked(ms, {}, k, r) {
      match r {
        case Within =>
        case Across =>
        case Against(o) =>
      }
    }
    forall x: (nat, Reach) | x.0 != k ensures x in pairs <==> x in had {
    }
    forall x: (nat, Reach) ensures x in pairs <==> Linked(ms, {}, x.0, x.1) && x.0 < k + 1 {
      if x.0 == k {
        assert x == (k, x.1);
      }
    }
  }

  // ----- by a map of chains

  ghost predicate OfChain(ms: seq<Posting>, c: nat, list: seq<nat>) {
    Increasing(list) && forall i :: i in list <==> 0 <= i < |ms| && ms[i].chain == c
  }

  ghost predicate ByChain(ms: seq<Posting>, byChain: map<nat, seq<nat>>) {
    && (forall c :: c in byChain <==> 0 <= c && Present(ms, c))
    && (forall c :: c in byChain ==> OfChain(ms, c, byChain[c]))
  }

  /** `postings_by_chain`, with the postings named by their places. */
  method PostingsByChain(members: seq<Posting>) returns (byChain: map<nat, seq<nat>>)
    ensures ByChain(members, byChain)
  {
    byChain := map[];
    for k: nat := 0 to |members|
      invariant ByChain(members[..k], byChain)
    {
      var c := members[k].chain;
      PushByChain(members[..k], byChain, members[k]);
      assert members[..k] + [members[k]] == members[..k + 1];
      byChain := byChain[c := (if c in byChain then byChain[c] else []) + [k]];
    }
    assert members[..|members|] == members;
  }

  lemma PushByChain(ms: seq<Posting>, byChain: map<nat, seq<nat>>, p: Posting)
    requires ByChain(ms, byChain)
    ensures ByChain(ms + [p], byChain[p.chain := (if p.chain in byChain then byChain[p.chain] else []) + [|ms|]])
  {
    hide Present, OfChain;
    forall c: nat
      ensures Present(ms + [p], c) <==> Present(ms, c) || c == p.chain
      ensures !Present(ms, c) ==> OfChain(ms, c, [])
      ensures c != p.chain && c in byChain ==> OfChain(ms + [p], c, byChain[c])
    {
      PushPresent(ms, p, c);
      if c in byChain {
        PushList(ms, p, c, byChain[c]);
      }
    }
    PushList(ms, p, p.chain, if p.chain in byChain then byChain[p.chain] else []);
  }

  lemma PushPresent(ms: seq<Posting>, p: Posting, c: nat)
    ensures Present(ms + [p], c) <==> Present(ms, c) || c == p.chain
    ensures !Present(ms, c) ==> OfChain(ms, c, [])
  {
    if Present(ms, c) {
      var i :| 0 <= i < |ms| && ms[i].chain == c;
      assert (ms + [p])[i].chain == c;
    }
    assert (ms + [p])[|ms|].chain == p.chain;
  }

  lemma PushList(ms: seq<Posting>, p: Posting, c: nat, list: seq<nat>)
    requires OfChain(ms, c, list)
    ensures OfChain(ms + [p], c, if p.chain == c then list + [|ms|] else list)
  {
    assert forall i :: 0 <= i < |list| ==> list[i] in list;
  }

  ghost function With(list: seq<nat>, r: Reach): set<(nat, Reach)> {
    set i | i in list :: (i, r)
  }

  ghost function PeersOf(list: seq<nat>, chain: nat, chains: seq<nat>): set<(nat, Reach)> {
    set i, o | i in list && o in chains && o != chain :: (i, Against(o))
  }

  lemma OnePosting(list: seq<nat>, k: nat, i: nat, chain: nat, chains: seq<nat>)
    requires k < |list| && i == list[k] && Distinct(list)
    ensures i !in list[..k]
    ensures forall r :: With(list[..k + 1], r) == With(list[..k], r) + {(i, r)}
    ensures PeersOf(list[..k + 1], chain, chains) == PeersOf(list[..k], chain, chains) + Peers(i, chain, chains)
  {
    assert list[..k + 1] == list[..k] + [i];
    forall r ensures With(list[..k + 1], r) == With(list[..k], r) + {(i, r)} {
    }
    forall x ensures x in PeersOf(list[..k + 1], chain, chains) <==> x in PeersOf(list[..k], chain, chains) + Peers(i, chain, chains) {
      if x in Peers(i, chain, chains) {
        var o :| o in chains && o != chain && x == (i, Against(o));
        assert i in list[..k + 1];
      }
      if x in PeersOf(list[..k], chain, chains) {
        var a, o :| a in list[..k] && o in chains && o != chain && x == (a, Against(o));
        assert a in list[..k + 1];
      }
    }
  }

  method AddIntraAll(members: seq<Posting>, list: seq<nat>, worker: TokenWorker, ghost t: Table, ghost base: set<Hit>,
                     ghost had: set<(nat, Reach)>)
    requires Ready(t, TokenUri, members, base) && (forall i :: i in list ==> i < |members|) && Distinct(list)
    requires InGroup(members, had) && had !! With(list, Within) && worker.Carries(t, base + Credited(members, {}, had))
    modifies worker, worker.uri
    ensures InGroup(members, had + With(list, Within))
    ensures worker.Carries(t, base + Credited(members, {}, had + With(list, Within)))
    ensures worker.matrix.Compact? == old(worker.matrix.Compact?)
  {
    hide Credited, Group, Elsewhere;
    assert had + With(list[..0], Within) == had;
    for k: nat := 0 to |list|
      invariant InGroup(members, had + With(list[..k], Within))
      invariant worker.Carries(t, base + Credited(members, {}, had + With(list[..k], Within)))
      invariant worker.matrix.Compact? == old(worker.matrix.Compact?)
    {
      OnePosting(list, k, list[k], 0, []);
      assert (list[k], Within) in With(list, Within);
      assert had + With(list[..k + 1], Within) == had + With(list[..k], Within) + {(list[k], Within)};
      worker.AddIntra(members[list[k]], t, members, base, list[k], had + With(list[..k], Within));
    }
    assert list[..|list|] == list;
  }

  method AddCrossAll(members: seq<Posting>, list: seq<nat>, worker: TokenWorker, ghost t: Table, ghost base: set<Hit>,
                     ghost had: set<(nat, Reach)>)
    requires Ready(t, TokenUri, members, base) && (forall i :: i in list ==> i < |members|) && Distinct(list)
    requires InGroup(members, had) && had !! With(list, Across) && worker.Carries(t, base + Credited(members, {}, had))
    modifies worker, worker.uri
    ensures InGroup(members, had + With(list, Across))
    ensures worker.Carries(t, base + Credited(members, {}, had + With(list, Across)))
    ensures worker.matrix.Compact? == old(worker.matrix.Compact?)
  {
    hide Credited, Group, Elsewhere;
    assert had + With(list[..0], Across) == had;
    for k: nat := 0 to |list|
      invariant InGroup(members, had + With(list[..k], Across))
      invariant worker.Carries(t, base + Credited(members, {}, had + With(list[..k], Across)))
      invariant worker.matrix.Compact? == old(worker.matrix.Compact?)
    {
      OnePosting(list, k, list[k], 0, []);
      assert (list[k], Across) in With(list, Across);
      assert had + With(list[..k + 1], Across) == had + With(list[..k], Across) + {(list[k], Across)};
      worker.AddCrossSummary(members[list[k]], t, members, base, list[k], had + With(list[..k], Across));
    }
    assert list[..|list|] == list;
  }

  method AddMatrixAll(members: seq<Posting>, list: seq<nat>, chain: nat, chains: seq<nat>, worker: TokenWorker,
                      ghost t: Table, ghost base: set<Hit>, ghost had: set<(nat, Reach)>)
    requires Ready(t, TokenUri, members, base) && OfChain(members, chain, list) && Distinct(chains)
    requires worker.matrix.Wide?
    requires InGroup(members, had) && had !! PeersOf(list, chain, chains)
    requires worker.Carries(t, base + Credited(members, {}, had))
    modifies worker, worker.uri
    ensures InGroup(members, had + PeersOf(list, chain, chains))
    ensures worker.Carries(t, base + Credited(members, {}, had + PeersOf(list, chain, chains)))
    ensures worker.matrix.Wide?
  {
    hide Credited, Group, Elsewhere;
    assert had + PeersOf(list[..0], chain, chains) == had;
    for k: nat := 0 to |list|
      invariant InGroup(members, had + PeersOf(list[..k], chain, chains))
      invariant worker.Carries(t, base + Credited(members, {}, had + PeersOf(list[..k], chain, chains)))
      invariant worker.matrix.Wide?
    {
      OnePosting(list, k, list[k], chain, chains);
      ghost var now := had + PeersOf(list[..k], chain, chains);
      assert list[k] in list;
      assert Peers(list[k], chain, chains) <= PeersOf(list, chain, chains);
      assert had + PeersOf(list[..k + 1], chain, chains) == now + Peers(list[k], chain, chains);
      worker.AddMatrix(members[list[k]], chains, t, members, base, list[k], now);
    }
    assert list[..|list|] == list;
  }

  ghost predicate LinkedIn(ms: seq<Posting>, done: seq<nat>, pairs: set<(nat, Reach)>) {
    forall x :: x in pairs <==> Linked(ms, {}, x.0, x.1) && x.0 < |ms| && ms[x.0].chain in done
  }

  /** A chain brings in the linked pairs of its postings. */
  method AddChain(members: seq<Posting>, list: seq<nat>, chain: nat, chains: seq<nat>, worker: TokenWorker,
                  ghost t: Table, ghost base: set<Hit>, ghost done: seq<nat>, ghost had: set<(nat, Reach)>)
    returns (ghost pairs: set<(nat, Reach)>)
    requires Ready(t, TokenUri, members, base) && OfChain(members, chain, list) && ChainsOf(members, chains)
    requires chain in chains && chain !in done && LinkedIn(members, done, had)
    requires worker.matrix.Wide? && InGroup(members, had) && worker.Carries(t, base + Credited(members, {}, had))
    modifies worker, worker.uri
    ensures InGroup(members, pairs) && LinkedIn(members, done + [chain], pairs)
    ensures worker.matrix.Wide? && worker.Carries(t, base + Credited(members, {}, pairs))
  {
    hide Linked, Credited, Group, Elsewhere;
    pairs := had;
    assert forall x :: x in had ==> x.0 !in list;
    if |list| >= 2 {
      AddIntraAll(members, list, worker, t, base, pairs);
      pairs := pairs + With(list, Within);
    }
    if |chains| >= 2 {
      AddCrossAll(members, list, worker, t, base, pairs);
      pairs := pairs + With(list, Across);
      AddMatrixAll(members, list, chain, chains, worker, t, base, pairs);
      pairs := pairs + PeersOf(list, chain, chains);
    }
    ChainPairs(t, members, list, chain, chains, done, had, pairs);
  }

  lemma ChainPairs(t: Table, ms: seq<Posting>, list: seq<nat>, chain: nat, chains: seq<nat>, done: seq<nat>,
                   had: set<(nat, Reach)>, pairs: set<(nat, Reach)>)
    requires WellFormed(t) && Group(t, TokenUri, ms) && OfChain(ms, chain, list) && ChainsOf(ms, chains)
    requires LinkedIn(ms, done, had) && chain !in done
    requires pairs == had + (if |list| >= 2 then With(list, Within) else {})
                      + if |chains| >= 2 then With(list, Across) + PeersOf(list, chain, chains) else {}
    ensures LinkedIn(ms, done + [chain], pairs)
  {
    hide Linked, Group;
    forall x: (nat, Reach) | x.0 in list ensures x in pairs <==> Linked(ms, {}, x.0, x.1) {
      LinkShape(t, ms, chains, x.0);
      TwinsListed(ms, chain, list, x.0);
      match x.1 {
        case Within =>
        case Across =>
        case Against(o) =>
      }
    }
    forall x: (nat, Reach) | x.0 !in list ensures x in pairs <==> x in had {
    }
  }

  lemma TwinsListed(ms: seq<Posting>, chain: nat, list: seq<nat>, i: nat)
    requires OfChain(ms, chain, list) && i in list
    ensures Twin(ms, i) <==> |list| >= 2
  {
    if Twin(ms, i) {
      var j :| 0 <= j < |ms| && j != i && ms[j].chain == ms[i].chain;
      assert j in list;
      var a, b :| 0 <= a < |list| && 0 <= b < |list| && list[a] == i && list[b] == j;
      assert a != b;
    }
    if |list| >= 2 {
      var j := if list[0] == i then list[1] else list[0];
      assert j in list;
    }
  }

  method AccumulateWide(members: seq<Posting>, worker: TokenWorker, ghost t: Table, ghost base: set<Hit>)
    returns (ghost pairs: set<(nat, Reach)>)
    requires Ready(t, TokenUri, members, base) && worker.Carries(t, base) && worker.matrix.Wide?
    modifies worker, worker.uri
    ensures LinkedPairs(members, {}, pairs) && InGroup(members, pairs)
    ensures worker.Carries(t, base + Credited(members, {}, pairs)) && worker.matrix.Wide?
  {
    var byChain := PostingsByChain(members);
    var chains := Collect(byChain.Keys);
    hide Linked, Credited, Group, Elsewhere, Present, OfChain;
    pairs := {};
    assert base + Credited(members, {}, {}) == base by {
      NothingCredited(members);
    }
    for k := 0 to |chains|
      invariant LinkedIn(members, chains[..k], pairs) && InGroup(members, pairs)
      invariant worker.matrix.Wide? && worker.Carries(t, base + Credited(members, {}, pairs))
    {
      assert chains[..k + 1] == chains[..k] + [chains[k]] && chains[k] in chains && chains[k] !in chains[..k];
      pairs := AddChain(members, byChain[chains[k]], chains[k], chains, worker, t, base, chains[..k], pairs);
    }
    assert chains[..|chains|] == chains;
    AllChains(members, chains, pairs);
  }

  lemma AllChains(ms: seq<Posting>, chains: seq<nat>, pairs: set<(nat, Reach)>)
    requires ChainsOf(ms, chains) && LinkedIn(ms, chains, pairs)
    ensures LinkedPairs(ms, {}, pairs)
  {}

  /** `accumulate_token_scope_hits`: whichever way the group is read, the worker gains its
      linked pairs. */
  method AccumulateTokenScopeHits(members: seq<Posting>, worker: TokenWorker, ghost t: Table, ghost base: set<Hit>)
    returns (ghost pairs: set<(nat, Reach)>)
    requires Ready(t, TokenUri, members, base) && worker.Carries(t, base)
    requires worker.matrix.Compact? ==> forall i :: 0 <= i < |members| ==> members[i].chain < WORD_BITS
    modifies worker, worker.uri
    ensures LinkedPairs(members, {}, pairs) && InGroup(members, pairs)
    ensures worker.Carries(t, base + Credited(members, {}, pairs))
    ensures worker.matrix.Compact? == old(worker.matrix.Compact?)
  {
    if |members| < 2 {
      LoneMember(members, {});
      pairs := {};
      NothingCredited(members);
      assert base + {} == base;
      return;
    }
    if worker.matrix.Compact? {
      pairs := AccumulateCompact(members, worker, t, base);
    } else {
      pairs := AccumulateWide(members, worker, t, base);
    }
  }
}
