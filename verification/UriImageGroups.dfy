/** Reading one group of image URI postings, by bit masks or by a map of chains. */
module UriImageGroups {
  import opened Sorting
  import opened WordBits
  import opened UriSpec
  import opened UriTally
  import opened UriPostings
  import opened UriTokens
  import opened UriTokenGroups
  import opened UriScopes
  import opened UriImages

  /** The scopes `done` are dealt with: their linked pairs, and no others, are tallied. */
  ghost predicate Progress(t: Table, ms: seq<Posting>, barred: set<Hit>, base: set<Hit>, done: set<(nat, Reach)>,
                           pairs: set<(nat, Reach)>, scopes: Scopes) {
    && Ready(t, ImageUri, ms, base) && InGroup(ms, pairs) && LinkedScopes(ms, barred, done, pairs)
    && Tallies(t, base + Credited(ms, barred, pairs), scopes)
  }

  lemma Begin(t: Table, ms: seq<Posting>, barred: set<Hit>, base: set<Hit>, scopes: Scopes)
    requires Ready(t, ImageUri, ms, base) && Tallies(t, base, scopes)
    ensures Progress(t, ms, barred, base, {}, {}, scopes)
  {
    assert base + Credited(ms, barred, {}) == base;
  }

  /** A scope without duplicates is dealt with by leaving it alone. */
  lemma Pass(t: Table, ms: seq<Posting>, barred: set<Hit>, base: set<Hit>, done: set<(nat, Reach)>,
             pairs: set<(nat, Reach)>, scopes: Scopes, c: nat, r: Reach)
    requires Progress(t, ms, barred, base, done, pairs, scopes) && (c, r) !in done
    requires Nonempty(ms, barred, c, r) ==> !ScopeLinked(ms, barred, c, r)
    ensures Progress(t, ms, barred, base, done + {(c, r)}, pairs, scopes)
  {
    hide Tallies, Credited, Group, Linked, Nonempty, ScopeLinked, Scope;
    ScopeDone(t, ImageUri, ms, barred, done, pairs, c, r);
    ScopeNonempty(ms, barred, c, r);
    assert pairs + {} == pairs;
    assert Scope(ms, barred, c, r) == {} ==> pairs + Scope(ms, barred, c, r) == pairs;
  }

  lemma Finish(t: Table, ms: seq<Posting>, barred: set<Hit>, base: set<Hit>, done: set<(nat, Reach)>,
               pairs: set<(nat, Reach)>, scopes: Scopes)
    requires Progress(t, ms, barred, base, done, pairs, scopes) && AllScopes(ms, done)
    ensures LinkedPairs(ms, barred, pairs)
  {}

  // ----- counting what is open

  function OpenCount(nfts: seq<nat>, k: nat, r: Reach, barred: set<Hit>): nat
    requires k <= |nfts|
  {
    if k == 0 then 0 else OpenCount(nfts, k - 1, r, barred) + if Hit(r, nfts[k - 1]) in barred then 0 else 1
  }

  ghost function OpenAmong(nfts: seq<nat>, k: nat, r: Reach, barred: set<Hit>): set<nat>
    requires k <= |nfts|
  {
    set n | n in nfts[..k] && Hit(r, n) !in barred
  }

  lemma OpenOneMore(nfts: seq<nat>, k: nat, r: Reach, barred: set<Hit>)
    requires k < |nfts| && Distinct(nfts)
    ensures var before, n := OpenAmong(nfts, k, r, barred), nfts[k];
            n !in before && OpenAmong(nfts, k + 1, r, barred) == before + if Hit(r, n) in barred then {} else {n}
  {}

  lemma {:induction false} OpenCounted(nfts: seq<nat>, k: nat, r: Reach, barred: set<Hit>)
    requires k <= |nfts| && Distinct(nfts)
    ensures OpenCount(nfts, k, r, barred) == |OpenAmong(nfts, k, r, barred)|
  {
    hide OpenAmong, Distinct;
    if k == 0 {
      NoneAmong(nfts, r, barred);
    } else {
      OpenCounted(nfts, k - 1, r, barred);
      OpenOneMore(nfts, k - 1, r, barred);
      var before, n := OpenAmong(nfts, k - 1, r, barred), nfts[k - 1];
      assert before + {} == before && |before + {n}| == |before| + 1;
    }
  }

  lemma NoneAmong(nfts: seq<nat>, r: Reach, barred: set<Hit>)
    ensures OpenAmong(nfts, 0, r, barred) == {}
  {}

  lemma OpenCountIs(p: Posting, r: Reach, barred: set<Hit>)
    requires Distinct(p.nfts)
    ensures OpenCount(p.nfts, |p.nfts|, r, barred) == |Open(p, r, barred)|
  {
    OpenCounted(p.nfts, |p.nfts|, r, barred);
    assert p.nfts[..|p.nfts|] == p.nfts;
    assert OpenAmong(p.nfts, |p.nfts|, r, barred) == Open(p, r, barred);
  }

  /** One NFT's part in the matrix counts. */
  method CountMatrix(nfts: seq<nat>, k: nat, primary: nat, chains: seq<nat>, was: seq<nat>, hits: TokenHits, ghost t: Table,
                     ghost barred: set<Hit>)
    returns (matrix: seq<nat>)
    requires k < |nfts| && nfts[k] < |t.nfts| && hits.Represents(t, barred) && |was| == |chains|
    requires forall o :: o in chains ==> o < t.chainCount
    requires forall s :: 0 <= s < |chains| && s != primary ==> was[s] == OpenCount(nfts, k, Against(chains[s]), barred)
    ensures |matrix| == |chains|
    ensures forall s :: 0 <= s < |chains| && s != primary ==> matrix[s] == OpenCount(nfts, k + 1, Against(chains[s]), barred)
  {
    matrix := was;
    for s := 0 to |chains|
      invariant |matrix| == |chains| && forall i :: s <= i < |chains| ==> matrix[i] == was[i]
      invariant forall i :: 0 <= i < s && i != primary ==> matrix[i] == OpenCount(nfts, k + 1, Against(chains[i]), barred)
    {
      assert chains[s] in chains;
      if s != primary && !hits.Contains(Against(chains[s]), nfts[k]) {
        matrix := matrix[s := matrix[s] + 1];
      }
    }
  }

  /** The open NFTs of a posting in each reach, counted in one go. */
  method CountOpen(posting: Posting, primary: nat, chains: seq<nat>, hits: TokenHits, ghost t: Table, ghost barred: set<Hit>)
    returns (intra: nat, cross: nat, matrix: seq<nat>)
    requires WellFormed(t) && PostingOf(t, ImageUri, posting) && hits.Represents(t, barred)
    requires forall o :: o in chains ==> o < t.chainCount
    ensures intra == |Open(posting, Within, barred)| && cross == |Open(posting, Across, barred)|
    ensures |matrix| == |chains|
    ensures forall s :: 0 <= s < |chains| && s != primary ==> matrix[s] == |Open(posting, Against(chains[s]), barred)|
  {
    hide Open;
    var nfts := posting.nfts;
    intra, cross, matrix := 0, 0, seq(|chains|, _ => 0);
    for k := 0 to |nfts|
      invariant intra == OpenCount(nfts, k, Within, barred) && cross == OpenCount(nfts, k, Across, barred)
      invariant |matrix| == |chains|
      invariant forall s :: 0 <= s < |chains| && s != primary ==> matrix[s] == OpenCount(nfts, k, Against(chains[s]), barred)
    {
      var n := nfts[k];
      assert n in nfts;
      if !hits.Contains(Within, n) {
        intra := intra + 1;
      }
      if !hits.Contains(Across, n) {
        cross := cross + 1;
      }
      matrix := CountMatrix(nfts, k, primary, chains, matrix, hits, t, barred);
    }
    forall r ensures OpenCount(nfts, |nfts|, r, barred) == |Open(posting, r, barred)| {
      OpenCountIs(posting, r, barred);
    }
  }

  // ----- one scope

  /** A scope's aggregate goes to the output if the scope has duplicates. */
  method AddScope(output: LocalUriAccumulator, g: GroupScope, c: nat, r: Reach, take: bool, ghost t: Table,
                  ghost ms: seq<Posting>, ghost barred: set<Hit>, ghost base: set<Hit>, ghost done: set<(nat, Reach)>,
                  ghost had: set<(nat, Reach)>)
    returns (ghost pairs: set<(nat, Reach)>)
    requires Progress(t, ms, barred, base, done, had, output.scopes) && (c, r) !in done
    requires g == Summed(ms, barred, |ms|, c, r)
    requires Nonempty(ms, barred, c, r) ==> (take <==> ScopeLinked(ms, barred, c, r))
    modifies output
    ensures Progress(t, ms, barred, base, done + {(c, r)}, pairs, output.scopes)
  {
    hide Tallies, Credited, Group, Linked, Nonempty, Several, ScopeLinked, Scope, Summed, OpenIn, Plus;
    SummedMeans(t, ImageUri, ms, barred, c, r);
    pairs := had;
    if take && g.rows != 0 {
      ghost var scope := Scope(ms, barred, c, r);
      ScopeDone(t, ImageUri, ms, barred, done, had, c, r);
      Credit(t, ImageUri, ms, barred, base, had, scope, r, c, output.scopes);
      pairs := had + scope;
    } else {
      Pass(t, ms, barred, base, done, had, output.scopes, c, r);
    }
    if take {
      output.AddGroup(c, g.contracts, g.rows, r);
    }
  }

  // ----- by bit masks

  method PresentChains(members: seq<Posting>) returns (chains: seq<nat>)
    requires forall i :: 0 <= i < |members| ==> members[i].chain < WORD_BITS
    ensures ChainsOf(members, chains)
  {
    hide Has, Bit, Join;
    var mask: Word := 0;
    ZeroWord();
    for k := 0 to |members|
      invariant forall c: nat :: c < WORD_BITS ==> (Has(mask, c) <==> exists i :: 0 <= i < k && members[i].chain == c)
    {
      SetBit(mask, members[k].chain);
      mask := Join(mask, Bit(members[k].chain));
    }
    chains := Members(mask);
  }

  /** All postings of one chain: only the intra-chain scope can have duplicates. */
  method AccumulateOneChain(members: seq<Posting>, chain: nat, hits: TokenHits, output: LocalUriAccumulator,
                            ghost t: Table, ghost barred: set<Hit>, ghost base: set<Hit>)
    returns (ghost pairs: set<(nat, Reach)>)
    requires Ready(t, ImageUri, members, base) && Tallies(t, base, output.scopes) && hits.Represents(t, barred)
    requires forall i :: 0 <= i < |members| ==> members[i].chain == chain
    requires output as object !in hits.Buffers()
    modifies output
    ensures LinkedPairs(members, barred, pairs) && InGroup(members, pairs)
    ensures Tallies(t, base + Credited(members, barred, pairs), output.scopes)
  {
    hide Tallies, Credited, Linked, Open, Several;
    var intra := NO_POSTINGS;
    for k := 0 to |members|
      invariant intra == Summed(members, barred, k, chain, Within) && output.scopes == old(output.scopes)
      invariant hits.Represents(t, barred)
    {
      var rows, _, _ := CountOpen(members[k], 0, [], hits, t, barred);
      intra := AddPosting(intra, members[k].contract, rows);
    }
    Begin(t, members, barred, base, output.scopes);
    SummedMeans(t, ImageUri, members, barred, chain, Within);
    pairs := AddScope(output, intra, chain, Within, intra.postings >= 2, t, members, barred, base, {}, {});
    ghost var done: set<(nat, Reach)> := {(chain, Within)};
    assert {} + {(chain, Within)} == done;
    OneChainOnly(members, barred, chain);
    Pass(t, members, barred, base, done, pairs, output.scopes, chain, Across);
    Pass(t, members, barred, base, done + {(chain, Across)}, pairs, output.scopes, chain, Against(chain));
    Finish(t, members, barred, base, done + {(chain, Across)} + {(chain, Against(chain))}, pairs, output.scopes);
  }

  lemma OneChainOnly(ms: seq<Posting>, barred: set<Hit>, c: nat)
    requires forall i :: 0 <= i < |ms| ==> ms[i].chain == c
    ensures !ScopeLinked(ms, barred, c, Across) && !ScopeLinked(ms, barred, c, Against(c))
  {}

  /** The aggregates of every scope of a group, after `k` postings. */
  ghost predicate Sums(ms: seq<Posting>, barred: set<Hit>, k: nat, chains: seq<nat>, intra: seq<GroupScope>,
                       cross: seq<GroupScope>, matrix: seq<seq<GroupScope>>)
    requires k <= |ms|
  {
    && |intra| == |chains| && |cross| == |chains| && |matrix| == |chains|
    && (forall p :: 0 <= p < |chains| ==> |matrix[p]| == |chains|)
    && (forall p :: 0 <= p < |chains| ==> intra[p] == Summed(ms, barred, k, chains[p], Within))
    && (forall p :: 0 <= p < |chains| ==> cross[p] == Summed(ms, barred, k, chains[p], Across))
    && (forall p, s :: 0 <= p < |chains| && 0 <= s < |chains| && p != s ==>
          matrix[p][s] == Summed(ms, barred, k, chains[p], Against(chains[s])))
  }

  method LocalIndex(chains: seq<nat>) returns (index: map<nat, nat>)
    requires Distinct(chains)
    ensures forall c :: c in chains <==> c in index
    ensures forall c :: c in index ==> index[c] < |chains| && chains[index[c]] == c
  {
    index := map[];
    for k: nat := 0 to |chains|
      invariant forall c :: c in chains[..k] <==> c in index
      invariant forall c :: c in index ==> index[c] < k && chains[index[c]] == c
    {
      assert chains[..k + 1] == chains[..k] + [chains[k]];
      index := index[chains[k] := k];
    }
    assert chains[..|chains|] == chains;
  }

  function AddRow(row: seq<GroupScope>, primary: nat, contract: nat, counts: seq<nat>): seq<GroupScope>
    requires |row| == |counts|
  {
    seq(|row|, s requires 0 <= s < |row| => if s == primary then row[s] else AddPosting(row[s], contract, counts[s]))
  }

  /** Goes through the postings once, filling the aggregates of all scopes. */
  method SumScopes(members: seq<Posting>, chains: seq<nat>, hits: TokenHits, ghost t: Table, ghost barred: set<Hit>)
    returns (intra: seq<GroupScope>, cross: seq<GroupScope>, matrix: seq<seq<GroupScope>>)
    requires WellFormed(t) && Group(t, ImageUri, members) && hits.Represents(t, barred) && ChainsOf(members, chains)
    ensures Sums(members, barred, |members|, chains, intra, cross, matrix)
  {
    hide Open, Sums, Group, PostingOf, AddPosting, AddRow, Distinct;
    ChainsFit(t, members, chains);
    var index := LocalIndex(chains);
    var width := |chains|;
    intra, cross := seq(width, _ => NO_POSTINGS), seq(width, _ => NO_POSTINGS);
    matrix := seq(width, _ => seq(width, _ => NO_POSTINGS));
    SumNone(members, barred, chains);
    for k: nat := 0 to |members|
      invariant Sums(members, barred, k, chains, intra, cross, matrix)
    {
      MemberOf(t, members, chains, k);
      SumSizes(members, barred, k, chains, intra, cross, matrix);
      var posting := members[k];
      var primary := index[posting.chain];
      var intraCount, crossCount, matrixCounts := CountOpen(posting, primary, chains, hits, t, barred);
      SumStep(members, barred, k, chains, intra, cross, matrix, primary, intraCount, crossCount, matrixCounts);
      intra := intra[primary := AddPosting(intra[primary], posting.contract, intraCount)];
      cross := cross[primary := AddPosting(cross[primary], posting.contract, crossCount)];
      matrix := matrix[primary := AddRow(matrix[primary], primary, posting.contract, matrixCounts)];
    }
  }

  lemma MemberOf(t: Table, ms: seq<Posting>, chains: seq<nat>, k: nat)
    requires WellFormed(t) && Group(t, ImageUri, ms) && ChainsOf(ms, chains) && k < |ms|
    ensures PostingOf(t, ImageUri, ms[k]) && ms[k].chain in chains
  {}

  lemma SumNone(ms: seq<Posting>, barred: set<Hit>, chains: seq<nat>)
    ensures Sums(ms, barred, 0, chains, seq(|chains|, _ => NO_POSTINGS), seq(|chains|, _ => NO_POSTINGS),
                 seq(|chains|, _ => seq(|chains|, _ => NO_POSTINGS)))
  {}

  lemma SumSizes(ms: seq<Posting>, barred: set<Hit>, k: nat, chains: seq<nat>, intra: seq<GroupScope>, cross: seq<GroupScope>,
                 matrix: seq<seq<GroupScope>>)
    requires k <= |ms| && Sums(ms, barred, k, chains, intra, cross, matrix)
    ensures |intra| == |chains| && |cross| == |chains| && |matrix| == |chains|
    ensures forall p :: 0 <= p < |chains| ==> |matrix[p]| == |chains|
  {}

  lemma SumStep(ms: seq<Posting>, barred: set<Hit>, k: nat, chains: seq<nat>, intra: seq<GroupScope>, cross: seq<GroupScope>,
                matrix: seq<seq<GroupScope>>, primary: nat, intraCount: nat, crossCount: nat, matrixCounts: seq<nat>)
    requires k < |ms| && Distinct(chains) && Sums(ms, barred, k, chains, intra, cross, matrix)
    requires primary < |chains| && chains[primary] == ms[k].chain
    requires intraCount == |Open(ms[k], Within, barred)| && crossCount == |Open(ms[k], Across, barred)|
    requires |matrixCounts| == |chains|
    requires forall s :: 0 <= s < |chains| && s != primary ==> matrixCounts[s] == |Open(ms[k], Against(chains[s]), barred)|
    ensures Sums(ms, barred, k + 1, chains, intra[primary := AddPosting(intra[primary], ms[k].contract, intraCount)],
                 cross[primary := AddPosting(cross[primary], ms[k].contract, crossCount)],
                 matrix[primary := AddRow(matrix[primary], primary, ms[k].contract, matrixCounts)])
  {}

  lemma ChainsFit(t: Table, ms: seq<Posting>, chains: seq<nat>)
    requires WellFormed(t) && Group(t, ImageUri, ms) && ChainsOf(ms, chains)
    ensures forall o :: o in chains ==> o < t.chainCount
  {}

  // ----- the scopes of a group, one after another

  ghost predicate Aggregated(ms: seq<Posting>, barred: set<Hit>, chains: seq<nat>, intra: seq<GroupScope>,
                             cross: seq<GroupScope>, matrix: seq<seq<GroupScope>>) {
    ChainsOf(ms, chains) && Sums(ms, barred, |ms|, chains, intra, cross, matrix)
  }

  /** None of the scopes of this kind is dealt with yet. */
  ghost predicate Untouched(done: set<(nat, Reach)>, r: Reach) {
    forall x :: x in done ==> x.1 != r
  }

  ghost predicate DoneTo(chains: seq<nat>, k: nat, r: Reach, done: set<(nat, Reach)>)
    requires k <= |chains|
  {
    && (forall p :: 0 <= p < k ==> (chains[p], r) in done)
    && (forall p :: k <= p < |chains| ==> (chains[p], r) !in done)
  }

  /** The intra-chain scopes, or the cross-chain ones, of all chains. */
  method AddScopes(output: LocalUriAccumulator, chains: seq<nat>, sums: seq<GroupScope>, r: Reach, take: seq<bool>,
                   ghost t: Table, ghost ms: seq<Posting>, ghost barred: set<Hit>, ghost base: set<Hit>,
                   ghost was: set<(nat, Reach)>, ghost had: set<(nat, Reach)>)
    returns (ghost done: set<(nat, Reach)>, ghost pairs: set<(nat, Reach)>)
    requires Progress(t, ms, barred, base, was, had, output.scopes) && Untouched(was, r) && Distinct(chains)
    requires |sums| == |chains| && |take| == |chains|
    requires forall p :: 0 <= p < |chains| ==> sums[p] == Summed(ms, barred, |ms|, chains[p], r)
    requires forall p :: 0 <= p < |chains| && Nonempty(ms, barred, chains[p], r) ==>
               (take[p] <==> ScopeLinked(ms, barred, chains[p], r))
    modifies output
    ensures Progress(t, ms, barred, base, done, pairs, output.scopes)
    ensures DoneTo(chains, |chains|, r, done) && (forall x :: x in was ==> x in done)
    ensures forall x :: x in done && x.1 != r ==> x in was
  {
    hide Progress, Nonempty, ScopeLinked, Summed;
    done, pairs := was, had;
    for k: nat := 0 to |chains|
      invariant Progress(t, ms, barred, base, done, pairs, output.scopes)
      invariant DoneTo(chains, k, r, done) && (forall x :: x in was ==> x in done)
      invariant forall x :: x in done && x.1 != r ==> x in was
    {
      pairs := AddScope(output, sums[k], chains[k], r, take[k], t, ms, barred, base, done, pairs);
      done := done + {(chains[k], r)};
    }
  }

  // ----- the cross-chain scopes

  function NonzeroCount(sums: seq<GroupScope>, k: nat): nat
    requires k <= |sums|
  {
    if k == 0 then 0 else NonzeroCount(sums, k - 1) + if sums[k - 1].rows != 0 then 1 else 0
  }

  ghost predicate SomeNonzero(sums: seq<GroupScope>, k: nat)
    requires k <= |sums|
  {
    exists p :: 0 <= p < k && sums[p].rows != 0
  }

  ghost predicate TwoNonzero(sums: seq<GroupScope>, k: nat)
    requires k <= |sums|
  {
    exists p, q :: 0 <= p < q < k && sums[p].rows != 0 && sums[q].rows != 0
  }

  lemma {:induction false} NonzeroMeans(sums: seq<GroupScope>, k: nat)
    requires k <= |sums|
    ensures NonzeroCount(sums, k) >= 1 <==> SomeNonzero(sums, k)
    ensures NonzeroCount(sums, k) >= 2 <==> TwoNonzero(sums, k)
  {
    if k > 0 {
      NonzeroMeans(sums, k - 1);
    }
  }

  /** Two chains with something open make every such chain a duplicate of the others. */
  lemma CrossTaken(t: Table, ms: seq<Posting>, barred: set<Hit>, chains: seq<nat>, cross: seq<GroupScope>, p: nat)
    requires WellFormed(t) && Group(t, ImageUri, ms) && ChainsOf(ms, chains) && |cross| == |chains| && p < |chains|
    requires forall q :: 0 <= q < |chains| ==> cross[q] == Summed(ms, barred, |ms|, chains[q], Across)
    requires Nonempty(ms, barred, chains[p], Across)
    ensures NonzeroCount(cross, |cross|) >= 2 <==> ScopeLinked(ms, barred, chains[p], Across)
  {
    hide Summed, Group, Nonempty;
    forall q | 0 <= q < |chains| ensures cross[q].rows != 0 <==> Nonempty(ms, barred, chains[q], Across) {
      SummedMeans(t, ImageUri, ms, barred, chains[q], Across);
    }
    NonzeroMeans(cross, |cross|);
    if ScopeLinked(ms, barred, chains[p], Across) {
      var o: nat :| o != chains[p] && Nonempty(ms, barred, o, Across);
      NonemptyPresent(ms, barred, chains, o, Across);
      var q :| 0 <= q < |chains| && chains[q] == o;
      assert cross[q].rows != 0 && cross[p].rows != 0 && p != q;
      assert TwoNonzero(cross, |cross|);
    }
    if TwoNonzero(cross, |cross|) {
      var a, b :| 0 <= a < b < |cross| && cross[a].rows != 0 && cross[b].rows != 0;
      var q := if a == p then b else a;
      assert chains[q] != chains[p];
      assert OpenAbroad(ms, barred, chains[p]);
    }
  }

  lemma NonemptyPresent(ms: seq<Posting>, barred: set<Hit>, chains: seq<nat>, c: nat, r: Reach)
    requires ChainsOf(ms, chains) && Nonempty(ms, barred, c, r)
    ensures c in chains
  {}

  // ----- the matrix scopes

  ghost predicate CellsDone(chains: seq<nat>, p: nat, s: nat, done: set<(nat, Reach)>) {
    forall i, j :: 0 <= i < |chains| && 0 <= j < |chains| ==>
      ((chains[i], Against(chains[j])) in done <==> i < p || (i == p && j < s))
  }

  lemma CellTaken(t: Table, ms: seq<Posting>, barred: set<Hit>, chains: seq<nat>, intra: seq<GroupScope>,
                  cross: seq<GroupScope>, matrix: seq<seq<GroupScope>>, p: nat, s: nat)
    requires WellFormed(t) && Group(t, ImageUri, ms) && Aggregated(ms, barred, chains, intra, cross, matrix)
    requires p < |chains| && s < |chains| && p != s && Nonempty(ms, barred, chains[p], Against(chains[s]))
    ensures matrix[p][s].rows != 0 && matrix[s][p].rows != 0 <==> ScopeLinked(ms, barred, chains[p], Against(chains[s]))
  {
    hide Summed, Group, Nonempty;
    SummedMeans(t, ImageUri, ms, barred, chains[p], Against(chains[s]));
    SummedMeans(t, ImageUri, ms, barred, chains[s], Against(chains[p]));
  }

  method AddMatrixScopes(output: LocalUriAccumulator, chains: seq<nat>, matrix: seq<seq<GroupScope>>, ghost t: Table,
                         ghost ms: seq<Posting>, ghost barred: set<Hit>, ghost base: set<Hit>, ghost was: set<(nat, Reach)>,
                         ghost had: set<(nat, Reach)>, ghost intra: seq<GroupScope>, ghost cross: seq<GroupScope>)
    returns (ghost done: set<(nat, Reach)>, ghost pairs: set<(nat, Reach)>)
    requires Progress(t, ms, barred, base, was, had, output.scopes) && CellsDone(chains, 0, 0, was)
    requires Aggregated(ms, barred, chains, intra, cross, matrix)
    modifies output
    ensures Progress(t, ms, barred, base, done, pairs, output.scopes)
    ensures CellsDone(chains, |chains|, 0, done) && (forall x :: x in was ==> x in done)
  {
    GroupOf(t, ms, barred, base, was, had, output.scopes);
    SumSizes(ms, barred, |ms|, chains, intra, cross, matrix);
    hide Progress, Nonempty, ScopeLinked, Summed, Aggregated, CellsDone, Group, WellFormed;
    done, pairs := was, had;
    for p: nat := 0 to |chains|
      invariant Progress(t, ms, barred, base, done, pairs, output.scopes)
      invariant CellsDone(chains, p, 0, done) && (forall x :: x in was ==> x in done)
    {
      for s: nat := 0 to |chains|
        invariant Progress(t, ms, barred, base, done, pairs, output.scopes)
        invariant CellsDone(chains, p, s, done) && (forall x :: x in was ==> x in done)
      {
        done, pairs := AddCell(output, chains, matrix, p, s, t, ms, barred, base, done, pairs, intra, cross);
      }
      NextRow(chains, p, done);
    }
  }

  lemma GroupOf(t: Table, ms: seq<Posting>, barred: set<Hit>, base: set<Hit>, done: set<(nat, Reach)>,
                pairs: set<(nat, Reach)>, scopes: Scopes)
    requires Progress(t, ms, barred, base, done, pairs, scopes)
    ensures WellFormed(t) && Group(t, ImageUri, ms)
  {}

  lemma NextRow(chains: seq<nat>, p: nat, done: set<(nat, Reach)>)
    requires CellsDone(chains, p, |chains|, done)
    ensures CellsDone(chains, p + 1, 0, done)
  {}

  lemma NextCell(chains: seq<nat>, p: nat, s: nat, done: set<(nat, Reach)>)
    requires p < |chains| && s < |chains| && Distinct(chains) && CellsDone(chains, p, s, done)
    ensures (chains[p], Against(chains[s])) !in done
    ensures CellsDone(chains, p, s + 1, done + {(chains[p], Against(chains[s]))})
  {}

  /** One cell of the chain matrix, counted if its mirror image has something open too. */
  method AddCell(output: LocalUriAccumulator, chains: seq<nat>, matrix: seq<seq<GroupScope>>, p: nat, s: nat, ghost t: Table,
                 ghost ms: seq<Posting>, ghost barred: set<Hit>, ghost base: set<Hit>, ghost was: set<(nat, Reach)>,
                 ghost had: set<(nat, Reach)>, ghost intra: seq<GroupScope>, ghost cross: seq<GroupScope>)
    returns (ghost done: set<(nat, Reach)>, ghost pairs: set<(nat, Reach)>)
    requires Progress(t, ms, barred, base, was, had, output.scopes) && CellsDone(chains, p, s, was)
    requires WellFormed(t) && Group(t, ImageUri, ms) && Aggregated(ms, barred, chains, intra, cross, matrix)
    requires p < |chains| && s < |chains|
    modifies output
    ensures Progress(t, ms, barred, base, done, pairs, output.scopes)
    ensures CellsDone(chains, p, s + 1, done) && done == was + {(chains[p], Against(chains[s]))}
  {
    hide Progress, Nonempty, Summed, CellsDone, Group, Present;
    NextCell(chains, p, s, was);
    done := was + {(chains[p], Against(chains[s]))};
    if p == s {
      pairs := had;
      Pass(t, ms, barred, base, was, had, output.scopes, chains[p], Against(chains[s]));
      return;
    }
    var take := matrix[p][s].rows != 0 && matrix[s][p].rows != 0;
    if Nonempty(ms, barred, chains[p], Against(chains[s])) {
      CellTaken(t, ms, barred, chains, intra, cross, matrix, p, s);
    }
    pairs := AddScope(output, matrix[p][s], chains[p], Against(chains[s]), take, t, ms, barred, base, was, had);
  }

  lemma IntraTaken(t: Table, ms: seq<Posting>, barred: set<Hit>, c: nat)
    requires WellFormed(t) && Group(t, ImageUri, ms)
    ensures Summed(ms, barred, |ms|, c, Within).postings >= 2 <==> ScopeLinked(ms, barred, c, Within)
  {
    hide Summed, Group;
    SummedMeans(t, ImageUri, ms, barred, c, Within);
  }

  /** `accumulate_image_scope_hits_compact` */
  method AccumulateImageCompact(members: seq<Posting>, hits: TokenHits, output: LocalUriAccumulator,
                                ghost t: Table, ghost barred: set<Hit>, ghost base: set<Hit>)
    returns (ghost pairs: set<(nat, Reach)>)
    requires Ready(t, ImageUri, members, base) && Tallies(t, base, output.scopes) && hits.Represents(t, barred)
    requires output as object !in hits.Buffers() && t.chainCount <= WORD_BITS
    modifies output
    ensures LinkedPairs(members, barred, pairs) && InGroup(members, pairs)
    ensures Tallies(t, base + Credited(members, barred, pairs), output.scopes)
  {
    ChainsSmall(t, members);
    var chains := PresentChains(members);
    if |chains| == 1 {
      SoleChain(members, chains);
      pairs := AccumulateOneChain(members, chains[0], hits, output, t, barred, base);
      return;
    }
    Begin(t, members, barred, base, output.scopes);
    var intra, cross, matrix := SumScopes(members, chains, hits, t, barred);
    pairs := AddAllScopes(output, chains, intra, cross, matrix, t, members, barred, base);
  }

  lemma ChainsSmall(t: Table, ms: seq<Posting>)
    requires WellFormed(t) && Group(t, ImageUri, ms)
    ensures forall i :: 0 <= i < |ms| ==> ms[i].chain < t.chainCount
  {}

  lemma SoleChain(ms: seq<Posting>, chains: seq<nat>)
    requires ChainsOf(ms, chains) && |chains| == 1
    ensures forall i :: 0 <= i < |ms| ==> ms[i].chain == chains[0]
  {
    forall i | 0 <= i < |ms| ensures ms[i].chain == chains[0] {
      assert Present(ms, ms[i].chain);
    }
  }

  method AddAllScopes(output: LocalUriAccumulator, chains: seq<nat>, intra: seq<GroupScope>, cross: seq<GroupScope>,
                      matrix: seq<seq<GroupScope>>, ghost t: Table, ghost ms: seq<Posting>, ghost barred: set<Hit>,
                      ghost base: set<Hit>)
    returns (ghost pairs: set<(nat, Reach)>)
    requires Progress(t, ms, barred, base, {}, {}, output.scopes)
    requires Aggregated(ms, barred, chains, intra, cross, matrix)
    modifies output
    ensures LinkedPairs(ms, barred, pairs) && InGroup(ms, pairs)
    ensures Tallies(t, base + Credited(ms, barred, pairs), output.scopes)
  {
    GroupOf(t, ms, barred, base, {}, {}, output.scopes);
    hide Nonempty, ScopeLinked, Summed, Group, WellFormed, Tallies, Credited, Linked, Present, Elsewhere;
    ghost var done;
    forall p | 0 <= p < |chains| ensures intra[p].postings >= 2 <==> ScopeLinked(ms, barred, chains[p], Within) {
      IntraTaken(t, ms, barred, chains[p]);
    }
    forall p | 0 <= p < |chains| && Nonempty(ms, barred, chains[p], Across)
      ensures NonzeroCount(cross, |cross|) >= 2 <==> ScopeLinked(ms, barred, chains[p], Across)
    {
      CrossTaken(t, ms, barred, chains, cross, p);
    }
    done, pairs := AddScopes(output, chains, intra, Within, seq(|chains|, p requires 0 <= p < |chains| => intra[p].postings >= 2),
                             t, ms, barred, base, {}, {});
    ghost var within := done;
    var enough := NonzeroCount(cross, |cross|) >= 2;
    done, pairs := AddScopes(output, chains, cross, Across, seq(|chains|, _ => enough), t, ms, barred, base, done, pairs);
    ghost var across := done;
    assert forall x :: x in done ==> x.1 == Within || x.1 == Across;
    done, pairs := AddMatrixScopes(output, chains, matrix, t, ms, barred, base, done, pairs, intra, cross);
    AllDone(ms, chains, within, across, done);
    Finish(t, ms, barred, base, done, pairs, output.scopes);
  }

  lemma AllDone(ms: seq<Posting>, chains: seq<nat>, within: set<(nat, Reach)>, across: set<(nat, Reach)>, done: set<(nat, Reach)>)
    requires ChainsOf(ms, chains) && DoneTo(chains, |chains|, Within, within) && DoneTo(chains, |chains|, Across, across)
    requires CellsDone(chains, |chains|, 0, done) && within <= across <= done
    ensures AllScopes(ms, done)
  {
    forall i, j | 0 <= i < |ms| && 0 <= j < |ms|
      ensures (ms[i].chain, Within) in done && (ms[i].chain, Across) in done && (ms[i].chain, Against(ms[j].chain)) in done
    {
      assert Present(ms, ms[i].chain) && Present(ms, ms[j].chain);
      var p :| 0 <= p < |chains| && chains[p] == ms[i].chain;
      var q :| 0 <= q < |chains| && chains[q] == ms[j].chain;
    }
  }
}
