/** Reading a group of image URI postings by a map of chains, for more than 64 chains. */
module UriImageWide {
  import opened Sorting
  import opened WordBits
  import opened UriSpec
  import opened UriTally
  import opened UriPostings
  import opened UriTokens
  import opened UriTokenGroups
  import opened UriScopes
  import opened UriImages
  import opened UriImageGroups

  method CountReach(posting: Posting, r: Reach, hits: TokenHits, ghost t: Table, ghost barred: set<Hit>) returns (count: nat)
    requires WellFormed(t) && PostingOf(t, ImageUri, posting) && hits.Represents(t, barred)
    requires r.Against? ==> r.other < t.chainCount
    ensures count == |Open(posting, r, barred)|
  {
    hide Open;
    count := 0;
    for k := 0 to |posting.nfts|
      invariant count == OpenCount(posting.nfts, k, r, barred)
    {
      assert posting.nfts[k] in posting.nfts;
      if !hits.Contains(r, posting.nfts[k]) {
        count := count + 1;
      }
    }
    OpenCountIs(posting, r, barred);
  }

  /** The postings of a list that have something open, and how much. */
  ghost predicate Kept(ms: seq<Posting>, barred: set<Hit>, list: seq<nat>, r: Reach, kept: seq<(nat, nat)>) {
    && (forall k :: 0 <= k < |kept| ==> kept[k].0 < |ms| && kept[k].1 == |Open(ms[kept[k].0], r, barred)| && kept[k].1 != 0
                                        && kept[k].0 in list)
    && (forall a, b :: 0 <= a < b < |kept| ==> kept[a].0 < kept[b].0)
    && (forall i :: i in list && i < |ms| && Open(ms[i], r, barred) != {} ==> Keeps(kept, i))
  }

  ghost predicate Keeps(kept: seq<(nat, nat)>, i: nat) {
    exists k :: 0 <= k < |kept| && kept[k].0 == i
  }

  lemma KeepsPush(kept: seq<(nat, nat)>, x: (nat, nat), i: nat)
    ensures Keeps(kept + [x], i) <==> Keeps(kept, i) || x.0 == i
  {
    if Keeps(kept, i) {
      var k :| 0 <= k < |kept| && kept[k].0 == i;
      assert (kept + [x])[k].0 == i;
    }
    assert (kept + [x])[|kept|] == x;
  }

  lemma KeepNext(ms: seq<Posting>, barred: set<Hit>, list: seq<nat>, n: nat, r: Reach, kept: seq<(nat, nat)>, count: nat)
    requires n < |list| && Increasing(list) && list[n] < |ms| && Kept(ms, barred, list[..n], r, kept)
    requires count == |Open(ms[list[n]], r, barred)|
    ensures Kept(ms, barred, list[..n + 1], r, if count == 0 then kept else kept + [(list[n], count)])
  {
    hide Open, Keeps;
    assert list[..n + 1] == list[..n] + [list[n]];
    forall k | 0 <= k < |kept| ensures kept[k].0 < list[n] {
      assert kept[k].0 in list[..n];
    }
    forall i ensures Keeps(kept + [(list[n], count)], i) <==> Keeps(kept, i) || list[n] == i {
      KeepsPush(kept, (list[n], count), i);
    }
  }

  /** `filtered_posting_counts` */
  method FilteredPostingCounts(members: seq<Posting>, ghost c: nat, list: seq<nat>, r: Reach, hits: TokenHits, ghost t: Table,
                               ghost barred: set<Hit>)
    returns (kept: seq<(nat, nat)>)
    requires WellFormed(t) && Group(t, ImageUri, members) && hits.Represents(t, barred)
    requires r.Against? ==> r.other < t.chainCount
    requires OfChain(members, c, list)
    ensures Kept(members, barred, list, r, kept)
  {
    hide Open, Kept, PostingOf;
    kept := [];
    KeptNone(members, barred, list, r);
    for n: nat := 0 to |list|
      invariant Kept(members, barred, list[..n], r, kept)
    {
      assert list[n] in list && PostingOf(t, ImageUri, members[list[n]]);
      var count := CountReach(members[list[n]], r, hits, t, barred);
      KeepNext(members, barred, list, n, r, kept, count);
      if count != 0 {
        kept := kept + [(list[n], count)];
      }
    }
    assert list[..|list|] == list;
  }

  lemma KeptNone(ms: seq<Posting>, barred: set<Hit>, list: seq<nat>, r: Reach)
    ensures Kept(ms, barred, list[..0], r, [])
  {}

  /** Whether a chain has something open at all. */
  lemma KeptSome(ms: seq<Posting>, barred: set<Hit>, c: nat, list: seq<nat>, r: Reach, kept: seq<(nat, nat)>)
    requires OfChain(ms, c, list) && Kept(ms, barred, list, r, kept)
    ensures kept != [] <==> Nonempty(ms, barred, c, r)
    ensures |kept| >= 2 <==> Several(ms, barred, c, r)
  {
    hide Open, Keeps;
    if kept != [] {
      assert kept[0].0 in list && Open(ms[kept[0].0], r, barred) != {};
    }
    if Nonempty(ms, barred, c, r) {
      var i :| 0 <= i < |ms| && ms[i].chain == c && Open(ms[i], r, barred) != {};
      assert i in list && Keeps(kept, i);
      KeepsSome(kept, i);
    }
    KeptSeveral(ms, barred, c, list, r, kept);
  }

  lemma KeepsSome(kept: seq<(nat, nat)>, i: nat)
    requires Keeps(kept, i)
    ensures kept != []
  {}

  lemma KeepsTwo(kept: seq<(nat, nat)>, i: nat, j: nat)
    requires Keeps(kept, i) && Keeps(kept, j) && i != j
    ensures |kept| >= 2
  {}

  lemma KeptSeveral(ms: seq<Posting>, barred: set<Hit>, c: nat, list: seq<nat>, r: Reach, kept: seq<(nat, nat)>)
    requires OfChain(ms, c, list) && Kept(ms, barred, list, r, kept)
    ensures |kept| >= 2 <==> Several(ms, barred, c, r)
  {
    hide Open, Keeps;
    if |kept| >= 2 {
      var i, j := kept[0].0, kept[1].0;
      assert i in list && j in list && Open(ms[i], r, barred) != {} && Open(ms[j], r, barred) != {};
    }
    if Several(ms, barred, c, r) {
      var i, j :| 0 <= i < j < |ms| && ms[i].chain == c && ms[j].chain == c
                  && Open(ms[i], r, barred) != {} && Open(ms[j], r, barred) != {};
      assert i in list && j in list;
      KeepsTwo(kept, i, j);
    }
  }

  ghost function KeptPairs(kept: seq<(nat, nat)>, r: Reach): set<(nat, Reach)> {
    set x | x in kept :: (x.0, r)
  }

  lemma KeptScope(ms: seq<Posting>, barred: set<Hit>, c: nat, list: seq<nat>, r: Reach, kept: seq<(nat, nat)>)
    requires OfChain(ms, c, list) && Kept(ms, barred, list, r, kept)
    ensures KeptPairs(kept, r) == Scope(ms, barred, c, r)
  {}

  /** The kept postings of a scope go to the output, one by one. */
  method AddKept(output: LocalUriAccumulator, members: seq<Posting>, kept: seq<(nat, nat)>, c: nat, r: Reach, take: bool,
                 ghost list: seq<nat>, ghost t: Table, ghost barred: set<Hit>, ghost base: set<Hit>,
                 ghost done: set<(nat, Reach)>, ghost had: set<(nat, Reach)>)
    returns (ghost pairs: set<(nat, Reach)>)
    requires Progress(t, members, barred, base, done, had, output.scopes) && (c, r) !in done
    requires OfChain(members, c, list) && Kept(members, barred, list, r, kept)
    requires Nonempty(members, barred, c, r) ==> (take <==> ScopeLinked(members, barred, c, r))
    modifies output
    ensures Progress(t, members, barred, base, done + {(c, r)}, pairs, output.scopes)
  {
    hide Tallies, Credited, Group, Linked, Nonempty, ScopeLinked, Scope, Open, Plus, OfChain, Elsewhere;
    KeptScope(members, barred, c, list, r, kept);
    ScopeDone(t, ImageUri, members, barred, done, had, c, r);
    pairs := had;
    if take && kept != [] {
      assert had + KeptPairs(kept[..0], r) == had;
      for k := 0 to |kept|
        invariant InGroup(members, had + KeptPairs(kept[..k], r))
        invariant Tallies(t, base + Credited(members, barred, had + KeptPairs(kept[..k], r)), output.scopes)
      {
        var i := kept[k].0;
        KeptNext(kept, k, r);
        assert (i, r) in KeptPairs(kept, r);
        CreditOne(t, ImageUri, members, barred, base, had + KeptPairs(kept[..k], r), i, r, output.scopes);
        assert had + KeptPairs(kept[..k + 1], r) == had + KeptPairs(kept[..k], r) + {(i, r)};
        InList(members, c, list, i);
        output.Add(members[i], kept[k].1, r);
      }
      assert kept[..|kept|] == kept;
      pairs := had + KeptPairs(kept, r);
      KeptSome(members, barred, c, list, r, kept);
    } else {
      KeptSome(members, barred, c, list, r, kept);
      Pass(t, members, barred, base, done, had, output.scopes, c, r);
    }
  }

  lemma InList(ms: seq<Posting>, c: nat, list: seq<nat>, i: nat)
    requires OfChain(ms, c, list) && i in list
    ensures i < |ms| && ms[i].chain == c
  {}

  lemma KeptNext(kept: seq<(nat, nat)>, k: nat, r: Reach)
    requires k < |kept| && forall a, b :: 0 <= a < b < |kept| ==> kept[a].0 < kept[b].0
    ensures KeptPairs(kept[..k + 1], r) == KeptPairs(kept[..k], r) + {(kept[k].0, r)}
    ensures (kept[k].0, r) !in KeptPairs(kept[..k], r)
  {}

  /** Whether any posting of a list has something open. */
  method AnyOpen(members: seq<Posting>, c: nat, list: seq<nat>, r: Reach, hits: TokenHits, ghost t: Table, ghost barred: set<Hit>)
    returns (found: bool)
    requires WellFormed(t) && Group(t, ImageUri, members) && hits.Represents(t, barred)
    requires r.Against? ==> r.other < t.chainCount
    requires OfChain(members, c, list)
    ensures found <==> Nonempty(members, barred, c, r)
  {
    var kept := FilteredPostingCounts(members, c, list, r, hits, t, barred);
    KeptSome(members, barred, c, list, r, kept);
    found := kept != [];
  }

  /** The scopes of one chain. */
  method AddChainScopes(members: seq<Posting>, byChain: map<nat, seq<nat>>, chain: nat, chains: seq<nat>, hits: TokenHits,
                        output: LocalUriAccumulator, ghost t: Table, ghost barred: set<Hit>, ghost base: set<Hit>,
                        ghost was: set<(nat, Reach)>, ghost had: set<(nat, Reach)>)
    returns (ghost done: set<(nat, Reach)>, ghost pairs: set<(nat, Reach)>)
    requires Progress(t, members, barred, base, was, had, output.scopes) && hits.Represents(t, barred)
    requires output as object !in hits.Buffers()
    requires ByChain(members, byChain) && ChainsOf(members, chains) && chain in chains
    requires forall x :: x in was ==> x.0 != chain
    modifies output
    ensures Progress(t, members, barred, base, done, pairs, output.scopes)
    ensures forall x :: x in was ==> x in done
    ensures forall x :: x in done ==> x in was || x.0 == chain
    ensures (chain, Within) in done && (chain, Across) in done && forall o :: o in chains ==> (chain, Against(o)) in done
  {
    hide Progress, Nonempty, ScopeLinked, Group, WellFormed, Present, OfChain, Distinct;
    GroupOf(t, members, barred, base, was, had, output.scopes);
    ChainsFit(t, members, chains);
    var list := byChain[chain];
    pairs := AddWithin(members, list, chain, hits, output, t, barred, base, was, had);
    done := was + {(chain, Within)};
    pairs := AddAcross(members, byChain, list, chain, chains, hits, output, t, barred, base, done, pairs);
    done := done + {(chain, Across)};
    for k: nat := 0 to |chains|
      invariant hits.Represents(t, barred)
      invariant Progress(t, members, barred, base, done, pairs, output.scopes)
      invariant (forall x :: x in was ==> x in done) && (forall x :: x in done ==> x in was || x.0 == chain)
      invariant (chain, Within) in done && (chain, Across) in done && AgainstTo(chain, chains, k, done)
    {
      assert chains[k] in chains;
      NextAgainst(chain, chains, k, done);
      pairs := AddAgainst(members, byChain, chain, chains[k], list, hits, output, t, barred, base, done, pairs);
      done := done + {(chain, Against(chains[k]))};
    }
  }

  ghost predicate AgainstTo(chain: nat, chains: seq<nat>, k: nat, done: set<(nat, Reach)>) {
    forall i :: 0 <= i < |chains| ==> ((chain, Against(chains[i])) in done <==> i < k)
  }

  lemma NextAgainst(chain: nat, chains: seq<nat>, k: nat, done: set<(nat, Reach)>)
    requires k < |chains| && Distinct(chains) && AgainstTo(chain, chains, k, done)
    ensures (chain, Against(chains[k])) !in done
    ensures AgainstTo(chain, chains, k + 1, done + {(chain, Against(chains[k]))})
  {}

  method AddWithin(members: seq<Posting>, list: seq<nat>, chain: nat, hits: TokenHits, output: LocalUriAccumulator,
                   ghost t: Table, ghost barred: set<Hit>, ghost base: set<Hit>, ghost done: set<(nat, Reach)>,
                   ghost had: set<(nat, Reach)>)
    returns (ghost pairs: set<(nat, Reach)>)
    requires Progress(t, members, barred, base, done, had, output.scopes) && hits.Represents(t, barred)
    requires output as object !in hits.Buffers()
    requires OfChain(members, chain, list) && (chain, Within) !in done
    modifies output
    ensures Progress(t, members, barred, base, done + {(chain, Within)}, pairs, output.scopes)
  {
    hide Progress, Nonempty, Kept, Group, WellFormed, OfChain, Several;
    GroupOf(t, members, barred, base, done, had, output.scopes);
    var intra := FilteredPostingCounts(members, chain, list, Within, hits, t, barred);
    KeptSome(members, barred, chain, list, Within, intra);
    pairs := AddKept(output, members, intra, chain, Within, |intra| >= 2, list, t, barred, base, done, had);
  }

  method AddAcross(members: seq<Posting>, byChain: map<nat, seq<nat>>, list: seq<nat>, chain: nat, chains: seq<nat>,
                   hits: TokenHits, output: LocalUriAccumulator, ghost t: Table, ghost barred: set<Hit>,
                   ghost base: set<Hit>, ghost done: set<(nat, Reach)>, ghost had: set<(nat, Reach)>)
    returns (ghost pairs: set<(nat, Reach)>)
    requires Progress(t, members, barred, base, done, had, output.scopes) && hits.Represents(t, barred)
    requires output as object !in hits.Buffers()
    requires ByChain(members, byChain) && ChainsOf(members, chains)
    requires OfChain(members, chain, list) && (chain, Across) !in done
    modifies output
    ensures Progress(t, members, barred, base, done + {(chain, Across)}, pairs, output.scopes)
  {
    hide Progress, Nonempty, Kept, Group, WellFormed, OfChain, ScopeLinked, Present;
    GroupOf(t, members, barred, base, done, had, output.scopes);
    var cross := FilteredPostingCounts(members, chain, list, Across, hits, t, barred);
    var hasOther := OtherOpen(members, byChain, chain, chains, hits, t, barred);
    KeptSome(members, barred, chain, list, Across, cross);
    pairs := AddKept(output, members, cross, chain, Across, cross != [] && hasOther, list, t, barred, base, done, had);
  }

  /** Whether another chain has something open across chains. */
  method OtherOpen(members: seq<Posting>, byChain: map<nat, seq<nat>>, chain: nat, chains: seq<nat>, hits: TokenHits,
                   ghost t: Table, ghost barred: set<Hit>)
    returns (found: bool)
    requires WellFormed(t) && Group(t, ImageUri, members) && hits.Represents(t, barred)
    requires ByChain(members, byChain) && ChainsOf(members, chains)
    ensures found <==> ScopeLinked(members, barred, chain, Across)
  {
    hide Nonempty, Group, WellFormed, OfChain;
    found := false;
    for k := 0 to |chains|
      invariant found <==> exists i :: 0 <= i < k && chains[i] != chain && Nonempty(members, barred, chains[i], Across)
    {
      assert chains[k] in chains;
      if chains[k] != chain {
        var open := AnyOpen(members, chains[k], byChain[chains[k]], Across, hits, t, barred);
        found := found || open;
      }
    }
    if OpenAbroad(members, barred, chain) {
      var o: nat :| o != chain && Nonempty(members, barred, o, Across);
      NonemptyPresent(members, barred, chains, o, Across);
    }
  }

  /** One cell of the chain matrix. */
  method AddAgainst(members: seq<Posting>, byChain: map<nat, seq<nat>>, chain: nat, other: nat, list: seq<nat>, hits: TokenHits,
                    output: LocalUriAccumulator, ghost t: Table, ghost barred: set<Hit>, ghost base: set<Hit>,
                    ghost done: set<(nat, Reach)>, ghost had: set<(nat, Reach)>)
    returns (ghost pairs: set<(nat, Reach)>)
    requires Progress(t, members, barred, base, done, had, output.scopes) && hits.Represents(t, barred)
    requires output as object !in hits.Buffers()
    requires WellFormed(t) && Group(t, ImageUri, members) && ByChain(members, byChain)
    requires chain in byChain && list == byChain[chain] && other in byChain && other < t.chainCount && chain < t.chainCount
    requires (chain, Against(other)) !in done
    modifies output
    ensures Progress(t, members, barred, base, done + {(chain, Against(other))}, pairs, output.scopes)
  {
    hide Progress, Nonempty, Group, WellFormed, Kept, OfChain;
    if other == chain {
      pairs := had;
      Pass(t, members, barred, base, done, had, output.scopes, chain, Against(other));
      return;
    }
    var kept := FilteredPostingCounts(members, chain, list, Against(other), hits, t, barred);
    var otherHas := AnyOpen(members, other, byChain[other], Against(chain), hits, t, barred);
    KeptSome(members, barred, chain, list, Against(other), kept);
    pairs := AddKept(output, members, kept, chain, Against(other), kept != [] && otherHas, list, t, barred, base, done, had);
  }

  /** `accumulate_image_scope_hits_wide` */
  method AccumulateImageWide(members: seq<Posting>, hits: TokenHits, output: LocalUriAccumulator, ghost t: Table,
                             ghost barred: set<Hit>, ghost base: set<Hit>)
    returns (ghost pairs: set<(nat, Reach)>)
    requires Ready(t, ImageUri, members, base) && Tallies(t, base, output.scopes) && hits.Represents(t, barred)
    requires output as object !in hits.Buffers()
    modifies output
    ensures LinkedPairs(members, barred, pairs) && InGroup(members, pairs)
    ensures Tallies(t, base + Credited(members, barred, pairs), output.scopes)
  {
    hide Progress, Group, Present, OfChain, Tallies, Elsewhere, Linked, Credited, PostingOf, AllScopes;
    var byChain := PostingsByChain(members);
    var chains := Collect(byChain.Keys);
    Begin(t, members, barred, base, output.scopes);
    ghost var done: set<(nat, Reach)> := {};
    pairs := {};
    for k := 0 to |chains|
      invariant hits.Represents(t, barred)
      invariant Progress(t, members, barred, base, done, pairs, output.scopes)
      invariant forall x :: x in done ==> x.0 in chains[..k]
      invariant forall i :: 0 <= i < k ==> (chains[i], Within) in done && (chains[i], Across) in done
      invariant forall i, o :: 0 <= i < k && o in chains ==> (chains[i], Against(o)) in done
    {
      assert chains[..k + 1] == chains[..k] + [chains[k]] && chains[k] in chains && chains[k] !in chains[..k];
      done, pairs := AddChainScopes(members, byChain, chains[k], chains, hits, output, t, barred, base, done, pairs);
    }
    EveryChain(members, chains, done);
    Finish(t, members, barred, base, done, pairs, output.scopes);
    Tallied(t, members, barred, base, done, pairs, output.scopes);
  }

  lemma Tallied(t: Table, ms: seq<Posting>, barred: set<Hit>, base: set<Hit>, done: set<(nat, Reach)>,
                pairs: set<(nat, Reach)>, scopes: Scopes)
    requires Progress(t, ms, barred, base, done, pairs, scopes)
    ensures InGroup(ms, pairs) && Tallies(t, base + Credited(ms, barred, pairs), scopes)
  {}

  lemma EveryChain(ms: seq<Posting>, chains: seq<nat>, done: set<(nat, Reach)>)
    requires ChainsOf(ms, chains)
    requires forall i :: 0 <= i < |chains| ==> (chains[i], Within) in done && (chains[i], Across) in done
    requires forall i, o :: 0 <= i < |chains| && o in chains ==> (chains[i], Against(o)) in done
    ensures AllScopes(ms, done)
  {
    forall i, j | 0 <= i < |ms| && 0 <= j < |ms|
      ensures (ms[i].chain, Within) in done && (ms[i].chain, Across) in done && (ms[i].chain, Against(ms[j].chain)) in done
    {
      assert Present(ms, ms[i].chain) && Present(ms, ms[j].chain);
      var p :| 0 <= p < |chains| && chains[p] == ms[i].chain;
    }
  }

  /** `accumulate_image_scope_hits`: the two ways to read a group tally the same hits. */
  method AccumulateImageScopeHits(members: seq<Posting>, hits: TokenHits, output: LocalUriAccumulator, ghost t: Table,
                                  ghost barred: set<Hit>, ghost base: set<Hit>)
    returns (ghost pairs: set<(nat, Reach)>)
    requires Ready(t, ImageUri, members, base) && Tallies(t, base, output.scopes) && hits.Represents(t, barred)
    requires output as object !in hits.Buffers()
    modifies output
    ensures LinkedPairs(members, barred, pairs) && InGroup(members, pairs)
    ensures Tallies(t, base + Credited(members, barred, pairs), output.scopes)
  {
    if |members| < 2 {
      LoneMember(members, barred);
      pairs := {};
      assert base + Credited(members, barred, {}) == base;
      return;
    }
    if hits.matrix.CompactSet? {
      pairs := AccumulateImageCompact(members, hits, output, t, barred, base);
    } else {
      pairs := AccumulateImageWide(members, hits, output, t, barred, base);
    }
  }
}
