/** Token URI duplicates: the per-worker accumulator, and its two ways to read a group. */
module UriTokens {
  import opened Sorting
  import opened WordBits
  import opened UriSpec
  import opened UriTally

  /** The matrix hits of a worker: chain masks while 64 bits suffice, pairs beyond. */
  datatype MatrixHits = Compact(masks: seq<(nat, Word)>) | Wide(pairs: seq<(nat, nat)>)

  ghost predicate Masked(masks: seq<(nat, Word)>, n: nat, other: nat) {
    exists e :: 0 <= e < |masks| && masks[e].0 == n && other < WORD_BITS && Has(masks[e].1, other)
  }

  ghost predicate InMatrix(matrix: MatrixHits, n: nat, other: nat) {
    match matrix
    case Compact(masks) => Masked(masks, n, other)
    case Wide(pairs) => (n, other) in pairs
  }

  ghost predicate ListsMatrix(matrix: MatrixHits, hits: set<Hit>) {
    forall n: nat, o: nat :: InMatrix(matrix, n, o) <==> Hit(Against(o), n) in hits
  }

  /** The masks are those of NFTs of the table. */
  ghost predicate MasksFit(t: Table, matrix: MatrixHits) {
    matrix.Compact? ==> forall e :: 0 <= e < |matrix.masks| ==> matrix.masks[e].0 < |t.nfts|
  }

  ghost predicate Lists(nfts: seq<nat>, r: Reach, hits: set<Hit>) {
    forall n: nat :: n in nfts <==> Hit(r, n) in hits
  }

  ghost predicate Ready(t: Table, d: Dimension, ms: seq<Posting>, base: set<Hit>) {
    WellFormed(t) && Group(t, d, ms) && Elsewhere(ms, base)
  }

  // ----- what one more pair changes

  /** Without bars, a posting brings all its NFTs. */
  lemma AllOpen(t: Table, d: Dimension, p: Posting, r: Reach)
    requires WellFormed(t) && PostingOf(t, d, p)
    ensures forall n: nat :: n in Open(p, r, {}) <==> n in p.nfts
    ensures Open(p, r, {}) != {} && |Open(p, r, {})| == |p.nfts|
  {
    assert p.nfts[0] in Open(p, r, {});
    DistinctSize(p.nfts);
    assert Open(p, r, {}) == Elements(p.nfts);
  }

  lemma {:induction false} DistinctSize(s: seq<nat>)
    requires Distinct(s)
    ensures |Elements(s)| == |s|
  {
    if s != [] {
      var init, last := s[..|s| - 1], s[|s| - 1];
      DistinctSize(init);
      assert Elements(s) == Elements(init) + {last} && last !in Elements(init);
    }
  }

  lemma CreditedOne(ms: seq<Posting>, barred: set<Hit>, pairs: set<(nat, Reach)>, i: nat, r: Reach)
    requires InGroup(ms, pairs) && i < |ms|
    ensures forall h :: h in Credited(ms, barred, pairs + {(i, r)}) <==>
              h in Credited(ms, barred, pairs) || (h.reach == r && h.nft in Open(ms[i], r, barred))
  {}

  ghost function Peers(i: nat, chain: nat, peers: seq<nat>): set<(nat, Reach)> {
    set o | o in peers && o != chain :: (i, Against(o))
  }

  /** `fold` of the peers into a mask. */
  method PeerMask(peers: seq<nat>, own: nat) returns (mask: Word)
    requires forall o :: o in peers ==> o < WORD_BITS
    ensures forall o: nat :: o < WORD_BITS ==> (Has(mask, o) <==> o in peers && o != own)
  {
    hide Has, Join, Bit;
    mask := 0;
    ZeroWord();
    for k := 0 to |peers|
      invariant forall o: nat :: o < WORD_BITS ==> (Has(mask, o) <==> o in peers[..k] && o != own)
    {
      assert peers[..k + 1] == peers[..k] + [peers[k]] && peers[k] in peers;
      if peers[k] != own {
        SetBit(mask, peers[k]);
        mask := Join(mask, Bit(peers[k]));
      }
    }
    assert peers[..|peers|] == peers;
  }

  function WithMask(nfts: seq<nat>, mask: Word): seq<(nat, Word)> {
    seq(|nfts|, k requires 0 <= k < |nfts| => (nfts[k], mask))
  }

  function WithChain(nfts: seq<nat>, chain: nat): seq<(nat, nat)> {
    seq(|nfts|, k requires 0 <= k < |nfts| => (nfts[k], chain))
  }

  lemma MaskedMore(masks: seq<(nat, Word)>, nfts: seq<nat>, mask: Word)
    ensures forall n: nat, o: nat :: Masked(masks + WithMask(nfts, mask), n, o) <==>
              Masked(masks, n, o) || (n in nfts && o < WORD_BITS && Has(mask, o))
  {
    hide Has;
    var more := masks + WithMask(nfts, mask);
    forall n: nat, o: nat
      ensures Masked(more, n, o) <==> Masked(masks, n, o) || (n in nfts && o < WORD_BITS && Has(mask, o))
    {
      if Masked(masks, n, o) {
        var e :| 0 <= e < |masks| && masks[e].0 == n && Has(masks[e].1, o);
        assert more[e] == masks[e];
      }
      if n in nfts && o < WORD_BITS && Has(mask, o) {
        var k :| 0 <= k < |nfts| && nfts[k] == n;
        assert more[|masks| + k] == (n, mask);
      }
    }
  }

  class TokenWorker {
    const uri: LocalUriAccumulator
    var intra: seq<nat>
    var cross: seq<nat>
    var matrix: MatrixHits

    /** What the worker holds is exactly these hits. */
    ghost predicate Carries(t: Table, hits: set<Hit>)
      requires WellFormed(t)
      reads this, uri
    {
      && Tallies(t, hits, uri.scopes) && Lists(intra, Within, hits) && Lists(cross, Across, hits)
      && ListsMatrix(matrix, hits) && MasksFit(t, matrix)
    }

    constructor (chainCount: nat)
      ensures fresh(uri) && (matrix.Compact? <==> chainCount <= WORD_BITS)
      ensures forall t :: WellFormed(t) ==> Carries(t, {})
    {
      uri := new LocalUriAccumulator();
      intra, cross := [], [];
      matrix := if chainCount <= WORD_BITS then Compact([]) else Wide([]);
      new;
      forall t | WellFormed(t) ensures Tallies(t, {}, uri.scopes) {
        NoHits(t);
      }
    }

    method AddIntra(posting: Posting, ghost t: Table, ghost ms: seq<Posting>, ghost base: set<Hit>, ghost i: nat,
                    ghost pairs: set<(nat, Reach)>)
      requires Ready(t, TokenUri, ms, base) && i < |ms| && posting == ms[i]
      requires InGroup(ms, pairs) && (i, Within) !in pairs && Carries(t, base + Credited(ms, {}, pairs))
      modifies this`intra, uri
      ensures InGroup(ms, pairs + {(i, Within)}) && Carries(t, base + Credited(ms, {}, pairs + {(i, Within)}))
    {
      hide Tallies, Credited, Open, Plus, Elsewhere, InMatrix, PostingOf;
      assert PostingOf(t, TokenUri, ms[i]);
      AllOpen(t, TokenUri, ms[i], Within);
      CreditOne(t, TokenUri, ms, {}, base, pairs, i, Within, uri.scopes);
      CreditedOne(ms, {}, pairs, i, Within);
      intra := intra + posting.nfts;
      uri.Add(posting, |posting.nfts|, Within);
    }

    method AddCrossSummary(posting: Posting, ghost t: Table, ghost ms: seq<Posting>, ghost base: set<Hit>, ghost i: nat,
                           ghost pairs: set<(nat, Reach)>)
      requires Ready(t, TokenUri, ms, base) && i < |ms| && posting == ms[i]
      requires InGroup(ms, pairs) && (i, Across) !in pairs && Carries(t, base + Credited(ms, {}, pairs))
      modifies this`cross, uri
      ensures InGroup(ms, pairs + {(i, Across)}) && Carries(t, base + Credited(ms, {}, pairs + {(i, Across)}))
    {
      hide Tallies, Credited, Open, Plus, Elsewhere, InMatrix, PostingOf;
      assert PostingOf(t, TokenUri, ms[i]);
      AllOpen(t, TokenUri, ms[i], Across);
      CreditOne(t, TokenUri, ms, {}, base, pairs, i, Across, uri.scopes);
      CreditedOne(ms, {}, pairs, i, Across);
      cross := cross + posting.nfts;
      uri.Add(posting, |posting.nfts|, Across);
    }

    method AddMatrix(posting: Posting, peers: seq<nat>, ghost t: Table, ghost ms: seq<Posting>, ghost base: set<Hit>,
                     ghost i: nat, ghost pairs: set<(nat, Reach)>)
      requires Ready(t, TokenUri, ms, base) && i < |ms| && posting == ms[i] && Distinct(peers)
      requires matrix.Compact? ==> forall o :: o in peers ==> o < WORD_BITS
      requires InGroup(ms, pairs) && pairs !! Peers(i, posting.chain, peers) && Carries(t, base + Credited(ms, {}, pairs))
      modifies this`matrix, uri
      ensures InGroup(ms, pairs + Peers(i, posting.chain, peers))
      ensures Carries(t, base + Credited(ms, {}, pairs + Peers(i, posting.chain, peers)))
      ensures matrix.Compact? == old(matrix.Compact?)
    {
      hide Tallies, Credited, Open, Plus, Elsewhere, PostingOf, Peers, Masked, Distinct, WithMask, Has;
      AddPeers(posting, peers, t, ms, base, i, pairs);
      match matrix {
        case Compact(masks) =>
          var mask := PeerMask(peers, posting.chain);
          matrix := Compact(masks + WithMask(posting.nfts, mask));
          FitMore(t, masks, posting, mask);
          CompactGrew(masks, posting.nfts, mask, posting.chain, peers);
        case Wide(entries) =>
          entries := WideEntries(entries, posting, peers);
          matrix := Wide(entries);
      }
      PeersCredited(t, ms, i, pairs, peers);
      ListsGrew(t, base, ms, i, pairs, peers, old(matrix), matrix);
    }

    method Merge(other: TokenWorker, ghost t: Table, ghost mine: set<Hit>, ghost theirs: set<Hit>)
      requires WellFormed(t) && Carries(t, mine) && other.Carries(t, theirs) && mine !! theirs
      requires matrix.Compact? == other.matrix.Compact?
      modifies this, uri
      ensures Carries(t, mine + theirs) && matrix.Compact? == old(matrix.Compact?)
    {
      hide Tallies, Merges, Masked;
      ghost var was, from := uri.scopes, other.uri.scopes;
      intra, cross := intra + other.intra, cross + other.cross;
      match matrix {
        case Compact(masks) =>
          MaskedJoin(masks, other.matrix.masks);
          matrix := Compact(masks + other.matrix.masks);
        case Wide(entries) =>
          matrix := Wide(entries + other.matrix.pairs);
      }
      uri.Merge(other.uri);
      TallyMerge(t, mine, theirs, was, from, uri.scopes);
    }

    /** The aggregates of a posting, one for each peer chain. */
    method AddPeers(posting: Posting, peers: seq<nat>, ghost t: Table, ghost ms: seq<Posting>, ghost base: set<Hit>,
                    ghost i: nat, ghost pairs: set<(nat, Reach)>)
      requires Ready(t, TokenUri, ms, base) && i < |ms| && posting == ms[i] && Distinct(peers)
      requires InGroup(ms, pairs) && pairs !! Peers(i, posting.chain, peers)
      requires Tallies(t, base + Credited(ms, {}, pairs), uri.scopes)
      modifies uri
      ensures InGroup(ms, pairs + Peers(i, posting.chain, peers))
      ensures Tallies(t, base + Credited(ms, {}, pairs + Peers(i, posting.chain, peers)), uri.scopes)
    {
      hide Tallies, Credited, Open, Plus, Elsewhere, PostingOf;
      assert pairs + Peers(i, posting.chain, peers[..0]) == pairs;
      for k := 0 to |peers|
        invariant InGroup(ms, pairs + Peers(i, posting.chain, peers[..k]))
        invariant Tallies(t, base + Credited(ms, {}, pairs + Peers(i, posting.chain, peers[..k])), uri.scopes)
      {
        ghost var had := pairs + Peers(i, posting.chain, peers[..k]);
        assert peers[..k + 1] == peers[..k] + [peers[k]] && peers[k] !in peers[..k];
        if peers[k] != posting.chain {
          var r := Against(peers[k]);
          assert (i, r) in Peers(i, posting.chain, peers);
          AllOpen(t, TokenUri, ms[i], r);
          CreditOne(t, TokenUri, ms, {}, base, had, i, r, uri.scopes);
          uri.Add(posting, |posting.nfts|, r);
          assert had + {(i, r)} == pairs + Peers(i, posting.chain, peers[..k + 1]);
        } else {
          assert had == pairs + Peers(i, posting.chain, peers[..k + 1]);
        }
      }
      assert peers[..|peers|] == peers;
    }
  }

  lemma MaskedJoin(a: seq<(nat, Word)>, b: seq<(nat, Word)>)
    ensures forall n: nat, o: nat :: Masked(a + b, n, o) <==> Masked(a, n, o) || Masked(b, n, o)
  {
    hide Has;
    forall n: nat, o: nat ensures Masked(a + b, n, o) <==> Masked(a, n, o) || Masked(b, n, o) {
      if Masked(a, n, o) {
        var e :| 0 <= e < |a| && a[e].0 == n && o < WORD_BITS && Has(a[e].1, o);
        assert (a + b)[e] == a[e];
      }
      if Masked(b, n, o) {
        var e :| 0 <= e < |b| && b[e].0 == n && o < WORD_BITS && Has(b[e].1, o);
        assert (a + b)[|a| + e] == b[e];
      }
    }
  }

  method WideEntries(was: seq<(nat, nat)>, posting: Posting, peers: seq<nat>) returns (entries: seq<(nat, nat)>)
    ensures forall n: nat, o: nat :: (n, o) in entries <==>
              (n, o) in was || (n in posting.nfts && o in peers && o != posting.chain)
  {
    entries := was;
    for k := 0 to |peers|
      invariant forall n: nat, o: nat :: (n, o) in entries <==>
                  (n, o) in was || (n in posting.nfts && o in peers[..k] && o != posting.chain)
    {
      assert peers[..k + 1] == peers[..k] + [peers[k]];
      if peers[k] != posting.chain {
        ChainedMore(entries, posting.nfts, peers[k]);
        entries := entries + WithChain(posting.nfts, peers[k]);
      }
    }
    assert peers[..|peers|] == peers;
  }

  lemma ChainedMore(entries: seq<(nat, nat)>, nfts: seq<nat>, chain: nat)
    ensures forall n: nat, o: nat :: (n, o) in entries + WithChain(nfts, chain) <==>
              (n, o) in entries || (n in nfts && o == chain)
  {
    forall n: nat | n in nfts ensures (n, chain) in WithChain(nfts, chain) {
      var k :| 0 <= k < |nfts| && nfts[k] == n;
      assert WithChain(nfts, chain)[k] == (n, chain);
    }
  }

  lemma FitMore(t: Table, masks: seq<(nat, Word)>, p: Posting, mask: Word)
    requires WellFormed(t) && PostingOf(t, TokenUri, p) && MasksFit(t, Compact(masks))
    ensures MasksFit(t, Compact(masks + WithMask(p.nfts, mask)))
  {
    assert forall k :: 0 <= k < |p.nfts| ==> p.nfts[k] in p.nfts;
  }

  lemma CompactGrew(masks: seq<(nat, Word)>, nfts: seq<nat>, mask: Word, own: nat, peers: seq<nat>)
    requires forall o :: o in peers ==> o < WORD_BITS
    requires forall o: nat :: o < WORD_BITS ==> (Has(mask, o) <==> o in peers && o != own)
    ensures forall n: nat, o: nat :: Masked(masks + WithMask(nfts, mask), n, o) <==>
              Masked(masks, n, o) || (n in nfts && o in peers && o != own)
  {
    hide Masked, Has;
    MaskedMore(masks, nfts, mask);
  }

  /** The hits that the peers of a posting bring. */
  lemma PeersCredited(t: Table, ms: seq<Posting>, i: nat, pairs: set<(nat, Reach)>, peers: seq<nat>)
    requires WellFormed(t) && Group(t, TokenUri, ms) && InGroup(ms, pairs) && i < |ms|
    ensures InGroup(ms, pairs + Peers(i, ms[i].chain, peers))
    ensures forall h :: h in Credited(ms, {}, pairs + Peers(i, ms[i].chain, peers)) <==>
              || h in Credited(ms, {}, pairs)
              || (h.reach.Against? && h.reach.other in peers && h.reach.other != ms[i].chain && h.nft in ms[i].nfts)
  {
    var more := Peers(i, ms[i].chain, peers);
    hide PostingOf;
    assert PostingOf(t, TokenUri, ms[i]);
    forall h
      ensures h in Credited(ms, {}, pairs + more) <==>
              || h in Credited(ms, {}, pairs)
              || (h.reach.Against? && h.reach.other in peers && h.reach.other != ms[i].chain && h.nft in ms[i].nfts)
    {
      AllOpen(t, TokenUri, ms[i], h.reach);
      if h.reach.Against? && h.reach.other in peers && h.reach.other != ms[i].chain && h.nft in ms[i].nfts {
        assert (i, h.reach) in pairs + more && h == Hit(h.reach, h.nft);
      }
    }
  }

  lemma ListsGrew(t: Table, base: set<Hit>, ms: seq<Posting>, i: nat, pairs: set<(nat, Reach)>, peers: seq<nat>,
                  before: MatrixHits, after: MatrixHits)
    requires InGroup(ms, pairs) && i < |ms| && InGroup(ms, pairs + Peers(i, ms[i].chain, peers))
    requires forall h :: h in Credited(ms, {}, pairs + Peers(i, ms[i].chain, peers)) <==>
              || h in Credited(ms, {}, pairs)
              || (h.reach.Against? && h.reach.other in peers && h.reach.other != ms[i].chain && h.nft in ms[i].nfts)
    requires ListsMatrix(before, base + Credited(ms, {}, pairs))
    requires forall n: nat, o: nat :: InMatrix(after, n, o) <==>
               InMatrix(before, n, o) || (n in ms[i].nfts && o in peers && o != ms[i].chain)
    ensures ListsMatrix(after, base + Credited(ms, {}, pairs + Peers(i, ms[i].chain, peers)))
  {}
}
