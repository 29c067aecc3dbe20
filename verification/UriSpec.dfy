/** What a URI duplicate is, stated on NFTs, and the same stated on one group of postings. */
module UriSpec {
  import opened Wrappers

  datatype Dimension = TokenUri | ImageUri

  datatype Nft = Nft(contract: nat, tokenUri: Option<nat>, imageUri: Option<nat>) {
    function Uri(d: Dimension): Option<nat> {
      if d == TokenUri then tokenUri else imageUri
    }
  }

  /** The store's tables: the chain of each contract, and the NFTs. */
  datatype Table = Table(chainCount: nat, chainOf: seq<nat>, nfts: seq<Nft>)

  ghost predicate WellFormed(t: Table) {
    && (forall c :: 0 <= c < |t.chainOf| ==> t.chainOf[c] < t.chainCount)
    && (forall n :: 0 <= n < |t.nfts| ==> t.nfts[n].contract < |t.chainOf|)
  }

  function Chain(t: Table, n: nat): nat
    requires WellFormed(t) && n < |t.nfts|
  {
    t.chainOf[t.nfts[n].contract]
  }

  /** How far a scope reaches: into the same chain, into any other, into one other. */
  datatype Reach = Within | Across | Against(other: nat)

  datatype Hit = Hit(reach: Reach, nft: nat)

  /** Where a duplicate of an item of this chain and contract is looked for. */
  predicate Reaches(r: Reach, chain: nat, contract: nat, mateChain: nat, mateContract: nat) {
    match r
    case Within => mateChain == chain && mateContract != contract
    case Across => mateChain != chain
    case Against(other) => mateChain == other && other != chain
  }

  /** The same reach, seen from the mate. */
  function Mirror(r: Reach, chain: nat): Reach {
    if r.Against? then Against(chain) else r
  }

  // ----- on NFTs

  ghost predicate Mates(t: Table, d: Dimension, barred: set<Hit>, h: Hit, m: nat)
    requires WellFormed(t) && h.nft < |t.nfts|
  {
    && m < |t.nfts| && t.nfts[m].Uri(d) == t.nfts[h.nft].Uri(d)
    && Reaches(h.reach, Chain(t, h.nft), t.nfts[h.nft].contract, Chain(t, m), t.nfts[m].contract)
    && Hit(Mirror(h.reach, Chain(t, h.nft)), m) !in barred
  }

  /** An NFT has a duplicate in a scope: neither it nor its mate is barred there. */
  ghost predicate Duplicate(t: Table, d: Dimension, barred: set<Hit>, h: Hit)
    requires WellFormed(t)
  {
    && h.nft < |t.nfts| && t.nfts[h.nft].Uri(d).Some? && h !in barred
    && exists m: nat :: Mates(t, d, barred, h, m)
  }

  ghost predicate TokenHits(t: Table, hits: set<Hit>)
    requires WellFormed(t)
  {
    forall h :: h in hits <==> Duplicate(t, TokenUri, {}, h)
  }

  /** Image duplicates are looked for among what the token URIs left over. */
  ghost predicate ImageHits(t: Table, token: set<Hit>, hits: set<Hit>)
    requires WellFormed(t)
  {
    forall h :: h in hits <==> Duplicate(t, ImageUri, token, h)
  }

  // ----- on postings

  datatype Posting = Posting(contract: nat, chain: nat, uri: nat, nfts: seq<nat>)

  ghost predicate PostingOf(t: Table, d: Dimension, p: Posting)
    requires WellFormed(t)
  {
    && p.contract < |t.chainOf| && p.chain == t.chainOf[p.contract]
    && p.nfts != [] && (forall a, b :: 0 <= a < b < |p.nfts| ==> p.nfts[a] != p.nfts[b])
    && (forall n :: n in p.nfts <==>
          0 <= n < |t.nfts| && t.nfts[n].contract == p.contract && t.nfts[n].Uri(d) == Some(p.uri))
  }

  predicate PostingLess(p: Posting, q: Posting) {
    p.uri < q.uri || (p.uri == q.uri && p.contract < q.contract)
  }

  ghost predicate Listed(ps: seq<Posting>, contract: nat, uri: nat) {
    exists i :: 0 <= i < |ps| && ps[i].contract == contract && ps[i].uri == uri
  }

  /** The postings of a dimension: one for each URI and contract, in that order. */
  ghost predicate PostingsOf(t: Table, d: Dimension, ps: seq<Posting>)
    requires WellFormed(t)
  {
    && (forall i :: 0 <= i < |ps| ==> PostingOf(t, d, ps[i]))
    && (forall i, j :: 0 <= i < j < |ps| ==> PostingLess(ps[i], ps[j]))
    && (forall n :: 0 <= n < |t.nfts| && t.nfts[n].Uri(d).Some? ==>
          Listed(ps, t.nfts[n].contract, t.nfts[n].Uri(d).value))
  }

  /** Postings of one URI, of different contracts. */
  ghost predicate Group(t: Table, d: Dimension, ms: seq<Posting>)
    requires WellFormed(t)
  {
    && (forall i :: 0 <= i < |ms| ==> PostingOf(t, d, ms[i]))
    && (forall i, j :: 0 <= i < j < |ms| ==> ms[i].uri == ms[j].uri && ms[i].contract != ms[j].contract)
  }

  /** The NFTs of a posting that are not barred. */
  function Open(p: Posting, r: Reach, barred: set<Hit>): set<nat> {
    set n | n in p.nfts && Hit(r, n) !in barred
  }

  predicate PairUp(ms: seq<Posting>, barred: set<Hit>, i: nat, j: nat, r: Reach)
    requires i < |ms| && j < |ms|
  {
    && Reaches(r, ms[i].chain, ms[i].contract, ms[j].chain, ms[j].contract)
    && Open(ms[j], Mirror(r, ms[i].chain), barred) != {}
  }

  /** A posting of a group has a mate with something open. */
  ghost predicate Linked(ms: seq<Posting>, barred: set<Hit>, i: nat, r: Reach) {
    i < |ms| && Open(ms[i], r, barred) != {} && exists j: nat :: j < |ms| && PairUp(ms, barred, i, j, r)
  }

  /** The hits that some (posting, reach) pairs bring. */
  ghost function Credited(ms: seq<Posting>, barred: set<Hit>, pairs: set<(nat, Reach)>): set<Hit>
    requires forall x :: x in pairs ==> x.0 < |ms|
  {
    set x, n | x in pairs && n in Open(ms[x.0], x.1, barred) :: Hit(x.1, n)
  }

  /** Within a group, hits are what linked postings bring. */
  lemma GroupDuplicates(t: Table, d: Dimension, ms: seq<Posting>, barred: set<Hit>, i: nat, h: Hit)
    requires WellFormed(t) && Group(t, d, ms) && i < |ms| && h.nft in ms[i].nfts
    requires forall n :: 0 <= n < |t.nfts| && t.nfts[n].Uri(d) == Some(ms[i].uri) ==>
               Listed(ms, t.nfts[n].contract, ms[i].uri)
    ensures Duplicate(t, d, barred, h) <==> Linked(ms, barred, i, h.reach) && h.nft in Open(ms[i], h.reach, barred)
  {
    assert PostingOf(t, d, ms[i]) && h == Hit(h.reach, h.nft);
    if Duplicate(t, d, barred, h) {
      var m: nat :| Mates(t, d, barred, h, m);
      var j :| 0 <= j < |ms| && ms[j].contract == t.nfts[m].contract && ms[j].uri == ms[i].uri;
      assert PostingOf(t, d, ms[j]) && m in ms[j].nfts;
      assert m in Open(ms[j], Mirror(h.reach, ms[i].chain), barred);
      assert PairUp(ms, barred, i, j, h.reach) && h.nft in Open(ms[i], h.reach, barred);
    }
    if Linked(ms, barred, i, h.reach) && h.nft in Open(ms[i], h.reach, barred) {
      var j: nat :| j < |ms| && PairUp(ms, barred, i, j, h.reach);
      assert PostingOf(t, d, ms[j]);
      var m :| m in Open(ms[j], Mirror(h.reach, ms[i].chain), barred);
      assert m in ms[j].nfts && Mates(t, d, barred, h, m);
    }
  }
}
