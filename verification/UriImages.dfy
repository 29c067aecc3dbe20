/** Image URI duplicates, counted only where the token URIs left something over. */
module UriImages {
  import opened Sorting
  import opened WordBits
  import opened UriSpec
  import opened UriTally
  import opened UriTokens

  // ----- the token hits, packed

  datatype MatrixNftSet = CompactSet(masks: array<Word>) | WideSet(entries: set<(nat, nat)>)

  class TokenHits {
    const intra: DenseNftSet
    const cross: DenseNftSet
    const matrix: MatrixNftSet

    ghost predicate Sized(t: Table) {
      matrix.CompactSet? ==> matrix.masks.Length == |t.nfts| && t.chainCount <= WORD_BITS
    }

    /** The buffers that hold the sets. */
    ghost function Buffers(): set<object> {
      {intra.words, cross.words} + if matrix.CompactSet? then {matrix.masks} else {}
    }

    predicate Contains(r: Reach, n: nat)
      requires r.Against? && matrix.CompactSet? ==> n < matrix.masks.Length && r.other < WORD_BITS
      reads Buffers()
    {
      match r
      case Within => intra.Contains(n)
      case Across => cross.Contains(n)
      case Against(other) =>
        match matrix
        case CompactSet(masks) => Has(masks[n], other)
        case WideSet(entries) => (n, other) in entries
    }

    /** For the NFTs and chains of the table the sets hold exactly these hits. */
    ghost predicate Represents(t: Table, hits: set<Hit>)
      reads Buffers()
    {
      && Sized(t)
      && forall n: nat, r: Reach :: n < |t.nfts| && (r.Against? ==> r.other < t.chainCount) ==>
           (Contains(r, n) <==> Hit(r, n) in hits)
    }

    constructor (intra: DenseNftSet, cross: DenseNftSet, matrix: MatrixNftSet)
      ensures this.intra == intra && this.cross == cross && this.matrix == matrix
    {
      this.intra, this.cross, this.matrix := intra, cross, matrix;
    }
  }

  method DenseSet(nfts: seq<nat>, count: nat) returns (dense: DenseNftSet)
    requires forall n :: n in nfts ==> n < count
    ensures fresh(dense) && fresh(dense.words) && forall n: nat :: dense.Holds(n) <==> n in nfts
  {
    dense := new DenseNftSet(count);
    for k := 0 to |nfts|
      invariant fresh(dense) && fresh(dense.words) && dense.Valid() && dense.size == count
      invariant forall n: nat :: dense.Holds(n) <==> n in nfts[..k]
    {
      assert nfts[k] in nfts && nfts[..k + 1] == nfts[..k] + [nfts[k]];
      dense.Insert(nfts[k]);
    }
    assert nfts[..|nfts|] == nfts;
  }

  method CompactMatrix(entries: seq<(nat, Word)>, count: nat) returns (masks: array<Word>)
    requires forall e :: 0 <= e < |entries| ==> entries[e].0 < count
    ensures fresh(masks) && masks.Length == count
    ensures forall n: nat, o: nat :: n < count && o < WORD_BITS ==> (Has(masks[n], o) <==> Masked(entries, n, o))
  {
    hide Has, Join;
    masks := new Word[count](_ => 0);
    ZeroWord();
    for k := 0 to |entries|
      invariant fresh(masks)
      invariant forall n: nat, o: nat :: n < count && o < WORD_BITS ==> (Has(masks[n], o) <==> Masked(entries[..k], n, o))
    {
      JoinWords(masks[entries[k].0], entries[k].1);
      MaskedNext(entries, k);
      masks[entries[k].0] := Join(masks[entries[k].0], entries[k].1);
    }
    assert entries[..|entries|] == entries;
  }

  lemma MaskedNext(entries: seq<(nat, Word)>, k: nat)
    requires k < |entries|
    ensures forall n: nat, o: nat :: o < WORD_BITS ==> (Masked(entries[..k + 1], n, o) <==>
              Masked(entries[..k], n, o) || (n == entries[k].0 && Has(entries[k].1, o)))
  {}

  /** The packed sets are made from what the workers brought together. */
  method PackTokenHits(t: Table, worker: TokenWorker, ghost hits: set<Hit>) returns (packed: TokenHits)
    requires WellFormed(t) && worker.Carries(t, hits) && (forall h :: h in hits ==> h.nft < |t.nfts|)
    requires worker.matrix.Compact? <==> t.chainCount <= WORD_BITS
    requires forall h :: h in hits && h.reach.Against? ==> h.reach.other < t.chainCount
    ensures fresh(packed.Buffers()) && packed.Represents(t, hits)
  {
    hide Tallies, Masked, Has;
    assert forall n :: n in worker.intra ==> Hit(Within, n) in hits;
    assert forall n :: n in worker.cross ==> Hit(Across, n) in hits;
    var intra := DenseSet(worker.intra, |t.nfts|);
    var cross := DenseSet(worker.cross, |t.nfts|);
    match worker.matrix {
      case Compact(entries) =>
        var masks := CompactMatrix(entries, |t.nfts|);
        packed := new TokenHits(intra, cross, CompactSet(masks));
      case Wide(entries) =>
        packed := new TokenHits(intra, cross, WideSet(set e | e in entries));
    }
  }
}
