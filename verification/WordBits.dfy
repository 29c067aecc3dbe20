/** Sets packed into 64-bit words: the NFT sets and chain masks of the URI stage. */
module WordBits {
  import opened Sorting

  const WORD_BITS: nat := 64

  type Word = bv64

  /** `1_u64 << k`; no bit at all for the one place past the word. */
  function Bit(k: nat): Word
    requires k <= WORD_BITS
  {
    (1 as Word) << (k as bv7)
  }

  /** `w & (1_u64 << k) != 0` */
  predicate Has(w: Word, k: nat)
    requires k < WORD_BITS
  {
    Meet(w, Bit(k))
  }

  predicate Meet(v: Word, w: Word) {
    v & w != 0
  }

  function Join(v: Word, w: Word): Word {
    v | w
  }

  // ----- single bits

  lemma Small(k: nat)
    requires k <= WORD_BITS
    ensures (k as bv7) as nat == k && (k < WORD_BITS ==> (k as bv7) < 64)
  {}

  lemma BitsMeet(j: nat, k: nat)
    requires j < WORD_BITS && k < WORD_BITS
    ensures Meet(Bit(k), Bit(j)) <==> j == k
  {}

  lemma Distribute(v: bv64, w: bv64, c: bv64)
    ensures (v | w) & c == (v & c) | (w & c)
    ensures c & (v | w) == (c & v) | (c & w)
  {}

  lemma BothZero(v: bv64, w: bv64)
    ensures v | w == 0 <==> v == 0 && w == 0
  {}

  lemma JoinMeets(v: Word, w: Word, c: Word)
    ensures Meet(Join(v, w), c) <==> Meet(v, c) || Meet(w, c)
    ensures Meet(c, Join(v, w)) <==> Meet(c, v) || Meet(c, w)
  {
    Distribute(v, w, c);
    BothZero(v & c, w & c);
    BothZero(c & v, c & w);
  }

  lemma JoinWords(v: Word, w: Word)
    ensures forall j: nat :: j < WORD_BITS ==> (Has(Join(v, w), j) <==> Has(v, j) || Has(w, j))
  {}

  /** Setting a bit adds one member. */
  lemma SetBit(w: Word, k: nat)
    requires k < WORD_BITS
    ensures forall j: nat :: j < WORD_BITS ==> (Has(Join(w, Bit(k)), j) <==> Has(w, j) || j == k)
  {
    hide Bit, Meet, Join;
    forall j: nat | j < WORD_BITS ensures Has(Join(w, Bit(k)), j) <==> Has(w, j) || j == k {
      JoinMeets(w, Bit(k), Bit(j));
      BitsMeet(j, k);
    }
  }

  lemma ZeroMeets(c: Word)
    ensures !Meet(0, c) && !Meet(c, 0)
  {}

  lemma ZeroWord()
    ensures forall j: nat :: j < WORD_BITS ==> !Has(0, j)
  {}

  // ----- from the lowest bit up

  /** The places below `k`. */
  function Below(k: nat): Word
    requires k <= WORD_BITS
  {
    Bit(k) - 1
  }

  lemma OneMorePlace(x: bv7)
    requires x < 64
    ensures ((1 as bv64) << (x + 1)) - 1 == (((1 as bv64) << x) - 1) | ((1 as bv64) << x)
  {}

  lemma SamePlace(x: bv7, y: bv7)
    requires x as nat == y as nat
    ensures x == y
  {}

  lemma PlaceAfter(x: bv7)
    requires x < 64
    ensures (x + 1) as nat == x as nat + 1
  {}

  lemma NextPlace(k: nat)
    requires k < WORD_BITS
    ensures (k + 1) as bv7 == (k as bv7) + 1 && (k as bv7) < 64
  {
    Small(k);
    Small(k + 1);
    PlaceAfter(k as bv7);
    SamePlace((k + 1) as bv7, (k as bv7) + 1);
  }

  lemma BelowNext(k: nat)
    requires k < WORD_BITS
    ensures Below(k + 1) == Join(Below(k), Bit(k))
  {
    NextPlace(k);
    OneMorePlace(k as bv7);
  }

  lemma Ends()
    ensures Below(0) == 0 && Below(WORD_BITS) == 0xFFFF_FFFF_FFFF_FFFF
  {}

  lemma AllPlaces(r: bv64)
    ensures Meet(r, 0xFFFF_FFFF_FFFF_FFFF) <==> r != 0
  {}

  lemma {:induction false} NoneBelow(r: Word, k: nat)
    requires k <= WORD_BITS
    ensures !Meet(r, Below(k)) <==> forall j: nat :: j < k ==> !Has(r, j)
  {
    hide Bit, Meet, Join, Below;
    if k == 0 {
      Ends();
      ZeroMeets(r);
    } else {
      NoneBelow(r, k - 1);
      BelowNext(k - 1);
      JoinMeets(Below(k - 1), Bit(k - 1), r);
      assert Has(r, k - 1) == Meet(r, Bit(k - 1));
    }
  }

  lemma EmptyWord(r: Word)
    requires forall j: nat :: j < WORD_BITS ==> !Has(r, j)
    ensures r == 0
  {
    hide Bit, Meet, Below, Has;
    NoneBelow(r, WORD_BITS);
    Ends();
    AllPlaces(r);
  }

  function DropLowest(r: Word): Word {
    r & (r - 1)
  }

  function Without(r: Word, b: Word): Word {
    r & !b
  }

  lemma OneBit(k: nat)
    requires k < WORD_BITS
    ensures Bit(k) & (Bit(k) - 1) == 0
  {}

  lemma DropsOne(r: bv64, b: bv64)
    requires Meet(r, b) && !Meet(r, b - 1) && b & (b - 1) == 0
    ensures DropLowest(r) == Without(r, b)
  {}

  lemma WithoutBit(r: bv64, b: bv64, c: bv64)
    ensures !Meet(b, c) ==> (Meet(Without(r, b), c) <==> Meet(r, c))
    ensures !Meet(Without(r, b), b)
  {}

  /** `remaining &= remaining - 1` takes out the lowest member and no other. */
  lemma LowestGone(r: Word, k: nat)
    requires k < WORD_BITS && Has(r, k) && forall j: nat :: j < k ==> !Has(r, j)
    ensures forall j: nat :: j < WORD_BITS ==> (Has(DropLowest(r), j) <==> Has(r, j) && j != k)
  {
    hide Bit, Meet, DropLowest, Without, Below;
    NoneBelow(r, k);
    LowestBit(r, k);
    forall j: nat | j < WORD_BITS ensures Has(DropLowest(r), j) <==> Has(r, j) && j != k {
      BitsMeet(j, k);
      WithoutBit(r, Bit(k), Bit(j));
    }
  }

  lemma LowestBit(r: Word, k: nat)
    requires k < WORD_BITS && Has(r, k) && !Meet(r, Below(k))
    ensures DropLowest(r) == Without(r, Bit(k))
  {
    hide Bit, Meet, DropLowest, Without;
    OneBit(k);
    DropsOne(r, Bit(k));
  }

  /** `trailing_zeros` of a word that is not zero. */
  method TrailingZeros(r: Word) returns (k: nat)
    requires r != 0
    ensures k < WORD_BITS && Has(r, k) && forall j: nat :: j < k ==> !Has(r, j)
  {
    hide Has;
    k := 0;
    while k < WORD_BITS && !Has(r, k)
      invariant k <= WORD_BITS && forall j: nat :: j < k ==> !Has(r, j)
    {
      k := k + 1;
    }
    if k == WORD_BITS {
      EmptyWord(r);
    }
  }

  /** The members of a mask, lowest first. */
  method Members(mask: Word) returns (chains: seq<nat>)
    ensures Increasing(chains) && forall k :: k in chains <==> 0 <= k < WORD_BITS && Has(mask, k)
  {
    hide Has, DropLowest;
    chains := [];
    var remaining := mask;
    ghost var next: nat := 0;
    while remaining != 0
      invariant next <= WORD_BITS && Increasing(chains) && (forall k :: k in chains ==> k < next)
      invariant forall k :: k in chains <==> 0 <= k < next && Has(mask, k)
      invariant forall k: nat :: k < WORD_BITS ==> (Has(remaining, k) <==> Has(mask, k) && k >= next)
      decreases WORD_BITS - next
    {
      var chain := TrailingZeros(remaining);
      LowestGone(remaining, chain);
      assert chain >= next && forall i :: 0 <= i < |chains| ==> chains[i] in chains;
      assert forall j :: next <= j < chain ==> !Has(mask, j);
      chains := chains + [chain];
      remaining := DropLowest(remaining);
      next := chain + 1;
    }
    ZeroWord();
  }

  // ----- a dense set of NFT ids

  class DenseNftSet {
    const words: array<Word>
    ghost const size: nat

    ghost predicate Valid() reads this {
      words.Length * WORD_BITS >= size
    }

    ghost predicate Holds(n: nat) reads words {
      n / WORD_BITS < words.Length && Has(words[n / WORD_BITS], n % WORD_BITS)
    }

    constructor (nftCount: nat)
      ensures Valid() && fresh(words) && size == nftCount
      ensures forall n: nat :: !Holds(n)
    {
      words := new Word[(nftCount + 63) / 64](_ => 0);
      size := nftCount;
      new;
      hide Has;
      ZeroWord();
    }

    method Insert(n: nat)
      requires Valid() && n < size
      modifies words
      ensures forall m: nat :: Holds(m) <==> old(Holds(m)) || m == n
    {
      hide Has, Bit, Join;
      SetBit(words[n / WORD_BITS], n % WORD_BITS);
      words[n / WORD_BITS] := Join(words[n / WORD_BITS], Bit(n % WORD_BITS));
      forall m: nat ensures Holds(m) <==> old(Holds(m)) || m == n {
        assert m == n <==> m / WORD_BITS == n / WORD_BITS && m % WORD_BITS == n % WORD_BITS;
      }
    }

    function Contains(n: nat): (r: bool)
      reads words
      ensures r == Holds(n)
    {
      n / WORD_BITS < words.Length && Has(words[n / WORD_BITS], n % WORD_BITS)
    }
  }
}
