/**
 * The 32-card deck, the seed hash, the xorshift32 generator and the seeded
 * Fisher-Yates shuffle (packages/engine/src/index.ts:72-73, 126-156).
 */
module Deck {
  import opened Cards

  /** The card at position `k` of the freshly built deck: suits outer, ranks inner. */
  function DeckCard(k: nat): Card
    requires k < 32
  {
    Card(Ranks[k % 8], Suits[k / 8])
  }

  /** The deck as `buildDeck` produces it. */
  function StandardDeck(): (d: seq<Card>)
    ensures |d| == 32
  {
    seq(32, k requires 0 <= k < 32 => DeckCard(k))
  }

  /** Every card of the game is in the deck exactly once. */
  lemma StandardDeckIsEveryCardOnce(c: Card)
    ensures multiset(StandardDeck())[c] == 1
  {
    var d := StandardDeck();
    var k := 8 * SuitIndex(c.s) + RankIndex(c.r);
    assert d[k] == c;
    assert forall a, b :: 0 <= a < b < 32 ==> d[a] != d[b] by {
      forall a, b | 0 <= a < b < 32 ensures d[a] != d[b] {
        if a % 8 != b % 8 {
          RanksDistinct(a % 8, b % 8);
        } else {
          assert a / 8 != b / 8;
          SuitsDistinct(a / 8, b / 8);
        }
      }
    }
    DistinctCountsOne(d, k);
  }

  /** `buildDeck` (index.ts:126-130): push every rank of every suit. */
  method BuildDeck() returns (deck: seq<Card>)
    ensures deck == StandardDeck()
  {
    ghost var full := StandardDeck();
    deck := [];
    for si := 0 to 4
      invariant deck == full[..8 * si]
    {
      for ri := 0 to 8
        invariant deck == full[..8 * si + ri]
      {
        DeckCardAt(si, ri);
        assert full[..8 * si + ri + 1] == full[..8 * si + ri] + [Card(Ranks[ri], Suits[si])];
        deck := deck + [Card(Ranks[ri], Suits[si])];
      }
    }
    assert full[..32] == full;
  }

  function RankIndex(r: Rank): (i: nat)
    ensures i < 8 && Ranks[i] == r
  {
    match r
    case Ace => 0 case Ten => 1 case King => 2 case Queen => 3
    case Jack => 4 case Nine => 5 case Eight => 6 case Seven => 7
  }

  lemma RanksDistinct(a: nat, b: nat)
    requires a < 8 && b < 8 && a != b
    ensures Ranks[a] != Ranks[b]
  {
  }

  lemma SuitsDistinct(a: nat, b: nat)
    requires a < 4 && b < 4 && a != b
    ensures Suits[a] != Suits[b]
  {
  }

  /** In a list without repetitions each element occurs once. */
  lemma DistinctCountsOne<T>(s: seq<T>, k: nat)
    requires k < |s|
    requires forall a, b :: 0 <= a < b < |s| ==> s[a] != s[b]
    ensures multiset(s)[s[k]] == 1
  {
    if |s| > 1 {
      var i := |s| - 1;
      assert s == s[..i] + [s[i]];
      if k < i {
        DistinctCountsOne(s[..i], k);
        assert s[i] != s[k];
      } else {
        assert s[k] !in s[..i];
      }
    } else {
      assert s == [s[0]];
    }
  }

  /** Points in a pile of cards. */
  function Points(cards: seq<Card>): nat {
    if cards == [] then 0 else Points(cards[..|cards| - 1]) + CardValue(cards[|cards| - 1])
  }

  /** The deck holds the 120 points of a Sheepshead hand. */
  lemma DeckHolds120Points()
    ensures Points(StandardDeck()) == 120
  {
    var c, s, h, d := SuitCards(Clubs), SuitCards(Spades), SuitCards(Hearts), SuitCards(Diamonds);
    DeckIsSuits();
    PointsAppend(c, s);
    PointsAppend(c + s, h);
    PointsAppend(c + s + h, d);
    SuitHolds30Points(Clubs);
    SuitHolds30Points(Spades);
    SuitHolds30Points(Hearts);
    SuitHolds30Points(Diamonds);
  }

  /** The eight cards of one suit in `RANKS` order. */
  function SuitCards(s: Suit): (cards: seq<Card>)
    ensures |cards| == 8
  {
    seq(8, n requires 0 <= n < 8 => Card(Ranks[n], s))
  }

  /** `buildDeck` lays the suits out one after the other. */
  lemma DeckIsSuits()
    ensures StandardDeck() == SuitCards(Clubs) + SuitCards(Spades) + SuitCards(Hearts) + SuitCards(Diamonds)
  {
    var d := SuitCards(Clubs) + SuitCards(Spades) + SuitCards(Hearts) + SuitCards(Diamonds);
    forall k | 0 <= k < 32
      ensures StandardDeck()[k] == d[k]
    {
      DeckCardAt(k / 8, k % 8);
    }
  }

  /** Points of the first `n` ranks of any one suit. */
  function RankPoints(n: nat): nat
    requires n <= 8
  {
    if n == 0 then 0 else RankPoints(n - 1) + CardValue(Card(Ranks[n - 1], Clubs))
  }

  /** A suit holds 30 points. */
  lemma SuitHolds30Points(s: Suit)
    ensures Points(SuitCards(s)) == 30
  {
    SuitPrefixPoints(s, 8);
    assert SuitCards(s)[..8] == SuitCards(s);
  }

  lemma {:induction false} SuitPrefixPoints(s: Suit, n: nat)
    requires n <= 8
    ensures Points(SuitCards(s)[..n]) == RankPoints(n)
  {
    if n > 0 {
      SuitPrefixPoints(s, n - 1);
      PointsOfLast(SuitCards(s), n);
      CardValueIgnoresSuit(Ranks[n - 1], s);
    }
  }

  /** Dropping the last card of a pile drops its value. */
  lemma PointsOfLast(d: seq<Card>, k: nat)
    requires 0 < k <= |d|
    ensures Points(d[..k]) == Points(d[..k - 1]) + CardValue(d[k - 1])
  {
    assert d[..k][..k - 1] == d[..k - 1];
  }

  /** Points add up over piles laid side by side. */
  lemma {:induction false} PointsAppend(a: seq<Card>, b: seq<Card>)
    ensures Points(a + b) == Points(a) + Points(b)
    decreases |b|
  {
    if b == [] {
      assert a + b == a;
    } else {
      var b' := b[..|b| - 1];
      PointsAppend(a, b');
      assert (a + b)[..|a + b| - 1] == a + b';
    }
  }

  lemma CardValueIgnoresSuit(r: Rank, s: Suit)
    ensures CardValue(Card(r, s)) == CardValue(Card(r, Clubs))
  {
  }

  lemma DeckCardAt(q: nat, n: nat)
    requires q < 4 && n < 8
    ensures DeckCard(8 * q + n) == Card(Ranks[n], Suits[q])
    ensures StandardDeck()[8 * q + n] == Card(Ranks[n], Suits[q])
  {
    var k := 8 * q + n;
    assert k % 8 == n && k / 8 == q;
  }

  /** A seed is the UTF-16 code units of the seed string (what `charCodeAt` reads). */
  type Seed = seq<bv16>

  const FnvOffsetBasis: bv32 := 2166136261
  const FnvPrime: bv32 := 16777619

  /** The low bits of the code units, xor-ed together. */
  function LowBits(seed: Seed): bv32 {
    if seed == [] then 0 else LowBits(seed[..|seed| - 1]) ^ (seed[|seed| - 1] as bv32 & 1)
  }

  /**
   * FNV-1a over the code units. The prime is odd, so the multiplications
   * never change the low bit: it is the offset basis's low bit (1) xor-ed
   * with the low bits of the code units.
   */
  function Fnv1a(seed: Seed): (r: bv32)
    ensures r & 1 == 1 ^ LowBits(seed)
  {
    if seed == [] then FnvOffsetBasis
    else FnvRound(Fnv1a(seed[..|seed| - 1]), seed[|seed| - 1])
  }

  /** One round: xor in the code unit, then multiply; bv32 wrap-around is `Math.imul` and `>>> 0`. */
  function FnvRound(h: bv32, c: bv16): (r: bv32)
    ensures r == 0 <==> h ^ (c as bv32) == 0
    ensures r & 1 == (h ^ (c as bv32)) & 1
  {
    (h ^ (c as bv32)) * FnvPrime
  }

  /** `seedToInt` (index.ts:140-147): one loop over the seed. */
  method SeedToInt(seed: Seed) returns (h: bv32)
    ensures h == Fnv1a(seed)
  {
    h := FnvOffsetBasis;
    for i := 0 to |seed|
      invariant h == Fnv1a(seed[..i])
    {
      assert seed[..i + 1][..i] == seed[..i];
      h := FnvRound(h, seed[i]);
    }
    assert seed[..|seed|] == seed;
  }

  /** One step of xorshift32 (index.ts:136); `>>` on bv32 is the logical `>>>`. */
  function XorshiftStep(x: bv32): (r: bv32)
    ensures r == 0 <==> x == 0
  {
    var a := x ^ (x << 13);
    var b := a ^ (a >> 17);
    b ^ (b << 5)
  }

  /**
   * The swap index as index.ts:137,152 computes it, with the division and
   * the product taken exactly: floor(x / 0xFFFFFFFF * (i + 1)).
   */
  function SwapIndexAsWritten(x: bv32, i: nat): (j: nat)
    ensures j <= i + 1
    ensures j == i + 1 <==> x == 0xFFFF_FFFF
  {
    SwapIndexAsWrittenBounds(x as int, i);
    (x as int) * (i + 1) / 0xFFFF_FFFF
  }

  lemma SwapIndexAsWrittenBounds(x: int, i: nat)
    requires 0 <= x <= 0xFFFF_FFFF
    ensures x * (i + 1) / 0xFFFF_FFFF <= i + 1
    ensures x * (i + 1) / 0xFFFF_FFFF == i + 1 <==> x == 0xFFFF_FFFF
  {
    var n := x * (i + 1);
    if x < 0xFFFF_FFFF {
      assert n <= 0xFFFF_FFFE * (i + 1);
      assert n < 0xFFFF_FFFF * (i + 1);
    } else {
      assert n == 0xFFFF_FFFF * (i + 1);
    }
  }

  /**
   * The swap index the shuffle evidently means: the same formula, kept in
   * [0, i] by taking i at the one state where the formula gives i + 1.
   */
  function SwapIndex(x: bv32, i: nat): (j: nat)
    ensures j <= i
  {
    if x == 0xFFFF_FFFF then i else SwapIndexAsWritten(x, i)
  }

  /** The corrected index differs from the one written only at the top state, where the latter overshoots. */
  lemma SwapIndexFixesOnlyTopState(x: bv32, i: nat)
    ensures SwapIndex(x, i) == SwapIndexAsWritten(x, i) <==> x != 0xFFFF_FFFF
    ensures x == 0xFFFF_FFFF ==> SwapIndexAsWritten(x, i) == i + 1 && SwapIndex(x, i) == i
  {
  }

  /** The sequence with positions `i` and `j` exchanged (the swap of index.ts:153). */
  function Swap<T>(s: seq<T>, i: nat, j: nat): (r: seq<T>)
    requires i < |s| && j < |s|
    ensures |r| == |s|
    ensures r[i] == s[j] && r[j] == s[i]
    ensures forall k :: 0 <= k < |s| && k != i && k != j ==> r[k] == s[k]
  {
    s[i := s[j]][j := s[i]]
  }

  /** A swap moves elements and neither adds nor loses any. */
  lemma SwapPermutes<T>(s: seq<T>, i: nat, j: nat)
    requires i < |s| && j < |s|
    ensures multiset(Swap(s, i, j)) == multiset(s)
  {
  }

  /**
   * The Fisher-Yates swaps still to do at positions i, i-1, ..., 1 with the
   * generator in state `x`: each step draws the next state and swaps
   * position i with the corrected index `SwapIndex` it selects.
   */
  function ShuffleFrom<T>(s: seq<T>, x: bv32, i: nat): (r: seq<T>)
    requires i < |s|
    ensures |r| == |s|
    decreases i
  {
    if i == 0 then s
    else
      var x' := XorshiftStep(x);
      ShuffleFrom(Swap(s, i, SwapIndex(x', i)), x', i - 1)
  }

  /** With the corrected swap index, the remaining swaps permute the sequence. */
  lemma {:induction false} ShuffleFromPermutes<T>(s: seq<T>, x: bv32, i: nat)
    requires i < |s|
    ensures multiset(ShuffleFrom(s, x, i)) == multiset(s)
    decreases i
  {
    if i > 0 {
      var x' := XorshiftStep(x);
      var t := Swap(s, i, SwapIndex(x', i));
      ShuffleFromPermutes(t, x', i - 1);
      PermutedOneMore(s, x, i, x', t);
    }
  }

  /** The inductive step of `ShuffleFromPermutes`: one more swap in front keeps the multiset. */
  lemma PermutedOneMore<T>(s: seq<T>, x: bv32, i: nat, x': bv32, t: seq<T>)
    requires 0 < i < |s| && x' == XorshiftStep(x) && t == Swap(s, i, SwapIndex(x', i))
    requires multiset(ShuffleFrom(t, x', i - 1)) == multiset(t)
    ensures multiset(ShuffleFrom(s, x, i)) == multiset(s)
  {
    var j := SwapIndex(x', i);
    ShuffleStep(s, x, i, x', j);
    SwapPermutes(s, i, j);
  }

  /** The whole swap loop over `s`, with the corrected index, the generator started in state `x`. */
  function ShuffledBy<T>(s: seq<T>, x: bv32): (r: seq<T>)
    ensures |r| == |s|
  {
    if |s| == 0 then s else ShuffleFrom(s, x, |s| - 1)
  }

  /** The seeded shuffle as a function of the input and the seed: the same inputs give the same deck. */
  function Shuffled<T>(s: seq<T>, seed: Seed): (r: seq<T>)
    ensures |r| == |s|
  {
    ShuffledBy(s, Fnv1a(seed))
  }

  /**
   * With the corrected swap index, `shuffle` returns a permutation of its
   * input. The index as written does not (`OvershootSeedBreaksDeal`).
   */
  lemma ShuffledPermutes<T>(s: seq<T>, seed: Seed)
    ensures multiset(Shuffled(s, seed)) == multiset(s)
  {
    if |s| > 0 {
      ShuffleFromPermutes(s, Fnv1a(seed), |s| - 1);
    }
  }

  /** One swap of the loop in `shuffle`, with the corrected index, unfolded. */
  lemma ShuffleStep<T>(s: seq<T>, x: bv32, i: nat, x': bv32, j: nat)
    requires 0 < i < |s| && x' == XorshiftStep(x) && j == SwapIndex(x', i)
    ensures ShuffleFrom(s, x, i) == ShuffleFrom(Swap(s, i, j), x', i - 1)
  {
  }

  /**
   * One pass of the loop in `shuffle`: draw the next generator state and
   * swap position `i` with the corrected index it selects.
   */
  method ShuffleRound<T>(a: array<T>, x: bv32, i: nat, ghost target: seq<T>) returns (x': bv32)
    requires 0 < i < a.Length
    requires ShuffleFrom(a[..], x, i) == target
    modifies a
    ensures ShuffleFrom(a[..], x', i - 1) == target
  {
    ghost var before := a[..];
    x' := XorshiftStep(x);
    var j := SwapIndex(x', i);
    a[i], a[j] := a[j], a[i];
    assert a[..] == Swap(before, i, j);
    ShuffleStep(before, x, i, x', j);
  }

  /**
   * `shuffle` (index.ts:148-156): hash the seed, copy the input, then swap
   * in place from the last position down to position 1, with the corrected
   * index `SwapIndex`.
   */
  method Shuffle<T>(arr: seq<T>, seed: Seed) returns (r: seq<T>)
    ensures r == Shuffled(arr, seed)
    ensures |r| == |arr| && multiset(r) == multiset(arr)
  {
    var x := SeedToInt(seed);
    var a := new T[|arr|](k requires 0 <= k < |arr| => arr[k]);
    assert a[..] == arr;
    SwapDown(a, x);
    r := a[..];
    ShuffledPermutes(arr, seed);
  }

  /** The loop of `shuffle`, with the corrected index and the generator started in state `x0`. */
  method SwapDown<T>(a: array<T>, x0: bv32)
    modifies a
    ensures a[..] == ShuffledBy(old(a[..]), x0)
  {
    if a.Length == 0 {
      return;
    }
    ghost var target := ShuffledBy(a[..], x0);
    var x, i := x0, a.Length - 1;
    while i > 0
      invariant 0 <= i < a.Length
      invariant ShuffleFrom(a[..], x, i) == target
    {
      x := ShuffleRound(a, x, i, target);
      i := i - 1;
    }
  }

  /** The seed "seed-vaudr6" as UTF-16 code units. */
  const OvershootSeed: Seed := [0x73, 0x65, 0x65, 0x64, 0x2d, 0x76, 0x61, 0x75, 0x64, 0x72, 0x36]

  /**
   * With the seed "seed-vaudr6" the first draw of a 32-card shuffle is the
   * state 0xFFFFFFFF, so index.ts:152 picks j = 32 = a.length at i = 31.
   */
  lemma OvershootSeedBreaksDeal()
    ensures Fnv1a(OvershootSeed) == 0x5e6c_fce7
    ensures XorshiftStep(Fnv1a(OvershootSeed)) == 0xFFFF_FFFF
    ensures SwapIndexAsWritten(XorshiftStep(Fnv1a(OvershootSeed)), 31) == 32
    ensures SwapIndex(XorshiftStep(Fnv1a(OvershootSeed)), 31) == 31
  {
    OvershootSeedHash();
    assert XorshiftStep(0x5e6c_fce7) == 0xFFFF_FFFF;
  }

  /** FNV-1a of "seed-vaudr6", one code unit at a time. */
  lemma OvershootSeedHash()
    ensures Fnv1a(OvershootSeed) == 0x5e6c_fce7
  {
    var s := OvershootSeed;
    assert s[..0] == [];
    FnvExtend(s, 1, 0x811c_9dc5, 0xf60c_4582);
    FnvExtend(s, 2, 0xf60c_4582, 0x3c52_0aa5);
    FnvExtend(s, 3, 0x3c52_0aa5, 0xb526_ec40);
    FnvExtend(s, 4, 0xb526_ec40, 0x5045_bcac);
    FnvExtend(s, 5, 0x5045_bcac, 0xdec7_bf13);
    FnvExtend(s, 6, 0xdec7_bf13, 0x1972_4bff);
    FnvExtend(s, 7, 0x1972_4bff, 0xaced_09ba);
    FnvExtend(s, 8, 0xaced_09ba, 0x0826_70dd);
    FnvExtend(s, 9, 0x0826_70dd, 0x8d83_733b);
    FnvExtend(s, 10, 0x8d83_733b, 0x0eee_7beb);
    FnvExtend(s, 11, 0x0eee_7beb, 0x5e6c_fce7);
    assert s[..11] == s;
  }

  /** Hashing a seed one code unit longer is one more round on the shorter seed's hash. */
  lemma Fnv1aAppend(seed: Seed, c: bv16)
    ensures Fnv1a(seed + [c]) == FnvRound(Fnv1a(seed), c)
  {
    assert (seed + [c])[..|seed|] == seed;
  }

  /** Hashing one more code unit is one more round. */
  lemma FnvExtend(s: Seed, k: nat, h: bv32, h': bv32)
    requires 0 < k <= |s| && Fnv1a(s[..k - 1]) == h && FnvRound(h, s[k - 1]) == h'
    ensures Fnv1a(s[..k]) == h'
  {
    assert s[..k][..k - 1] == s[..k - 1];
  }
}
