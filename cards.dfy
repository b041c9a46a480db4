/**
 * Cards of the 32-card Sheepshead deck, their classification into trump and
 * fail cards, their point values, and the two rank orders used to compare
 * them (packages/engine/src/index.ts:1-4, 37-40, 72-93).
 */
module Cards {

  datatype Rank = Ace | Ten | King | Queen | Jack | Nine | Eight | Seven
  datatype Suit = Clubs | Spades | Hearts | Diamonds
  datatype Card = Card(r: Rank, s: Suit)

  /** The rank and suit lists in the order the deck is built from. */
  const Ranks: seq<Rank> := [Ace, Ten, King, Queen, Jack, Nine, Eight, Seven]
  const Suits: seq<Suit> := [Clubs, Spades, Hearts, Diamonds]

  /** Every Queen, every Jack and every Diamond is trump. */
  predicate IsTrump(c: Card)
    ensures !IsTrump(c) ==> IsFailSuit(c.s) && c.r != Queen && c.r != Jack
  {
    c.r == Queen || c.r == Jack || c.s == Diamonds
  }

  /** The three suits a partner may be called in. */
  predicate IsFailSuit(s: Suit) {
    s == Clubs || s == Spades || s == Hearts
  }

  /** A card of a fail suit that is not trump. */
  predicate IsFailSuitCard(c: Card)
    ensures IsFailSuitCard(c) ==> c.s != Diamonds && c.r != Queen && c.r != Jack
  {
    IsFailSuit(c.s) && !IsTrump(c)
  }

  /** A card is a fail card exactly when it is not trump: no Diamond escapes trump. */
  lemma FailCardIsNonTrump(c: Card)
    ensures IsFailSuitCard(c) <==> !IsTrump(c)
  {
    if c.s == Diamonds {
      assert IsTrump(c);
    }
  }

  /** Point value of a card, kept as the table the scoring code reads. */
  function CardValue(c: Card): (v: nat)
    ensures v <= 11
    ensures v == 0 <==> c.r in {Nine, Eight, Seven}
  {
    match c.r
    case Ace => 11
    case Ten => 10
    case King => 4
    case Queen => 3
    case Jack => 2
    case _ => 0
  }

  /** Trump from highest to lowest. */
  const TrumpOrder: seq<Card> := [
    Card(Queen, Clubs), Card(Queen, Spades), Card(Queen, Hearts), Card(Queen, Diamonds),
    Card(Jack, Clubs), Card(Jack, Spades), Card(Jack, Hearts), Card(Jack, Diamonds),
    Card(Ace, Diamonds), Card(Ten, Diamonds), Card(King, Diamonds),
    Card(Nine, Diamonds), Card(Eight, Diamonds), Card(Seven, Diamonds)
  ]

  /** Fail ranks from highest to lowest (Queens and Jacks are always trump). */
  const FailOrder: seq<Rank> := [Ace, Ten, King, Nine, Eight, Seven]

  /**
   * The position of the first occurrence of `x` in `s`, or -1 when there is
   * none: the behaviour of `findIndex` and `indexOf`.
   */
  function IndexOf<T(==)>(s: seq<T>, x: T): (i: int)
    ensures -1 <= i < |s|
    ensures i == -1 <==> x !in s
    ensures 0 <= i ==> s[i] == x && x !in s[..i]
  {
    if s == [] then -1
    else if s[0] == x then 0
    else
      var k := IndexOf(s[1..], x);
      assert s[1..][..if k < 0 then 0 else k] == s[1..if k < 0 then 1 else k + 1];
      if k < 0 then -1 else k + 1
  }

  /**
   * Position in TrumpOrder, -1 for a fail card: the `findIndex` of
   * index.ts:100-101, written out as a table.
   */
  function TrumpIndex(c: Card): (i: int)
    ensures -1 <= i < 14
  {
    match c
    case Card(Queen, s) => SuitIndex(s)
    case Card(Jack, s) => 4 + SuitIndex(s)
    case Card(r, Diamonds) =>
      (match r case Ace => 8 case Ten => 9 case King => 10 case Nine => 11 case Eight => 12 case _ => 13)
    case _ => -1
  }

  /** Clubs, Spades, Hearts, Diamonds in that order. */
  function SuitIndex(s: Suit): (i: nat)
    ensures i < 4 && Suits[i] == s
  {
    match s case Clubs => 0 case Spades => 1 case Hearts => 2 case Diamonds => 3
  }

  /** Position in FailOrder, -1 for Queen and Jack: the `indexOf` of index.ts:107. */
  function FailIndex(r: Rank): (i: int)
    ensures -1 <= i < 6
  {
    match r
    case Ace => 0 case Ten => 1 case King => 2 case Nine => 3 case Eight => 4 case Seven => 5
    case _ => -1
  }

  /** In a list without repetitions, the search finds the one position holding `x`. */
  lemma IndexOfDistinct<T>(s: seq<T>, x: T, i: nat)
    requires i < |s| && s[i] == x
    requires forall a, b :: 0 <= a < b < |s| ==> s[a] != s[b]
    ensures IndexOf(s, x) == i
  {
    var k := IndexOf(s, x);
    assert x in s;
    assert s[k] == s[i];
  }

  /** The trump table is the search of TrumpOrder. */
  lemma TrumpIndexIsSearch(c: Card)
    ensures TrumpIndex(c) == IndexOf(TrumpOrder, c)
  {
    TrumpOrderIsTheTrumps(c);
    if IsTrump(c) {
      IndexOfDistinct(TrumpOrder, c, TrumpIndex(c));
    }
  }

  /** The fail table is the search of FailOrder. */
  lemma FailIndexIsSearch(r: Rank)
    ensures FailIndex(r) == IndexOf(FailOrder, r)
  {
    if r == Queen || r == Jack {
      assert r !in FailOrder;
    } else {
      IndexOfDistinct(FailOrder, r, FailIndex(r));
    }
  }

  /** TrumpOrder lists exactly the trump cards, each once. */
  lemma TrumpOrderIsTheTrumps(c: Card)
    ensures IsTrump(c) <==> c in TrumpOrder
    ensures |TrumpOrder| == 14
    ensures forall i, j :: 0 <= i < j < |TrumpOrder| ==> TrumpOrder[i] != TrumpOrder[j]
  {
    var Card(r, s) := c;
    match r
    case Queen => assert TrumpOrder[if s == Clubs then 0 else if s == Spades then 1 else if s == Hearts then 2 else 3] == c;
    case Jack => assert TrumpOrder[if s == Clubs then 4 else if s == Spades then 5 else if s == Hearts then 6 else 7] == c;
    case _ =>
      if s == Diamonds {
        var k := match r case Ace => 8 case Ten => 9 case King => 10 case Nine => 11 case Eight => 12 case _ => 13;
        assert TrumpOrder[k] == c;
      }
  }

  /** Under TrumpIndex a trump card has its place in TrumpOrder and a fail card has none. */
  lemma TrumpIndexRange(c: Card)
    ensures IsTrump(c) ==> 0 <= TrumpIndex(c) < 14 && TrumpOrder[TrumpIndex(c)] == c
    ensures !IsTrump(c) ==> TrumpIndex(c) == -1
  {
  }

  /** Every fail card's rank has a place in FailOrder. */
  lemma FailIndexRange(c: Card)
    requires !IsTrump(c)
    ensures 0 <= FailIndex(c.r) < 6 && FailOrder[FailIndex(c.r)] == c.r
  {
  }
}
