/**
 * Comparing cards within a trick, the trick winner and the suit-following
 * filter (packages/engine/src/index.ts:5-6, 95-124, 206-214).
 */
module Tricks {
  import opened Cards
  import opened Seats

  datatype TrickPlay = TrickPlay(seat: Seat, card: Card)
  datatype Trick = Trick(leader: Seat, plays: seq<TrickPlay>)

  /** What a lead asks for: trump, or a natural suit. */
  datatype Led = LedTrump | LedSuit(suit: Suit)

  /** The requirement a led card sets for the rest of the trick. */
  function LedOf(card: Card): (led: Led)
    ensures led == LedTrump <==> IsTrump(card)
    ensures led.LedSuit? ==> led.suit == card.s && IsFailSuit(card.s)
  {
    if IsTrump(card) then LedTrump else LedSuit(card.s)
  }

  /**
   * Negative when `a` beats `b`, positive when `b` beats `a`. As in the
   * source this is not a total order: two off-suit fail cards give 1 in
   * both directions and two fail cards under a trump lead give 0.
   */
  function CmpForTrick(led: Led, a: Card, b: Card): (r: int)
    ensures IsTrump(a) && !IsTrump(b) ==> r == -1
    ensures r < 0 ==> IsTrump(a) || (led.LedSuit? && a.s == led.suit)
  {
    var ta, tb := IsTrump(a), IsTrump(b);
    if led == LedTrump || ta || tb then
      if ta && !tb then -1
      else if !ta && tb then 1
      else TrumpIndex(a) - TrumpIndex(b)
    else if a.s == led.suit && b.s != led.suit then -1
    else if a.s != led.suit && b.s == led.suit then 1
    else if a.s == led.suit && b.s == led.suit then FailIndex(a.r) - FailIndex(b.r)
    else 1
  }

  /** Trump beats any fail card, whatever was led. */
  lemma TrumpBeatsFail(led: Led, a: Card, b: Card)
    requires IsTrump(a) && !IsTrump(b)
    ensures CmpForTrick(led, a, b) < 0 && CmpForTrick(led, b, a) > 0
  {
  }

  /** Of two different trumps, the one earlier in TrumpOrder wins, in either argument order. */
  lemma TrumpsFollowTrumpOrder(led: Led, a: Card, b: Card)
    requires IsTrump(a) && IsTrump(b) && a != b
    ensures CmpForTrick(led, a, b) < 0 <==> CmpForTrick(led, b, a) > 0
    ensures CmpForTrick(led, a, b) != 0
  {
    TrumpIndexRange(a);
    TrumpIndexRange(b);
  }

  /** The comparison is not antisymmetric: two off-suit fail cards each "lose" to the other. */
  lemma OffSuitFailCardsAreIncomparable(s: Suit, a: Card, b: Card)
    requires !IsTrump(a) && !IsTrump(b) && a.s != s && b.s != s
    ensures CmpForTrick(LedSuit(s), a, b) == 1 && CmpForTrick(LedSuit(s), b, a) == 1
  {
  }

  /** For instance K♥ and A♠ under a Club lead. */
  lemma KingOfHeartsAndAceOfSpadesUnderClubs()
    ensures var led := LedSuit(Clubs);
            CmpForTrick(led, Card(King, Hearts), Card(Ace, Spades)) == 1 &&
            CmpForTrick(led, Card(Ace, Spades), Card(King, Hearts)) == 1
  {
    OffSuitFailCardsAreIncomparable(Clubs, Card(King, Hearts), Card(Ace, Spades));
  }

  /** Under a trump lead two fail cards compare equal (both indices are -1). */
  lemma FailCardsTieUnderTrumpLead(a: Card, b: Card)
    requires !IsTrump(a) && !IsTrump(b)
    ensures CmpForTrick(LedTrump, a, b) == 0
  {
    TrumpIndexRange(a);
    TrumpIndexRange(b);
  }

  /** Some play among the first `n` of `plays` is a trump. */
  predicate TrumpPlayed(plays: seq<TrickPlay>, n: nat)
    requires n <= |plays|
  {
    exists m :: 0 <= m < n && IsTrump(plays[m].card)
  }

  /**
   * Reference definition of the trick winner among the first `n` plays:
   * play `k` holds the highest trump if a trump was played, and otherwise
   * the highest card of the led suit; ties go to the earliest play.
   */
  predicate WinsAmong(plays: seq<TrickPlay>, n: nat, k: nat)
    requires 0 < n <= |plays| && k < n
  {
    var c := plays[k].card;
    if TrumpPlayed(plays, n) then
      IsTrump(c) &&
      (forall m :: 0 <= m < n && IsTrump(plays[m].card) ==>
         TrumpIndex(c) < TrumpIndex(plays[m].card) || (TrumpIndex(c) == TrumpIndex(plays[m].card) && k <= m))
    else
      c.s == plays[0].card.s &&
      (forall m :: 0 <= m < n && plays[m].card.s == plays[0].card.s ==>
         FailIndex(c.r) < FailIndex(plays[m].card.r) || (FailIndex(c.r) == FailIndex(plays[m].card.r) && k <= m))
  }

  /**
   * Linear scan keeping a running best, replaced only when a later card
   * compares strictly lower (index.ts:116-124).
   */
  method WinnerOfTrick(trick: Trick) returns (winner: Seat)
    requires |trick.plays| > 0
    ensures exists k :: 0 <= k < |trick.plays| && trick.plays[k].seat == winner &&
                        WinsAmong(trick.plays, |trick.plays|, k) &&
                        forall m :: 0 <= m < |trick.plays| ==>
                          CmpForTrick(LedOf(trick.plays[0].card), trick.plays[k].card, trick.plays[m].card) <= 0
  {
    var plays := trick.plays;
    var led := LedOf(plays[0].card);
    var best := 0;
    PowerOfLead(plays[0].card);
    for i := 1 to |plays|
      invariant 0 <= best < i
      invariant Power(led, plays[best].card) > 0
      invariant forall m :: 0 <= m < i ==> Power(led, plays[best].card) > Power(led, plays[m].card) ||
                                           (Power(led, plays[best].card) == Power(led, plays[m].card) && best <= m)
    {
      var p := plays[i];
      CmpIsPower(led, p.card, plays[best].card);
      if CmpForTrick(led, p.card, plays[best].card) < 0 {
        best := i;
      }
    }
    HighestPowerWins(plays, best);
    winner := plays[best].seat;
  }

  /**
   * A proof device: a number that orders the cards of a trick the way
   * CmpForTrick does. Trumps score 7..20, cards of the led suit 1..6 and
   * every other card 0.
   */
  function Power(led: Led, c: Card): int {
    if IsTrump(c) then 20 - TrumpIndex(c)
    else if led.LedSuit? && c.s == led.suit then 6 - FailIndex(c.r)
    else 0
  }

  lemma PowerRange(led: Led, c: Card)
    ensures IsTrump(c) ==> 7 <= Power(led, c) <= 20
    ensures !IsTrump(c) ==> 0 <= Power(led, c) <= 6
    ensures !IsTrump(c) && led.LedSuit? && c.s == led.suit ==> 1 <= Power(led, c)
  {
    TrumpIndexRange(c);
    if !IsTrump(c) { FailIndexRange(c); }
  }

  /** The led card always has positive power under its own lead. */
  lemma PowerOfLead(c: Card)
    ensures Power(LedOf(c), c) > 0
  {
    PowerRange(LedOf(c), c);
  }

  /** A strict win under CmpForTrick is exactly a higher Power. */
  lemma CmpIsPower(led: Led, a: Card, b: Card)
    requires led.LedSuit? ==> IsFailSuit(led.suit)
    ensures CmpForTrick(led, a, b) < 0 <==> Power(led, a) > Power(led, b)
    ensures Power(led, a) > 0 && Power(led, a) >= Power(led, b) ==> CmpForTrick(led, a, b) <= 0
  {
    TrumpIndexRange(a);
    TrumpIndexRange(b);
    PowerRange(led, a);
    PowerRange(led, b);
    if !IsTrump(a) && !IsTrump(b) && led.LedSuit? {
      if a.s == led.suit { FailIndexRange(a); }
      if b.s == led.suit { FailIndexRange(b); }
    }
  }

  /** The earliest play of highest Power is the winner of the reference definition. */
  lemma HighestPowerWins(plays: seq<TrickPlay>, k: nat)
    requires 0 <= k < |plays|
    requires Power(LedOf(plays[0].card), plays[k].card) > 0
    requires forall m :: 0 <= m < |plays| ==>
               Power(LedOf(plays[0].card), plays[k].card) > Power(LedOf(plays[0].card), plays[m].card) ||
               (Power(LedOf(plays[0].card), plays[k].card) == Power(LedOf(plays[0].card), plays[m].card) && k <= m)
    ensures WinsAmong(plays, |plays|, k)
    ensures forall m :: 0 <= m < |plays| ==>
              CmpForTrick(LedOf(plays[0].card), plays[k].card, plays[m].card) <= 0
  {
    var led, n, c := LedOf(plays[0].card), |plays|, plays[k].card;
    forall m | 0 <= m < n
      ensures CmpForTrick(led, c, plays[m].card) <= 0
    {
      CmpIsPower(led, c, plays[m].card);
    }
    PowerRange(led, c);
    if TrumpPlayed(plays, n) {
      var t :| 0 <= t < n && IsTrump(plays[t].card);
      PowerRange(led, plays[t].card);
      assert IsTrump(c);
      forall m | 0 <= m < n && IsTrump(plays[m].card)
        ensures TrumpIndex(c) < TrumpIndex(plays[m].card) || (TrumpIndex(c) == TrumpIndex(plays[m].card) && k <= m)
      {
      }
    } else {
      assert !IsTrump(plays[0].card) && !IsTrump(c);
      assert led == LedSuit(plays[0].card.s);
      assert c.s == plays[0].card.s;
      forall m | 0 <= m < n && plays[m].card.s == plays[0].card.s
        ensures FailIndex(c.r) < FailIndex(plays[m].card.r) || (FailIndex(c.r) == FailIndex(plays[m].card.r) && k <= m)
      {
        assert !IsTrump(plays[m].card);
      }
    }
  }

  /** The reference definition names at most one winning play. */
  lemma WinnerIsUnique(plays: seq<TrickPlay>, k: nat, k': nat)
    requires 0 < |plays| && k < |plays| && k' < |plays|
    requires WinsAmong(plays, |plays|, k) && WinsAmong(plays, |plays|, k')
    ensures k == k'
  {
  }

  /** Whether a card answers the lead: trump for trump, a fail card of the suit otherwise. */
  predicate Follows(led: Led, c: Card)
    ensures Follows(led, c) ==> (IsTrump(c) <==> led == LedTrump)
    ensures Follows(led, c) && led.LedSuit? ==> c.s == led.suit
  {
    match led
    case LedTrump => IsTrump(c)
    case LedSuit(s) => !IsTrump(c) && c.s == s
  }

  /** `sub` is `s` with some elements left out and the rest in their order. */
  predicate IsSubsequence<T(==)>(sub: seq<T>, s: seq<T>)
    decreases |s|
  {
    if sub == [] then true
    else if s == [] then false
    else (sub[0] == s[0] && IsSubsequence(sub[1..], s[1..])) || IsSubsequence(sub, s[1..])
  }

  /** The cards of `hand` that answer `led`, in hand order (`hand.filter`, index.ts:213). */
  function FollowSuit(hand: seq<Card>, led: Led): (r: seq<Card>)
    ensures IsSubsequence(r, hand)
    ensures forall c :: c in r ==> Follows(led, c)
    ensures forall c :: Follows(led, c) ==> multiset(r)[c] == multiset(hand)[c]
    ensures r == [] <==> forall c :: c in hand ==> !Follows(led, c)
  {
    if hand == [] then []
    else
      var rest := FollowSuit(hand[1..], led);
      assert hand == [hand[0]] + hand[1..];
      if Follows(led, hand[0]) then [hand[0]] + rest
      else rest
  }

  /** A sequence is a subsequence of itself (`hand.slice()`). */
  lemma {:induction false} SubsequenceOfItself<T>(s: seq<T>)
    ensures IsSubsequence(s, s)
    decreases |s|
  {
    if s != [] {
      SubsequenceOfItself(s[1..]);
    }
  }
}
