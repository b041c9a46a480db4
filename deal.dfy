/**
 * Which deck positions `newHand` hands to whom
 * (packages/engine/src/index.ts:160-189).
 */
module Dealing {
  import opened Cards
  import opened Seats
  import opened Rules
  import opened Deck

  /** First round: three cards each, with the two blind cards dealt after the second player. */
  function Round1(deck: seq<Card>, p: nat): (r: seq<Card>)
    requires |deck| == 32 && p < 5
    ensures |r| == 3
  {
    if p < 2 then deck[3 * p .. 3 * p + 3] else deck[3 * p + 2 .. 3 * p + 5]
  }

  /** Second round: two cards each. */
  function Round2(deck: seq<Card>, p: nat): (r: seq<Card>)
    requires |deck| == 32 && p < 5
    ensures |r| == 2
  {
    deck[17 + 2 * p .. 19 + 2 * p]
  }

  /** Third round: one card each. */
  function Round3(deck: seq<Card>, p: nat): (r: seq<Card>)
    requires |deck| == 32 && p < 5
    ensures |r| == 1
  {
    [deck[27 + p]]
  }

  /** The hand of the player at position `p` of the seating order. */
  function HandAt(deck: seq<Card>, p: nat): (h: seq<Card>)
    requires |deck| == 32 && p < 5
    ensures |h| == 6
  {
    Round1(deck, p) + Round2(deck, p) + Round3(deck, p)
  }

  /** The blind: deck positions 6 and 7. */
  function BlindOf(deck: seq<Card>): (b: seq<Card>)
    requires |deck| == 32
    ensures |b| == 2
  {
    deck[6..8]
  }

  /** The cards of the five hands in seating order. */
  function PositionCards(deck: seq<Card>): multiset<Card>
    requires |deck| == 32
  {
    multiset(HandAt(deck, 0)) + multiset(HandAt(deck, 1)) + multiset(HandAt(deck, 2)) +
    multiset(HandAt(deck, 3)) + multiset(HandAt(deck, 4))
  }

  lemma SplitSlice(d: seq<Card>, a: nat, b: nat, c: nat)
    requires a <= b <= c <= |d|
    ensures multiset(d[a..c]) == multiset(d[a..b]) + multiset(d[b..c])
  {
    assert d[a..c] == d[a..b] + d[b..c];
  }

  /** The deal hands out every card of the deck once: five hands of six and a blind of two. */
  lemma DealUsesEveryCardOnce(deck: seq<Card>)
    requires |deck| == 32
    ensures PositionCards(deck) + multiset(BlindOf(deck)) == multiset(deck)
  {
    assert deck[0..32] == deck;
    SplitSlice(deck, 0, 17, 32);
    SplitSlice(deck, 17, 27, 32);
    SplitSlice(deck, 0, 3, 17);
    SplitSlice(deck, 3, 6, 17);
    SplitSlice(deck, 6, 8, 17);
    SplitSlice(deck, 8, 11, 17);
    SplitSlice(deck, 11, 14, 17);
    SplitSlice(deck, 17, 19, 27);
    SplitSlice(deck, 19, 21, 27);
    SplitSlice(deck, 21, 23, 27);
    SplitSlice(deck, 23, 25, 27);
    SplitSlice(deck, 27, 28, 32);
    SplitSlice(deck, 28, 29, 32);
    SplitSlice(deck, 29, 30, 32);
    SplitSlice(deck, 30, 31, 32);
    assert deck[27..28] == Round3(deck, 0);
    assert deck[28..29] == Round3(deck, 1);
    assert deck[29..30] == Round3(deck, 2);
    assert deck[30..31] == Round3(deck, 3);
    assert deck[31..32] == Round3(deck, 4);
  }

  /** What round `r` (1, 2 or 3) gives position `p`. */
  function Piece(deck: seq<Card>, r: nat, p: nat): (piece: seq<Card>)
    requires |deck| == 32 && 1 <= r <= 3 && p < 5
    ensures |piece| == PieceSize(r)
  {
    if r == 1 then Round1(deck, p) else if r == 2 then Round2(deck, p) else Round3(deck, p)
  }

  function PieceSize(r: nat): nat {
    if r == 1 then 3 else if r == 2 then 2 else 1
  }

  /** The hand of position `p` after `r` rounds. */
  function DealtAfter(deck: seq<Card>, r: nat, p: nat): seq<Card>
    requires |deck| == 32 && r <= 3 && p < 5
  {
    if r == 0 then [] else DealtAfter(deck, r - 1, p) + Piece(deck, r, p)
  }

  /** After the third round every position holds its whole hand. */
  lemma DealtAfterAll(deck: seq<Card>, p: nat)
    requires |deck| == 32 && p < 5
    ensures DealtAfter(deck, 3, p) == HandAt(deck, p)
  {
    assert DealtAfter(deck, 1, p) == Round1(deck, p);
  }

  /** The value of the deal counter `idx` once `i` positions of round `r` have had their cards. */
  function Cursor(r: nat, i: nat): nat {
    if r == 1 then 3 * i + (if i >= 2 then BlindSize else 0)
    else if r == 2 then 17 + 2 * i
    else 27 + i
  }

  /** Each push loop reads the piece it deals at the cursor. */
  lemma PieceAtCursor(deck: seq<Card>, r: nat, i: nat)
    requires |deck| == 32 && 1 <= r <= 3 && i < 5
    ensures Cursor(r, i) + PieceSize(r) <= 32
    ensures deck[Cursor(r, i) .. Cursor(r, i) + PieceSize(r)] == Piece(deck, r, i)
    ensures r == 1 && i == 1 ==> Cursor(r, i) + PieceSize(r) == 6
    ensures !(r == 1 && i == 1) ==> Cursor(r, i) + PieceSize(r) == Cursor(r, i + 1)
  {
    if r == 3 {
      assert deck[27 + i .. 28 + i] == [deck[27 + i]];
    }
  }

  /** Appends the next `n` deck cards to the seat's hand and moves the cursor past them (the push loops of index.ts:173-186). */
  method DealCards(h0: map<Seat, seq<Card>>, seat: Seat, deck: seq<Card>, idx0: nat, n: nat)
    returns (h: map<Seat, seq<Card>>, idx: nat)
    requires forall t: Seat :: t in h0
    requires idx0 + n <= |deck|
    ensures h == h0[seat := h0[seat] + deck[idx0 .. idx0 + n]]
    ensures idx == idx0 + n
  {
    var hand := h0[seat];
    idx := idx0;
    for k := 0 to n
      invariant idx == idx0 + k
      invariant hand == h0[seat] + deck[idx0 .. idx]
    {
      assert deck[idx0 .. idx + 1] == deck[idx0 .. idx] + [deck[idx]];
      hand := hand + [deck[idx]];
      idx := idx + 1;
    }
    h := h0[seat := hand];
  }

  /** Deals the next two deck cards to the blind, reached with the cursor at 6 (index.ts:174-176). */
  method DealBlind(bl0: seq<Card>, deck: seq<Card>, idx0: nat) returns (bl: seq<Card>, idx: nat)
    requires |deck| == 32 && idx0 == 6
    ensures bl == bl0 + BlindOf(deck) && idx == 8
  {
    bl, idx := bl0, idx0;
    for b := 0 to BlindSize
      invariant idx == 6 + b
      invariant bl == bl0 + deck[6 .. idx]
    {
      assert deck[6 .. idx + 1] == deck[6 .. idx] + [deck[idx]];
      bl := bl + [deck[idx]];
      idx := idx + 1;
    }
  }

  /** The hands of the seating order once `i` positions of round `r` have had their cards. */
  predicate DealtUpTo(h: map<Seat, seq<Card>>, order: seq<Seat>, deck: seq<Card>, r: nat, i: nat)
    requires |deck| == 32 && 1 <= r <= 3 && |order| == 5
    requires forall t: Seat :: t in h
  {
    forall p :: 0 <= p < 5 ==> h[order[p]] == DealtAfter(deck, if p < i then r else r - 1, p)
  }

  /** One pass of a round's loop: position `i` gets its piece, and after position 1 of round 1 the blind follows. */
  method DealPosition(h0: map<Seat, seq<Card>>, bl0: seq<Card>, idx0: nat, order: seq<Seat>, deck: seq<Card>, r: nat, i: nat)
    returns (h: map<Seat, seq<Card>>, bl: seq<Card>, idx: nat)
    requires |deck| == 32 && 1 <= r <= 3 && |order| == 5 && i < 5
    requires forall t: Seat :: t in h0
    requires idx0 == Cursor(r, i)
    requires bl0 == (if r == 1 && i < 2 then [] else BlindOf(deck))
    ensures idx0 + PieceSize(r) <= |deck|
    ensures h == h0[order[i] := h0[order[i]] + deck[idx0 .. idx0 + PieceSize(r)]]
    ensures bl == (if r == 1 && i + 1 < 2 then [] else BlindOf(deck))
    ensures idx == Cursor(r, i + 1)
  {
    PieceAtCursor(deck, r, i);
    h, idx := DealCards(h0, order[i], deck, idx0, PieceSize(r));
    if r == 1 && i == 1 {
      bl, idx := DealBlind(bl0, deck, idx);
    } else {
      bl := bl0;
    }
  }

  /** Giving position `i` its piece moves the dealt-so-far frontier on by one. */
  lemma DealtStep(h0: map<Seat, seq<Card>>, order: seq<Seat>, deck: seq<Card>, r: nat, i: nat)
    requires |deck| == 32 && 1 <= r <= 3 && |order| == 5 && i < 5
    requires forall p, q :: 0 <= p < q < 5 ==> order[p] != order[q]
    requires forall t: Seat :: t in h0
    requires DealtUpTo(h0, order, deck, r, i)
    ensures Cursor(r, i) + PieceSize(r) <= |deck|
    ensures DealtUpTo(h0[order[i] := h0[order[i]] + deck[Cursor(r, i) .. Cursor(r, i) + PieceSize(r)]], order, deck, r, i + 1)
  {
    PieceAtCursor(deck, r, i);
    var h := h0[order[i] := h0[order[i]] + Piece(deck, r, i)];
    forall p | 0 <= p < 5
      ensures h[order[p]] == DealtAfter(deck, if p < i + 1 then r else r - 1, p)
    {
      if p != i {
        assert order[p] < order[i] || order[i] < order[p];
      }
    }
  }

  /**
   * One of the three dealing rounds of `newHand`: every position in seating
   * order gets its piece, and in the first round the blind is dealt right
   * after the second position's three cards.
   */
  method DealRound(h0: map<Seat, seq<Card>>, bl0: seq<Card>, idx0: nat, order: seq<Seat>, deck: seq<Card>, r: nat)
    returns (h: map<Seat, seq<Card>>, bl: seq<Card>, idx: nat)
    requires |deck| == 32 && 1 <= r <= 3 && |order| == 5
    requires forall p, q :: 0 <= p < q < 5 ==> order[p] != order[q]
    requires forall t: Seat :: t in h0
    requires forall p :: 0 <= p < 5 ==> h0[order[p]] == DealtAfter(deck, r - 1, p)
    requires bl0 == (if r == 1 then [] else BlindOf(deck))
    requires idx0 == Cursor(r, 0)
    ensures forall t: Seat :: t in h
    ensures forall p :: 0 <= p < 5 ==> h[order[p]] == DealtAfter(deck, r, p)
    ensures bl == BlindOf(deck)
    ensures idx == Cursor(r, 5)
  {
    h, bl, idx := h0, bl0, idx0;
    for i := 0 to 5
      invariant forall t: Seat :: t in h
      invariant DealtUpTo(h, order, deck, r, i)
      invariant bl == (if r == 1 && i < 2 then [] else BlindOf(deck))
      invariant idx == Cursor(r, i)
    {
      DealtStep(h, order, deck, r, i);
      h, bl, idx := DealPosition(h, bl, idx, order, deck, r, i);
    }
  }

  /** Every seat's hand in a deal from `deck`, the seat at offset `p` from the dealer getting `HandAt(deck, p)`. */
  function HandsOf(deck: seq<Card>, dealer: Seat): (h: map<Seat, seq<Card>>)
    requires |deck| == 32
    ensures forall s: Seat :: s in h
  {
    map s: Seat :: HandAt(deck, Offset(dealer, s))
  }

  /**
   * The deal of `newHand`: build the deck, shuffle it with the seed and
   * deal the three rounds in the seating order that starts on the
   * dealer's left. Every seat ends up with the six cards its offset from
   * the dealer names and the blind is the two cards after the second
   * seat's first three. The deal uses up the whole deck, so the check
   * that exactly 32 cards were dealt always passes.
   */
  method DealHand(dealer: Seat, seed: Seed) returns (h: map<Seat, seq<Card>>, bl: seq<Card>, used: nat)
    ensures h == HandsOf(Shuffled(StandardDeck(), seed), dealer)
    ensures bl == BlindOf(Shuffled(StandardDeck(), seed))
    ensures used == |StandardDeck()|
  {
    var built := BuildDeck();
    var deck := Shuffle(built, seed);
    var order := [NextSeat(dealer), NextSeat((dealer + 1) % 5), NextSeat((dealer + 2) % 5),
                  NextSeat((dealer + 3) % 5), NextSeat((dealer + 4) % 5)];
    BuiltOrderIsSeatingOrder(dealer);
    h := EverySeat([]);
    bl := [];
    var idx := 0;
    h, bl, idx := DealRound(h, bl, idx, order, deck, 1);
    h, bl, idx := DealRound(h, bl, idx, order, deck, 2);
    h, bl, idx := DealRound(h, bl, idx, order, deck, 3);
    if idx != 32 {
      // "Deal consumed incorrect number of cards" cannot be thrown.
      assert false;
    }
    used := idx;
    LastRoundIsHandAt(h, deck, dealer);
    assert h == HandsOf(deck, dealer);
  }

  /** The order `newHand` builds, `nextSeat(dealer + k)` for k = 0..4, lists each seat once from the dealer's left. */
  lemma BuiltOrderIsSeatingOrder(dealer: Seat)
    ensures [NextSeat(dealer), NextSeat((dealer + 1) % 5), NextSeat((dealer + 2) % 5),
             NextSeat((dealer + 3) % 5), NextSeat((dealer + 4) % 5)] == SeatingOrder(dealer)
    ensures forall p, q :: 0 <= p < q < 5 ==> SeatingOrder(dealer)[p] != SeatingOrder(dealer)[q]
  {
    var order := [NextSeat(dealer), NextSeat((dealer + 1) % 5), NextSeat((dealer + 2) % 5),
                  NextSeat((dealer + 3) % 5), NextSeat((dealer + 4) % 5)];
    forall i | 0 <= i < 5
      ensures order[i] == SeatingOrder(dealer)[i]
    {
      NextSeatOrder(dealer, i);
    }
    forall p, q | 0 <= p < q < 5
      ensures SeatingOrder(dealer)[p] != SeatingOrder(dealer)[q]
    {
      SeatingOrderDistinct(dealer, p, q);
    }
  }

  /** After the third round the seat at offset `p` from the dealer holds `HandAt(deck, p)`. */
  lemma LastRoundIsHandAt(h: map<Seat, seq<Card>>, deck: seq<Card>, dealer: Seat)
    requires |deck| == 32
    requires forall t: Seat :: t in h
    requires forall p :: 0 <= p < 5 ==> h[SeatingOrder(dealer)[p]] == DealtAfter(deck, 3, p)
    ensures forall s: Seat :: h[s] == HandAt(deck, Offset(dealer, s))
  {
    forall s: Seat
      ensures h[s] == HandAt(deck, Offset(dealer, s))
    {
      AtOffset(dealer, s);
      DealtAfterAll(deck, Offset(dealer, s));
    }
  }
}
