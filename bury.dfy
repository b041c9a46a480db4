/**
 * The card removal `applyBury` performs while it checks the cards
 * (packages/engine/src/index.ts:275-280).
 */
module Burying {
  import opened Cards

  /** What is left of the hand, and how many of the cards were found and removed. */
  datatype Removal = Removal(rest: seq<Card>, done: nat)

  /** The hand without the card at position `i` (the splice of index.ts:279). */
  function Splice(hand: seq<Card>, i: nat): (h: seq<Card>)
    requires i < |hand|
    ensures multiset(hand) == multiset(h) + multiset{hand[i]}
  {
    assert hand == hand[..i] + [hand[i]] + hand[i + 1..];
    hand[..i] + hand[i + 1..]
  }

  /**
   * Take the cards out of the hand one by one, each at the first place it
   * is found (`findIndex`, then `splice(i, 1)`), stopping at the first card
   * that is not there. The cards removed before that stay removed.
   */
  function RemoveEach(hand: seq<Card>, cards: seq<Card>): (r: Removal)
    ensures r.done <= |cards|
    decreases |cards|
  {
    if |cards| == 0 then Removal(hand, 0)
    else
      var i := IndexOf(hand, cards[0]);
      if i < 0 then Removal(hand, 0)
      else
        var r := RemoveEach(Splice(hand, i), cards[1..]);
        Removal(r.rest, r.done + 1)
  }

  /** Removal loses no card: what is left plus the cards removed is the hand. */
  lemma {:induction false} RemoveEachConserves(hand: seq<Card>, cards: seq<Card>)
    ensures multiset(hand) == multiset(RemoveEach(hand, cards).rest) + multiset(cards[..RemoveEach(hand, cards).done])
    decreases |cards|
  {
    if |cards| == 0 || IndexOf(hand, cards[0]) < 0 {
      assert cards[..0] == [];
    } else {
      var hand' := Splice(hand, IndexOf(hand, cards[0]));
      RemoveEachConserves(hand', cards[1..]);
      ConservedOneMore(hand, cards);
    }
  }

  /** The inductive step of `RemoveEachConserves`: the first card joins the removed ones. */
  lemma ConservedOneMore(hand: seq<Card>, cards: seq<Card>)
    requires |cards| > 0 && IndexOf(hand, cards[0]) >= 0
    requires var hand' := Splice(hand, IndexOf(hand, cards[0]));
             multiset(hand') == multiset(RemoveEach(hand', cards[1..]).rest) + multiset(cards[1..][..RemoveEach(hand', cards[1..]).done])
    ensures multiset(hand) == multiset(RemoveEach(hand, cards).rest) + multiset(cards[..RemoveEach(hand, cards).done])
  {
    var hand' := Splice(hand, IndexOf(hand, cards[0]));
    var r := RemoveEach(hand', cards[1..]);
    assert RemoveEach(hand, cards) == Removal(r.rest, r.done + 1);
    RemovedOneMore(cards, r.done);
    Regroup(multiset(hand), multiset(hand'), multiset(r.rest), multiset(cards[1..][..r.done]),
            multiset(cards[..r.done + 1]), cards[0]);
  }

  lemma Regroup(h: multiset<Card>, h': multiset<Card>, rest: multiset<Card>, t: multiset<Card>, taken: multiset<Card>, c: Card)
    requires h == h' + multiset{c} && h' == rest + t && taken == multiset{c} + t
    ensures h == rest + taken
  {
  }

  lemma RemovedOneMore(cards: seq<Card>, n: nat)
    requires n < |cards|
    ensures multiset(cards[..n + 1]) == multiset{cards[0]} + multiset(cards[1..][..n])
  {
    assert cards[..n + 1] == [cards[0]] + cards[1..][..n];
  }

  /** Every card is removed exactly when the cards, counted with repeats, are all in the hand. */
  lemma {:induction false} RemoveEachSucceeds(hand: seq<Card>, cards: seq<Card>)
    ensures RemoveEach(hand, cards).done == |cards| <==> multiset(cards) <= multiset(hand)
    decreases |cards|
  {
    if |cards| > 0 {
      var c, tail := cards[0], cards[1..];
      assert cards == [c] + tail;
      var i := IndexOf(hand, c);
      if i >= 0 {
        var hand' := Splice(hand, i);
        assert RemoveEach(hand, cards).done == RemoveEach(hand', tail).done + 1;
        RemoveEachSucceeds(hand', tail);
        SubsetStep(multiset(cards), multiset(tail), multiset(hand), multiset(hand'), c);
      } else {
        assert RemoveEach(hand, cards).done == 0;
        assert c in multiset(cards) && c !in multiset(hand);
      }
    }
  }

  /** Containment is unaffected by one more copy of the same card on both sides. */
  lemma SubsetStep(mc: multiset<Card>, mt: multiset<Card>, mh: multiset<Card>, mh': multiset<Card>, c: Card)
    requires mc == multiset{c} + mt && mh == multiset{c} + mh'
    ensures mc <= mh <==> mt <= mh'
  {
    SubsetAfterOne(mt, mh', c);
  }

  lemma SubsetAfterOne(a: multiset<Card>, b: multiset<Card>, c: Card)
    ensures multiset{c} + a <= multiset{c} + b <==> a <= b
  {
    if multiset{c} + a <= multiset{c} + b {
      forall x
        ensures a[x] <= b[x]
      {
        assert (multiset{c} + a)[x] <= (multiset{c} + b)[x];
      }
    }
  }

  /** A bury of cards all in the hand leaves the multiset difference. */
  lemma BuryTakesCardsOut(hand: seq<Card>, cards: seq<Card>)
    requires multiset(cards) <= multiset(hand)
    ensures RemoveEach(hand, cards).done == |cards|
    ensures multiset(RemoveEach(hand, cards).rest) == multiset(hand) - multiset(cards)
  {
    RemoveEachSucceeds(hand, cards);
    RemoveEachConserves(hand, cards);
    assert cards[..|cards|] == cards;
  }

  /** A bury that fails part-way loses the cards it removed before the missing one. */
  lemma FailedBuryLosesCards()
    ensures var hand, cards := [Card(Ace, Clubs), Card(King, Spades)], [Card(Ace, Clubs), Card(Ace, Clubs)];
            RemoveEach(hand, cards) == Removal([Card(King, Spades)], 1)
  {
    var hand, cards := [Card(Ace, Clubs), Card(King, Spades)], [Card(Ace, Clubs), Card(Ace, Clubs)];
    assert IndexOf(hand, Card(Ace, Clubs)) == 0;
    assert hand[..0] + hand[1..] == [Card(King, Spades)];
    assert IndexOf([Card(King, Spades)], Card(Ace, Clubs)) == -1;
  }

  /**
   * The loop of `applyBury` over the picker's hand: find each card and
   * splice it out, giving up at the first card that is missing.
   */
  method RemoveCards(hand: seq<Card>, cards: seq<Card>) returns (rest: seq<Card>, done: nat)
    ensures Removal(rest, done) == RemoveEach(hand, cards)
  {
    rest, done := hand, 0;
    assert cards[0..] == cards;
    while done < |cards|
      invariant done <= |cards|
      invariant RemoveEach(hand, cards) == Removal(RemoveEach(rest, cards[done..]).rest, done + RemoveEach(rest, cards[done..]).done)
      decreases |cards| - done
    {
      var i := IndexOf(rest, cards[done]);
      if i < 0 {
        return;
      }
      assert cards[done..][1..] == cards[done + 1..];
      rest := Splice(rest, i);
      done := done + 1;
    }
  }
}
