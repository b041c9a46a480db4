/**
 * The five seats and the order of play around the table
 * (packages/engine/src/index.ts:3, 158, 166, 219-221).
 */
module Seats {
  type Seat = x: int | 0 <= x < 5

  /** `nextSeat`: the seat to the left. */
  function NextSeat(s: Seat): (n: Seat)
    ensures n == s + 1 || (s == 4 && n == 0)
  {
    (s + 1) % 5
  }

  /**
   * `seatingOrder`: the four seats from the dealer's left, then the dealer.
   * `newHand` builds the same list with `nextSeat` (index.ts:166).
   */
  function SeatingOrder(dealer: Seat): (order: seq<Seat>)
    ensures |order| == 5
  {
    [(dealer + 1) % 5, (dealer + 2) % 5, (dealer + 3) % 5, (dealer + 4) % 5, dealer % 5]
  }

  /** How many places `s` sits to the left of the dealer's left-hand neighbour: 0 for that neighbour, 4 for the dealer. */
  function Offset(dealer: Seat, s: Seat): (p: nat)
    ensures p < 5
  {
    (s - dealer + 4) % 5
  }

  /** Position `p` of the seating order is `p + 1` places left of the dealer. */
  lemma OrderAt(dealer: Seat, p: nat)
    requires p < 5
    ensures SeatingOrder(dealer)[p] == (dealer + 1 + p) % 5
    ensures Offset(dealer, SeatingOrder(dealer)[p]) == p
  {
    var s := (dealer + 1 + p) % 5;
    assert s == dealer + 1 + p || s == dealer + 1 + p - 5;
  }

  /** `Offset` names the position at which a seat is listed. */
  lemma AtOffset(dealer: Seat, s: Seat)
    ensures SeatingOrder(dealer)[Offset(dealer, s)] == s
  {
    OrderAt(dealer, Offset(dealer, s));
  }

  /** The dealer bids last, after the seat on their left has bid first. */
  lemma DealerIsLast(dealer: Seat)
    ensures SeatingOrder(dealer)[4] == dealer
    ensures SeatingOrder(dealer)[0] == NextSeat(dealer)
  {
  }

  /** No seat is listed twice. */
  lemma SeatingOrderDistinct(dealer: Seat, p: nat, q: nat)
    requires p < 5 && q < 5 && p != q
    ensures SeatingOrder(dealer)[p] != SeatingOrder(dealer)[q]
  {
    OrderAt(dealer, p);
    OrderAt(dealer, q);
  }

  /** `order[i]` for the order `newHand` builds from `nextSeat(dealer + i)`. */
  lemma NextSeatOrder(dealer: Seat, i: nat)
    requires i < 5
    ensures SeatingOrder(dealer)[i] == NextSeat((dealer + i) % 5)
  {
  }

  /** A record keyed by seat with the same entry for every seat, such as `{0: [], 1: [], 2: [], 3: [], 4: []}`. */
  function EverySeat<T>(x: T): (m: map<Seat, T>)
    ensures forall s: Seat :: s in m && m[s] == x
  {
    map[0 := x, 1 := x, 2 := x, 3 := x, 4 := x]
  }
}
