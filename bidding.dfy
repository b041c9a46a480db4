/**
 * Bidding: whose turn it is and who may bid
 * (packages/engine/src/index.ts:61, 216-235).
 */
module Bidding {
  import opened Wrappers
  import opened Seats
  import opened Rules

  datatype Bid = Pick | Pass

  /** `bids`: a seat maps to `None` until it has bid. */
  type Bids = map<Seat, Option<Bid>>

  /** `bids` is a record over all five seats. */
  predicate BidsTotal(bids: Bids) {
    forall s: Seat :: s in bids
  }

  /** No seat has bid yet. */
  predicate NoBids(bids: Bids)
    requires BidsTotal(bids)
  {
    forall s: Seat :: bids[s] == None
  }

  /** The first seat of `order` that has not bid. */
  function FirstUnbid(order: seq<Seat>, bids: Bids): (r: Option<Seat>)
    requires BidsTotal(bids)
    ensures r.None? <==> forall k :: 0 <= k < |order| ==> bids[order[k]].Some?
    ensures r.Some? ==> exists k :: 0 <= k < |order| && order[k] == r.value && bids[r.value].None? &&
                                    forall m :: 0 <= m < k ==> bids[order[m]].Some?
  {
    if |order| == 0 then None
    else if bids[order[0]].None? then Some(order[0])
    else
      var r := FirstUnbid(order[1..], bids);
      assert r.Some? ==> exists k :: 1 <= k < |order| && order[k] == r.value && bids[r.value].None? &&
                                     forall m :: 0 <= m < k ==> bids[order[m]].Some? by {
        if r.Some? {
          var k :| 0 <= k < |order| - 1 && order[1..][k] == r.value && bids[r.value].None? &&
                   forall m :: 0 <= m < k ==> bids[order[1..][m]].Some?;
          assert forall m :: 0 <= m < k + 1 ==> bids[order[m]].Some? by {
            forall m | 0 <= m < k + 1
              ensures bids[order[m]].Some?
            {
              if m > 0 {
                assert order[m] == order[1..][m - 1];
              }
            }
          }
        }
      }
      assert r.None? ==> forall k :: 0 <= k < |order| ==> bids[order[k]].Some? by {
        if r.None? {
          forall k | 0 <= k < |order|
            ensures bids[order[k]].Some?
          {
            if k > 0 {
              assert order[k] == order[1..][k - 1];
            }
          }
        }
      }
      r
  }

  /**
   * `currentBidder`: nobody outside Bidding; otherwise the first seat
   * without a bid in seating order. A seat it names has not bid, so the
   * "Already bid" guard of `applyBid` can never fire.
   */
  function CurrentBidderOf(phase: Phase, dealer: Seat, bids: Bids): (r: Option<Seat>)
    requires BidsTotal(bids)
    ensures r.Some? ==> phase == Bidding && bids[r.value].None?
    ensures r.None? <==> phase != Bidding || forall s: Seat :: bids[s].Some?
  {
    if phase != Bidding then None
    else
      var r := FirstUnbid(SeatingOrder(dealer), bids);
      assert r.None? ==> forall s: Seat :: bids[s].Some? by {
        if r.None? {
          forall s: Seat
            ensures bids[s].Some?
          {
            AtOffset(dealer, s);
          }
        }
      }
      r
  }

  /**
   * The bidder is the seat nearest the dealer's left that has not bid: it
   * is `s` exactly when the phase is Bidding, `s` has not bid and every
   * seat between the dealer and `s` has.
   */
  lemma CurrentBidderIsNextClockwise(phase: Phase, dealer: Seat, bids: Bids, s: Seat)
    requires BidsTotal(bids)
    ensures CurrentBidderOf(phase, dealer, bids) == Some(s) <==>
            phase == Bidding && bids[s].None? &&
            forall t: Seat :: Offset(dealer, t) < Offset(dealer, s) ==> bids[t].Some?
  {
    var order := SeatingOrder(dealer);
    if phase == Bidding {
      var r := FirstUnbid(order, bids);
      AtOffset(dealer, s);
      if r.Some? {
        var k :| 0 <= k < 5 && order[k] == r.value && bids[r.value].None? &&
                 forall m :: 0 <= m < k ==> bids[order[m]].Some?;
        OrderAt(dealer, k);
        assert Offset(dealer, r.value) == k;
        forall t: Seat | Offset(dealer, t) < k
          ensures bids[t].Some?
        {
          AtOffset(dealer, t);
        }
        if bids[s].None? && forall t: Seat :: Offset(dealer, t) < Offset(dealer, s) ==> bids[t].Some? {
          assert Offset(dealer, s) <= k;
          assert Offset(dealer, s) == k;
          AtOffset(dealer, r.value);
        }
      }
    }
  }

  /** After five passes no seat is ever asked to bid: the hand is stuck in Bidding. */
  lemma AllPassedNoBidder(phase: Phase, dealer: Seat, bids: Bids)
    requires BidsTotal(bids)
    requires forall s: Seat :: bids[s] == Some(Pass)
    ensures CurrentBidderOf(phase, dealer, bids) == None
  {
  }

  /** At the start of bidding the dealer's left-hand neighbour bids first. */
  lemma FirstBidderIsLeftOfDealer(dealer: Seat, bids: Bids)
    requires BidsTotal(bids) && NoBids(bids)
    ensures CurrentBidderOf(Bidding, dealer, bids) == Some(NextSeat(dealer))
  {
  }
}
