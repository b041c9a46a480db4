/**
 * The state of one hand and the operations that change it
 * (packages/engine/src/index.ts:54-70, 160-214, 222-363).
 */
module Engine {
  import opened Wrappers
  import opened Cards
  import opened Seats
  import opened Rules
  import opened Tricks
  import opened Deck
  import opened Bidding
  import opened Calling
  import opened Burying
  import opened Dealing

  /** The `State` record, updated in place by the `apply*` operations. */
  class State {
    var rules: Ruleset
    var dealer: Seat
    var phase: Phase
    var seed: Seed
    var hands: map<Seat, seq<Card>>
    var blind: seq<Card>
    var bids: Bids
    var picker: Option<Seat>
    var partnerCalled: bool
    var leader: Seat
    var trick: Option<Trick>
    var taken: map<Seat, seq<Card>>
    var turn: Seat
    var buried: seq<Card>
    var called: Option<Called>

    /** The three seat-indexed records have an entry for every seat. */
    predicate Valid()
      reads this
    {
      (forall s: Seat :: s in hands) && (forall s: Seat :: s in taken) && BidsTotal(bids)
    }

    /**
     * `newHand`: shuffle a fresh deck with the seed, then deal three cards
     * to each seat from the dealer's left with the blind after the second
     * seat, then two each, then one each.
     */
    constructor NewHand(dealer: Seat, seed: Seed, rules: Ruleset)
      ensures Valid()
      ensures this.rules == rules && this.dealer == dealer && this.seed == seed
      ensures phase == Bidding && NoBids(bids) && picker == None
      ensures !partnerCalled && called == None && buried == [] && trick == None
      ensures forall s: Seat :: taken[s] == []
      ensures leader == NextSeat(dealer) && turn == NextSeat(dealer)
      ensures hands == HandsOf(Shuffled(StandardDeck(), seed), dealer)
      ensures blind == BlindOf(Shuffled(StandardDeck(), seed))
    {
      var h, bl, _ := DealHand(dealer, seed);
      this.rules := rules;
      this.dealer := dealer;
      this.seed := seed;
      phase := Bidding;
      hands := h;
      blind := bl;
      bids := EverySeat(None);
      picker := None;
      partnerCalled := false;
      called := None;
      buried := [];
      leader := NextSeat(dealer);
      trick := None;
      taken := EverySeat([]);
      turn := NextSeat(dealer);
    }

    /** `currentBidder`: walk the seating order for the first seat without a bid. */
    method CurrentBidder() returns (r: Option<Seat>)
      requires Valid()
      ensures r == CurrentBidderOf(phase, dealer, bids)
    {
      if phase != Bidding {
        return None;
      }
      var order := SeatingOrder(dealer);
      for k := 0 to 5
        invariant FirstUnbid(order[k..], bids) == FirstUnbid(order, bids)
      {
        var s := order[k];
        if bids[s].None? {
          return Some(s);
        }
        assert order[k..][1..] == order[k + 1..];
      }
      assert order[5..] == [];
      return None;
    }

    /** `legalBids`: both bids for the seat whose turn it is, nothing for anyone else. */
    function LegalBids(seat: Seat): (r: seq<Bid>)
      reads this
      requires Valid()
      ensures r == [] || r == [Pick, Pass]
      ensures r == [Pick, Pass] <==>
              phase == Bidding && bids[seat].None? &&
              forall t: Seat :: Offset(dealer, t) < Offset(dealer, seat) ==> bids[t].Some?
    {
      CurrentBidderIsNextClockwise(phase, dealer, bids, seat);
      if CurrentBidderOf(phase, dealer, bids) == Some(seat) then [Pick, Pass] else []
    }

    /**
     * `applyBid`. The "Already bid" guard cannot fire: the current bidder
     * has not bid. A Pass records the bid and nothing else, so after five
     * passes the hand stays in Bidding with no one to bid.
     */
    method ApplyBid(seat: Seat, bid: Bid) returns (err: Option<Err>)
      requires Valid()
      modifies this`bids, this`picker, this`phase, this`turn
      ensures Valid()
      ensures old(phase) != Bidding ==> err == Some(NotInBidding)
      ensures old(phase) == Bidding && old(CurrentBidderOf(phase, dealer, bids)) != Some(seat) ==>
              err == Some(NotYourTurnToBid)
      ensures err.None? <==>
              old(phase) == Bidding && old(bids)[seat].None? &&
              forall t: Seat :: old(Offset(dealer, t) < Offset(dealer, seat)) ==> old(bids)[t].Some?
      ensures err.Some? ==> unchanged(this)
      ensures err.None? ==> bids == old(bids)[seat := Some(bid)]
      ensures err.None? && bid == Pick ==> picker == Some(seat) && phase == Blind && turn == seat
      ensures err.None? && bid == Pass ==> unchanged(this`picker, this`phase, this`turn)
    {
      CurrentBidderIsNextClockwise(phase, dealer, bids, seat);
      if phase != Bidding {
        return Some(NotInBidding);
      }
      var current := CurrentBidder();
      if current != Some(seat) {
        return Some(NotYourTurnToBid);
      }
      if bids[seat].Some? {
        assert false;
      }
      bids := bids[seat := Some(bid)];
      if bid == Pick {
        picker := Some(seat);
        phase := Blind;
        turn := seat;
      }
      return None;
    }

    /** `takeBlind`: the picker adds the blind to their hand and moves on to burying. */
    method TakeBlind(seat: Seat) returns (err: Option<Err>)
      requires Valid()
      modifies this`hands, this`blind, this`phase, this`turn
      ensures Valid()
      ensures old(phase) != Blind ==> err == Some(NotInBlindPhase)
      ensures old(phase) == Blind && old(picker) != Some(seat) ==> err == Some(OnlyPickerCanTakeBlind)
      ensures err.None? <==> old(phase) == Blind && old(picker) == Some(seat)
      ensures err.Some? ==> unchanged(this)
      ensures err.None? ==> hands == old(hands)[seat := old(hands)[seat] + old(blind)]
      ensures err.None? ==> blind == [] && phase == Bury && turn == seat
    {
      if phase != Blind {
        return Some(NotInBlindPhase);
      }
      if picker != Some(seat) {
        return Some(OnlyPickerCanTakeBlind);
      }
      hands := hands[seat := hands[seat] + blind];
      blind := [];
      phase := Bury;
      turn := seat;
      return None;
    }

    /**
     * `applyBury`. Each card is taken out of the picker's hand as it is
     * checked, so when a later card is missing the earlier ones are
     * already gone: they are then neither in the hand nor buried.
     */
    method ApplyBury(seat: Seat, cards: seq<Card>) returns (err: Option<Err>)
      requires Valid()
      modifies this`hands, this`buried, this`phase, this`turn
      ensures Valid()
      ensures old(phase) != Bury ==> err == Some(NotInBuryPhase)
      ensures old(phase) == Bury && old(picker) != Some(seat) ==> err == Some(OnlyPickerCanBury)
      ensures old(phase) == Bury && old(picker) == Some(seat) && |cards| != BuryCount ==>
              err == Some(MustBury(BuryCount))
      ensures err.None? <==>
              old(phase) == Bury && old(picker) == Some(seat) && |cards| == BuryCount &&
              RemoveEach(old(hands)[seat], cards).done == |cards|
      ensures old(phase) == Bury && old(picker) == Some(seat) && |cards| == BuryCount &&
              RemoveEach(old(hands)[seat], cards).done < |cards| ==>
              err == Some(BuryCardNotInHand)
      ensures err.Some? && err != Some(BuryCardNotInHand) ==> unchanged(this)
      ensures err.None? || err == Some(BuryCardNotInHand) ==>
              hands == old(hands)[seat := RemoveEach(old(hands)[seat], cards).rest]
      ensures err == Some(BuryCardNotInHand) ==> unchanged(this`phase, this`turn, this`buried)
      ensures err.None? ==> buried == old(buried) + cards && phase == Call && turn == seat
    {
      if phase != Bury {
        err := Some(NotInBuryPhase);
      } else if picker != Some(seat) {
        err := Some(OnlyPickerCanBury);
      } else if |cards| != BuryCount {
        err := Some(MustBury(BuryCount));
      } else {
        var done := TakeFromHand(seat, cards);
        if done < |cards| {
          err := Some(BuryCardNotInHand);
        } else {
          FinishBury(seat, cards);
          err := None;
        }
      }
    }

    /** The loop of `applyBury` on the seat's hand: the count of cards found and spliced out. */
    method TakeFromHand(seat: Seat, cards: seq<Card>) returns (done: nat)
      requires Valid()
      modifies this`hands
      ensures Valid()
      ensures hands == old(hands)[seat := RemoveEach(old(hands)[seat], cards).rest]
      ensures done == RemoveEach(old(hands)[seat], cards).done
    {
      var rest;
      rest, done := RemoveCards(hands[seat], cards);
      hands := hands[seat := rest];
    }

    /** The end of a successful `applyBury`: the cards go to `buried` and the picker calls next. */
    method FinishBury(seat: Seat, cards: seq<Card>)
      modifies this`buried, this`phase, this`turn
      ensures buried == old(buried) + cards && phase == Call && turn == seat
    {
      buried := buried + cards;
      phase := Call;
      turn := seat;
    }

    /**
     * `applyCall`. A Solo is always accepted; a card call goes through the
     * guard chain of `JudgeCall`. A refused call changes nothing, so the
     * picker may call again.
     */
    method ApplyCall(seat: Seat, payload: CallPayload) returns (err: Option<Err>)
      requires Valid()
      modifies this`called, this`partnerCalled, this`phase, this`leader, this`turn, this`trick
      ensures Valid()
      ensures old(phase) != Call ==> err == Some(NotInCallPhase)
      ensures old(phase) == Call && old(picker) != Some(seat) ==> err == Some(OnlyPickerCanCall)
      ensures old(phase) == Call && old(picker) == Some(seat) ==>
              match CallVerdict(rules, hands[seat], buried, payload)
              case Reject(e) => err == Some(e)
              case Accept(c) => err == None && called == Some(c)
      ensures err.Some? ==> unchanged(this)
      ensures err.None? ==>
              phase == Play && leader == seat && turn == seat && trick == Some(Trick(seat, [])) &&
              called.Some? && (partnerCalled <==> called.value.CalledCard?)
    {
      if phase != Call {
        err := Some(NotInCallPhase);
      } else if picker != Some(seat) {
        err := Some(OnlyPickerCanCall);
      } else {
        var verdict := CallVerdict(rules, hands[seat], buried, payload);
        match verdict {
          case Reject(e) =>
            err := Some(e);
          case Accept(c) =>
            StartPlay(seat, c);
            err := None;
        }
      }
    }

    /** The three places `applyCall` accepts a call: record it and open the first trick. */
    method StartPlay(seat: Seat, c: Called)
      modifies this`called, this`partnerCalled, this`phase, this`leader, this`turn, this`trick
      ensures called == Some(c) && (partnerCalled <==> c.CalledCard?)
      ensures phase == Play && leader == seat && turn == seat && trick == Some(Trick(seat, []))
    {
      called := Some(c);
      partnerCalled := c.CalledCard?;
      phase := Play;
      leader := seat;
      turn := seat;
      trick := Some(Trick(seat, []));
    }

    /**
     * `legalPlays`: outside Play nothing; with no card led the whole hand;
     * otherwise the cards that follow the lead, or the whole hand when
     * none does.
     */
    function LegalPlays(seat: Seat): (r: seq<Card>)
      reads this
      requires Valid()
      ensures phase != Play ==> r == []
      ensures phase == Play && (trick.None? || trick.value.plays == []) ==> r == hands[seat]
      ensures phase == Play && trick.Some? && trick.value.plays != [] ==>
              var led := LedOf(trick.value.plays[0].card);
              ((forall c :: c in hands[seat] ==> !Follows(led, c)) ==> r == hands[seat]) &&
              ((exists c :: c in hands[seat] && Follows(led, c)) ==>
                 r != [] && IsSubsequence(r, hands[seat]) && (forall c :: c in r ==> Follows(led, c)) &&
                 forall c :: Follows(led, c) ==> multiset(r)[c] == multiset(hands[seat])[c])
      ensures phase == Play ==> IsSubsequence(r, hands[seat]) && (hands[seat] != [] ==> r != [])
    {
      SubsequenceOfItself(hands[seat]);
      if phase != Play then []
      else
        var hand := hands[seat];
        if trick.None? || |trick.value.plays| == 0 then hand
        else
          var led := LedOf(trick.value.plays[0].card);
          var hasLed := exists c :: c in hand && Follows(led, c);
          if !hasLed then hand else FollowSuit(hand, led)
    }
  }

  /**
   * The hand `newHand` deals holds every card of the deck once: the five
   * hands of six, in seating order, and the blind of two.
   */
  lemma FreshDealUsesEveryCard(seed: Seed)
    ensures PositionCards(Shuffled(StandardDeck(), seed)) + multiset(BlindOf(Shuffled(StandardDeck(), seed)))
            == multiset(StandardDeck())
  {
    ShuffledPermutes(StandardDeck(), seed);
    DealUsesEveryCardOnce(Shuffled(StandardDeck(), seed));
  }
}
