/**
 * The server's per-seat view of the state (apps/server/src/index.ts:194-212):
 * a seat sees its own hand and, while it is the picker handling the blind,
 * the blind; every other card is replaced by a placeholder of the same
 * count. The view is built fresh and the state is only read.
 */
module Server {
  import opened Wrappers
  import opened Cards
  import opened Seats
  import opened Rules
  import opened Tricks
  import opened Deck
  import opened Bidding
  import opened Calling
  import opened Dealing
  import opened Engine

  /** A card as sent to a client: the card itself, or the `{r: "?", s: "?"}` placeholder. */
  datatype Shown = Face(card: Card) | Hidden

  /** The object `pov` returns: the state with redacted hands and blind, plus `bidTurn`. */
  datatype View = View(
    rules: Ruleset,
    dealer: Seat,
    phase: Phase,
    seed: Seed,
    hands: map<Seat, seq<Shown>>,
    blind: seq<Shown>,
    bids: Bids,
    picker: Option<Seat>,
    partnerCalled: bool,
    leader: Seat,
    trick: Option<Trick>,
    taken: map<Seat, seq<Card>>,
    turn: Seat,
    buried: seq<Card>,
    called: Option<Called>,
    bidTurn: Option<Seat>)

  /** The cards as they are. */
  function Reveal(cards: seq<Card>): (r: seq<Shown>)
    ensures |r| == |cards| && forall i :: 0 <= i < |r| ==> r[i] == Face(cards[i])
  {
    seq(|cards|, i requires 0 <= i < |cards| => Face(cards[i]))
  }

  /** One face-down placeholder per card (apps/server/src/index.ts:198 and 208). */
  function Mask(cards: seq<Card>): (r: seq<Shown>)
    ensures |r| == |cards| && forall i :: 0 <= i < |r| ==> r[i] == Hidden
  {
    seq(|cards|, i => Hidden)
  }

  /** Whether the viewer (`None` for the all-seeing server view) sees the hand of seat `s`. */
  predicate SeesHand(viewer: Option<Seat>, s: Seat) {
    viewer.None? || viewer == Some(s)
  }

  /** `blindVisibleTo`: the picker, while the blind is being taken, buried or called over. */
  function BlindVisibleTo(phase: Phase, picker: Option<Seat>): (r: Option<Seat>)
    ensures r.Some? ==> r == picker
    ensures r.Some? <==> picker.Some? && (phase == Blind || phase == Bury || phase == Call)
  {
    if (phase == Blind || phase == Bury || phase == Call) && picker.Some? then picker else None
  }

  /** Whether the viewer sees the blind. */
  predicate SeesBlind(viewer: Option<Seat>, phase: Phase, picker: Option<Seat>)
    ensures SeesBlind(viewer, phase, picker) && viewer.Some? ==>
            viewer == picker && (phase == Blind || phase == Bury || phase == Call)
  {
    viewer.None? || (BlindVisibleTo(phase, picker).Some? && viewer == BlindVisibleTo(phase, picker))
  }

  /** The redacted hands, one entry per seat. */
  function HandsView(hands: map<Seat, seq<Card>>, viewer: Option<Seat>): (r: map<Seat, seq<Shown>>)
    requires forall s: Seat :: s in hands
    ensures forall s: Seat :: s in r
  {
    map s: Seat :: if SeesHand(viewer, s) then Reveal(hands[s]) else Mask(hands[s])
  }

  /**
   * `pov(state, seat)`. The viewer's hand (every hand when there is no
   * viewer) is shown as it is, every other hand as placeholders of the same
   * count; the blind likewise; `bidTurn` is the current bidder; every other
   * field is copied.
   */
  function Pov(st: State, viewer: Option<Seat>): (v: View)
    reads st
    requires st.Valid()
    ensures forall s: Seat :: s in v.hands && |v.hands[s]| == |st.hands[s]|
    ensures forall s: Seat, i :: SeesHand(viewer, s) && 0 <= i < |st.hands[s]| ==> v.hands[s][i] == Face(st.hands[s][i])
    ensures forall s: Seat, i :: !SeesHand(viewer, s) && 0 <= i < |st.hands[s]| ==> v.hands[s][i] == Hidden
    ensures |v.blind| == |st.blind|
    ensures forall i :: 0 <= i < |st.blind| ==>
              (v.blind[i] == Face(st.blind[i]) <==>
               viewer.None? || ((st.phase == Blind || st.phase == Bury || st.phase == Call) &&
                                st.picker.Some? && viewer == st.picker))
    ensures forall i :: 0 <= i < |st.blind| ==> v.blind[i] == Face(st.blind[i]) || v.blind[i] == Hidden
    ensures v.bidTurn == CurrentBidderOf(st.phase, st.dealer, st.bids)
    ensures st.phase != Bidding ==> v.bidTurn == None
    ensures v.rules == st.rules && v.dealer == st.dealer && v.phase == st.phase && v.seed == st.seed
    ensures v.bids == st.bids && v.picker == st.picker && v.partnerCalled == st.partnerCalled
    ensures v.leader == st.leader && v.trick == st.trick && v.taken == st.taken
    ensures v.turn == st.turn && v.buried == st.buried && v.called == st.called
  {
    var blind := if SeesBlind(viewer, st.phase, st.picker) then Reveal(st.blind) else Mask(st.blind);
    var bidTurn := if st.phase == Bidding then CurrentBidderOf(st.phase, st.dealer, st.bids) else None;
    View(st.rules, st.dealer, st.phase, st.seed, HandsView(st.hands, viewer), blind, st.bids,
         st.picker, st.partnerCalled, st.leader, st.trick, st.taken, st.turn, st.buried, st.called, bidTurn)
  }

  /** Two lists of placeholders of the same count are the same list. */
  lemma MaskOnlyCounts(a: seq<Card>, b: seq<Card>)
    requires |a| == |b|
    ensures Mask(a) == Mask(b)
  {
  }

  /**
   * What a seated player is sent does not depend on the other seats' cards,
   * only on how many each holds, nor on the blind's cards while that
   * player may not see it: two states that differ only there give the
   * same view.
   */
  lemma PovHidesOtherHands(st1: State, st2: State, viewer: Seat)
    requires st1.Valid() && st2.Valid()
    requires st1.rules == st2.rules && st1.dealer == st2.dealer && st1.phase == st2.phase && st1.seed == st2.seed
    requires st1.bids == st2.bids && st1.picker == st2.picker && st1.partnerCalled == st2.partnerCalled
    requires st1.leader == st2.leader && st1.trick == st2.trick && st1.taken == st2.taken
    requires st1.turn == st2.turn && st1.buried == st2.buried && st1.called == st2.called
    requires st1.hands[viewer] == st2.hands[viewer]
    requires forall s: Seat :: |st1.hands[s]| == |st2.hands[s]|
    requires |st1.blind| == |st2.blind|
    requires SeesBlind(Some(viewer), st1.phase, st1.picker) ==> st1.blind == st2.blind
    ensures Pov(st1, Some(viewer)) == Pov(st2, Some(viewer))
  {
    var h1, h2 := HandsView(st1.hands, Some(viewer)), HandsView(st2.hands, Some(viewer));
    forall s: Seat
      ensures h1[s] == h2[s]
    {
      if s != viewer {
        MaskOnlyCounts(st1.hands[s], st2.hands[s]);
      }
    }
    assert h1 == h2;
    MaskOnlyCounts(st1.blind, st2.blind);
  }

  /**
   * The view copies `seed` and `dealer`, and from a freshly dealt state
   * those two give back every hand: whoever receives a view right after
   * `newHand` can recompute all five hands and the blind.
   */
  lemma SeedDisclosesDeal(st: State, viewer: Option<Seat>)
    requires st.Valid()
    requires st.hands == HandsOf(Shuffled(StandardDeck(), st.seed), st.dealer)
    requires st.blind == BlindOf(Shuffled(StandardDeck(), st.seed))
    ensures HandsOf(Shuffled(StandardDeck(), Pov(st, viewer).seed), Pov(st, viewer).dealer) == st.hands
    ensures BlindOf(Shuffled(StandardDeck(), Pov(st, viewer).seed)) == st.blind
  {
  }
}
