/**
 * The partner-call validator: the ordered chain of guards `applyCall` runs
 * on a card call (packages/engine/src/index.ts:37-52, 305-355).
 */
module Calling {
  import opened Cards
  import opened Rules

  /** What the picker announces: `{ solo: true }` or `{ card }`. */
  datatype CallPayload = SoloCall | CardCall(card: Card)

  /** What ends up in `state.called`. */
  datatype Called = Solo | CalledCard(card: Card)

  /** The outcome of the guard chain on a card call. */
  datatype Verdict = Reject(err: Err) | Accept(called: Called)

  /** The only cards that may be called: an Ace or Ten of Clubs, Spades or Hearts. */
  predicate IsFailAceOrTen(c: Card)
    ensures IsFailAceOrTen(c) ==> IsFailSuitCard(c) && !IsTrump(c) && CardValue(c) >= 10
  {
    (c.r == Ace || c.r == Ten) && IsFailSuit(c.s)
  }

  /** `holdsFailSuit`: some fail card of suit `s` is in the hand. */
  predicate HoldsFailSuit(hand: seq<Card>, s: Suit)
    ensures HoldsFailSuit(hand, s) ==> IsFailSuit(s) && hand != []
  {
    exists c :: c in hand && c.s == s && IsFailSuitCard(c)
  }

  /** `holdsFailRank`: the fail card of rank `r` and suit `s` is in the hand. */
  predicate HoldsFailRank(hand: seq<Card>, r: Rank, s: Suit)
    ensures HoldsFailRank(hand, r, s) ==> Card(r, s) in hand && IsFailSuit(s) && r != Queen && r != Jack
  {
    exists c :: c in hand && c.r == r && c.s == s && IsFailSuitCard(c)
  }

  /** `hasAllFailAces` (index.ts:323). */
  predicate HasAllFailAces(hand: seq<Card>)
    ensures HasAllFailAces(hand) ==> forall s :: IsFailSuit(s) ==> HoldsFailSuit(hand, s)
  {
    HoldsFailRank(hand, Ace, Clubs) && HoldsFailRank(hand, Ace, Spades) && HoldsFailRank(hand, Ace, Hearts)
  }

  /** `hasAllFailTens` (index.ts:324). */
  predicate HasAllFailTens(hand: seq<Card>)
    ensures HasAllFailTens(hand) ==> forall s :: IsFailSuit(s) ==> HoldsFailSuit(hand, s)
  {
    HoldsFailRank(hand, Ten, Clubs) && HoldsFailRank(hand, Ten, Spades) && HoldsFailRank(hand, Ten, Hearts)
  }

  /** The three fail cards of rank `r` are all in the hand. */
  predicate HoldsAllThree(hand: seq<Card>, r: Rank) {
    Card(r, Clubs) in hand && Card(r, Spades) in hand && Card(r, Hearts) in hand
  }

  /** The house rule: when on, the picker must hold a fail card of the called suit. */
  predicate SuitRuleMet(rules: Ruleset, hand: seq<Card>, s: Suit) {
    !rules.requirePickerHasSuitToCall || HoldsFailSuit(hand, s)
  }

  /** For an Ace or a Ten of a fail suit, `holdsFailRank` is plain membership. */
  lemma HoldsFailRankIsMembership(hand: seq<Card>, r: Rank, s: Suit)
    requires (r == Ace || r == Ten) && IsFailSuit(s)
    ensures HoldsFailRank(hand, r, s) <==> Card(r, s) in hand
  {
    if Card(r, s) in hand {
      assert IsFailSuitCard(Card(r, s));
    }
  }

  /** The Ace and Ten counts of index.ts:322-324 are plain membership too. */
  lemma AllFailRanksIsMembership(hand: seq<Card>)
    ensures HasAllFailAces(hand) <==> HoldsAllThree(hand, Ace)
    ensures HasAllFailTens(hand) <==> HoldsAllThree(hand, Ten)
  {
    HoldsFailRankIsMembership(hand, Ace, Clubs);
    HoldsFailRankIsMembership(hand, Ace, Spades);
    HoldsFailRankIsMembership(hand, Ace, Hearts);
    HoldsFailRankIsMembership(hand, Ten, Clubs);
    HoldsFailRankIsMembership(hand, Ten, Spades);
    HoldsFailRankIsMembership(hand, Ten, Hearts);
  }

  /** `applyCall`'s decision once the phase and the seat are right: a Solo is always accepted. */
  function CallVerdict(rules: Ruleset, hand: seq<Card>, buried: seq<Card>, payload: CallPayload): (v: Verdict)
    ensures payload == SoloCall ==> v == Accept(Solo)
    ensures v.Accept? ==> v.called == Solo || (payload.CardCall? && v.called == CalledCard(payload.card))
    ensures v.Reject? ==> payload.CardCall?
  {
    match payload
    case SoloCall => Accept(Solo)
    case CardCall(card) => JudgeCall(rules, hand, buried, card)
  }

  /**
   * The guards of index.ts:305-355 in their order, on the picker's hand and
   * the buried cards. JudgeCallAccepts says, in terms of which cards are
   * where, when the call is accepted and as what.
   */
  function JudgeCall(rules: Ruleset, hand: seq<Card>, buried: seq<Card>, card: Card): (v: Verdict)
    ensures !IsFailAceOrTen(card) ==> v == Reject(MustCallFailAceOrTen)
    ensures v.Accept? ==> v == Accept(Solo) || v == Accept(CalledCard(card))
  {
    if !IsFailAceOrTen(card) then Reject(MustCallFailAceOrTen)
    else if rules.requirePickerHasSuitToCall && !HoldsFailSuit(hand, card.s) then Reject(MustHoldCalledSuit)
    else
      var hasAllFailAces, hasAllFailTens := HasAllFailAces(hand), HasAllFailTens(hand);
      if card.r == Ten && !hasAllFailAces then Reject(TenNeedsAllFailAces)
      else if hasAllFailAces && hasAllFailTens then Accept(Solo)
      else if hasAllFailAces && card.r == Ace then Reject(MustCallTen)
      else if HoldsFailRank(hand, card.r, card.s) then
        if card.r == Ace then Reject(HoldsCalledAce) else Reject(HoldsCalledTen)
      else if card in buried then Reject(CalledCardBuried)
      else Accept(CalledCard(card))
  }

  /**
   * When a call is accepted, and as what: a Solo exactly when the picker
   * holds all three fail Aces and all three fail Tens, the card itself
   * exactly when it is neither held nor buried, a Ten comes with all the
   * Aces in hand, and the all-Aces cases above do not apply.
   */
  lemma JudgeCallAccepts(rules: Ruleset, hand: seq<Card>, buried: seq<Card>, card: Card)
    ensures JudgeCall(rules, hand, buried, card) == Accept(Solo) <==>
            IsFailAceOrTen(card) && SuitRuleMet(rules, hand, card.s) &&
            HoldsAllThree(hand, Ace) && HoldsAllThree(hand, Ten)
    ensures JudgeCall(rules, hand, buried, card) == Accept(CalledCard(card)) <==>
            IsFailAceOrTen(card) && SuitRuleMet(rules, hand, card.s) &&
            card !in hand && card !in buried &&
            (card.r == Ten ==> HoldsAllThree(hand, Ace)) &&
            !(HoldsAllThree(hand, Ace) && (HoldsAllThree(hand, Ten) || card.r == Ace))
  {
    AllFailRanksIsMembership(hand);
    if IsFailAceOrTen(card) {
      HoldsFailRankIsMembership(hand, card.r, card.s);
    }
  }

  /** With the house rule on, a call in a suit the picker holds no fail card of is refused. */
  lemma SuitRuleRejects(rules: Ruleset, hand: seq<Card>, buried: seq<Card>, card: Card)
    requires IsFailAceOrTen(card) && rules.requirePickerHasSuitToCall
    requires forall c :: c in hand && c.s == card.s ==> IsTrump(c)
    ensures JudgeCall(rules, hand, buried, card) == Reject(MustHoldCalledSuit)
  {
  }

  /**
   * A Ten call without all three fail Aces in hand is refused for that
   * reason, whatever is buried and even when the Ten itself is held.
   */
  lemma TenNeedsAllAces(rules: Ruleset, hand: seq<Card>, buried: seq<Card>, card: Card)
    requires card.r == Ten && IsFailSuit(card.s) && SuitRuleMet(rules, hand, card.s)
    requires !HoldsAllThree(hand, Ace)
    ensures JudgeCall(rules, hand, buried, card) == Reject(TenNeedsAllFailAces)
  {
    AllFailRanksIsMembership(hand);
  }

  /** Holding all fail Aces and all fail Tens turns any admissible call into a Solo. */
  lemma AllAcesAndTensForceSolo(rules: Ruleset, hand: seq<Card>, buried: seq<Card>, card: Card)
    requires IsFailAceOrTen(card) && SuitRuleMet(rules, hand, card.s)
    requires HoldsAllThree(hand, Ace) && HoldsAllThree(hand, Ten)
    ensures JudgeCall(rules, hand, buried, card) == Accept(Solo)
  {
  }

  /** Holding all fail Aces but not all fail Tens, an Ace call is refused: a Ten must be called. */
  lemma AllAcesForceTenCall(rules: Ruleset, hand: seq<Card>, buried: seq<Card>, card: Card)
    requires card.r == Ace && IsFailSuit(card.s) && SuitRuleMet(rules, hand, card.s)
    requires HoldsAllThree(hand, Ace) && !HoldsAllThree(hand, Ten)
    ensures JudgeCall(rules, hand, buried, card) == Reject(MustCallTen)
  {
    AllFailRanksIsMembership(hand);
  }

  /** Past the earlier guards, calling a card the picker holds is refused with its rank's reason. */
  lemma HeldCardRejected(rules: Ruleset, hand: seq<Card>, buried: seq<Card>, card: Card)
    requires IsFailAceOrTen(card) && SuitRuleMet(rules, hand, card.s) && card in hand
    requires card.r == Ten ==> HoldsAllThree(hand, Ace) && !HoldsAllThree(hand, Ten)
    requires card.r == Ace ==> !HoldsAllThree(hand, Ace)
    ensures JudgeCall(rules, hand, buried, card) ==
            Reject(if card.r == Ace then HoldsCalledAce else HoldsCalledTen)
  {
    AllFailRanksIsMembership(hand);
    HoldsFailRankIsMembership(hand, card.r, card.s);
  }

  /** Past every other guard, calling a buried card is refused. */
  lemma BuriedCardRejected(rules: Ruleset, hand: seq<Card>, buried: seq<Card>, card: Card)
    requires IsFailAceOrTen(card) && SuitRuleMet(rules, hand, card.s)
    requires card !in hand && card in buried
    requires card.r == Ten ==> HoldsAllThree(hand, Ace) && !HoldsAllThree(hand, Ten)
    requires card.r == Ace ==> !HoldsAllThree(hand, Ace)
    ensures JudgeCall(rules, hand, buried, card) == Reject(CalledCardBuried)
  {
    AllFailRanksIsMembership(hand);
    HoldsFailRankIsMembership(hand, card.r, card.s);
  }

  /**
   * Without the house rule a call needs no card of the called suit: with
   * A♥ and five trumps in hand the picker may call A♣. Only with
   * `requirePickerHasSuitToCall` on is that call refused.
   */
  lemma BareCallAccepted()
    ensures var hand := [Card(Ace, Hearts), Card(Queen, Clubs), Card(Queen, Spades),
                         Card(Jack, Diamonds), Card(Ten, Diamonds), Card(King, Diamonds)];
            JudgeCall(DefaultRules, hand, [], Card(Ace, Clubs)) == Accept(CalledCard(Card(Ace, Clubs))) &&
            JudgeCall(Ruleset(true), hand, [], Card(Ace, Clubs)) == Reject(MustHoldCalledSuit)
  {
    var hand := [Card(Ace, Hearts), Card(Queen, Clubs), Card(Queen, Spades),
                 Card(Jack, Diamonds), Card(Ten, Diamonds), Card(King, Diamonds)];
    HoldsFailRankIsMembership(hand, Ace, Clubs);
    assert !HoldsFailSuit(hand, Clubs);
  }
}
