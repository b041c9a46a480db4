/**
 * The ruleset, the phases of a hand and the reasons an action is refused
 * (packages/engine/src/index.ts:29-35, 57, and the messages thrown at
 * 239-355).
 */
module Rules {
  /** The fixed parts of the ruleset: these are literal types in the `Ruleset` interface. */
  const Players: nat := 5
  const BlindSize: nat := 2
  const BuryCount: nat := 2

  /** The one optional part: must the picker hold a fail card of the called suit? */
  datatype Ruleset = Ruleset(requirePickerHasSuitToCall: bool)

  /** The default ruleset of `newHand`, in which the house rule is off. */
  const DefaultRules := Ruleset(false)

  datatype Phase = Bidding | Blind | Bury | Call | Play | Done

  /** One reason per message an engine operation throws with. */
  datatype Err =
    | NotInBidding
    | NotYourTurnToBid
    | AlreadyBid
    | NotInBlindPhase
    | OnlyPickerCanTakeBlind
    | NotInBuryPhase
    | OnlyPickerCanBury
    | MustBury(count: nat)
    | BuryCardNotInHand
    | NotInCallPhase
    | OnlyPickerCanCall
    | MustCallFailAceOrTen
    | MustHoldCalledSuit
    | TenNeedsAllFailAces
    | MustCallTen
    | HoldsCalledAce
    | HoldsCalledTen
    | CalledCardBuried
}
