# Sheepshead rules engine, modelled in Dafny

This project models the rules engine of a five-handed Sheepshead game
(`packages/engine/src/index.ts`) and the per-seat view the game server sends
to each client (`pov` in `apps/server/src/index.ts`).

The engine covers:

- **Cards.** Which cards are trump, the trump and fail rankings, and card
  points.
- **Tricks.** The comparison `cmpForTrick`, the led suit, and the trick
  winner.
- **The deal.** The 32-card deck, the FNV-1a seed hash, the xorshift32
  generator and the seeded Fisher-Yates shuffle. Then `newHand`, which deals
  3-2-1 from the dealer's left and puts the two blind cards after the second
  seat's first three.
- **Bidding.** The seating order, the current bidder, `legalBids` and
  `applyBid`.
- **Blind, bury and call.** `takeBlind`, `applyBury` and `applyCall`, with
  its guard chain: fail Ace or Ten only, the optional suit rule, Tens only
  with all fail Aces, forced Solo, must call a Ten, held card, buried card.
- **Legal plays.** `legalPlays`, the follow-suit filter.

Each `throw new Error(...)` becomes a returned `Err` value. There is one
variant per message, so a test on the reason is a postcondition.

The game state is a class `Engine.State` whose fields the `Apply*` methods
update in place. Each method names in its `modifies` clause the fields it may
change. It states the new value of each of those fields, and states that a
rejected action changes nothing. The single exception is the bury loop, which
splices cards out of the hand before it finds a missing one, as the source
does.

The pure parts are functions, with lemmas that state what the source
promises:

- `Calling.JudgeCall` and the lemmas that follow it;
- `Bidding.CurrentBidderOf`;
- `Tricks.CmpForTrick` and the reference winner `Tricks.WinsAmong`;
- `Dealing.HandAt`.

The loops of the source are methods proved against those functions:

- `BuildDeck`, `SeedToInt`, `Shuffle` (in place on an array copy);
- the three deal rounds;
- `CurrentBidder`, `WinnerOfTrick`, and the bury loop.

The seed is a sequence of UTF-16 code units, which is what `charCodeAt`
reads. `Math.imul` and `>>> 0` are wrap-around arithmetic on `bv32`.

`Deck.DeckHolds120Points` and its helpers are a check of the `cardValue`
table against the 120 points of a Sheepshead deck. No engine operation
depends on them.

Two observations about the view built by `pov`:

- `pov` hides the other hands but copies `seed`, `dealer` and `buried` to
  every client, through the `...state` spread. From a freshly dealt state those two determine every hand and the
  blind (`Server.SeedDisclosesDeal`).
- A seated player's view depends on the other hands only through their
  sizes (`Server.PovHidesOtherHands`).

## Model

| member | source | states |
|---|---|---|
| Cards.IsTrump | packages/engine/src/index.ts:85-87 | every Queen, Jack and Diamond is trump, so a card that is not trump is a Club, Spade or Heart below the Jacks |
| Cards.IsFailSuitCard | packages/engine/src/index.ts:37-40 | a fail-suit card is never a Diamond, a Queen or a Jack |
| Cards.TrumpIndex | packages/engine/src/index.ts:100-101 | the trump rank lies in [-1, 14); `Cards.TrumpIndexIsSearch` proves it is the `findIndex` on `TRUMP_ORDER` |
| Cards.FailIndex | packages/engine/src/index.ts:107 | the fail rank lies in [-1, 6); `Cards.FailIndexIsSearch` proves it is the `indexOf` on `FAIL_ORDER` |
| Cards.FailCardIsNonTrump | packages/engine/src/index.ts:37-40 | a card is a fail-suit card exactly when it is not trump (no Diamond escapes trump) |
| Cards.CardValue | packages/engine/src/index.ts:75-83 | values are at most 11, and a card is worth nothing exactly when it is a 9, 8 or 7 |
| Cards.TrumpOrderIsTheTrumps | packages/engine/src/index.ts:85-92 | `isTrump(c)` holds iff `c` is in `TRUMP_ORDER`, which has 14 distinct entries |
| Cards.TrumpIndexIsSearch | packages/engine/src/index.ts:100-101 | the trump rank table equals `TRUMP_ORDER.findIndex` for every card |
| Cards.FailIndexIsSearch | packages/engine/src/index.ts:93-108 | the fail rank table equals `FAIL_ORDER.indexOf` for every rank |
| Cards.TrumpIndexRange | packages/engine/src/index.ts:88-101 | a trump has its position in `TRUMP_ORDER`; a fail card has index -1 |
| Cards.FailIndexRange | packages/engine/src/index.ts:93-107 | every non-trump card's rank has a place in `FAIL_ORDER` |
| Cards.IndexOf | packages/engine/src/index.ts:100-101 | `findIndex`/`indexOf`: -1 exactly when absent, else the first position holding the element |
| Tricks.CmpForTrick | packages/engine/src/index.ts:95-110 | a trump against a fail card gives -1, and a card can only beat another when it is trump or of the led suit |
| Tricks.LedOf | packages/engine/src/index.ts:112-114 | the lead is trump exactly for a trump card; otherwise it is the card's suit, a fail suit |
| Tricks.TrumpBeatsFail | packages/engine/src/index.ts:97-99 | whatever was led, a trump beats a fail card in either argument order |
| Tricks.TrumpsFollowTrumpOrder | packages/engine/src/index.ts:96-103 | two different trumps never tie, and the comparison is antisymmetric on them |
| Tricks.OffSuitFailCardsAreIncomparable | packages/engine/src/index.ts:104-109 | under any suit lead, two non-trump cards of other suits each compare as losing to the other (1 both ways): not a total order |
| Tricks.FailCardsTieUnderTrumpLead | packages/engine/src/index.ts:96-103 | under a trump lead two fail cards compare as 0 |
| Tricks.CmpIsPower | packages/engine/src/index.ts:95-110 | a strict win under `cmpForTrick` is exactly a higher rank score, for any lead a card can set |
| Tricks.HighestPowerWins | packages/engine/src/index.ts:116-124 | the earliest play with the highest score is the winner of the reference definition and compares no worse than any play |
| Tricks.WinnerIsUnique | packages/engine/src/index.ts:116-124 | the reference definition names at most one winning play |
| Tricks.WinnerOfTrick | packages/engine/src/index.ts:116-124 | the returned seat made a play that wins by the reference definition (highest trump if any trump was played, else highest card of the led suit, with ties going to the earliest play) and that no play beats |
| Tricks.Follows | packages/engine/src/index.ts:211-213 | a card answers the lead when it is trump for a trump lead, or a non-trump of the led suit for a suit lead |
| Tricks.FollowSuit | packages/engine/src/index.ts:211-213 | the filter keeps, in hand order, exactly the cards answering the lead with their multiplicities, and is empty iff none does |
| Deck.StandardDeckIsEveryCardOnce | packages/engine/src/index.ts:126-130 | every one of the 32 cards occurs exactly once in the built deck |
| Deck.BuildDeck | packages/engine/src/index.ts:126-130 | the push loops produce the standard deck: suit-major, ranks in `RANKS` order |
| Deck.DeckIsSuits | packages/engine/src/index.ts:126-130 | the deck is the Clubs, Spades, Hearts and Diamonds runs one after another |
| Deck.DeckHolds120Points | packages/engine/src/index.ts:75-130 | the card values of the deck add up to 120 |
| Deck.FnvRound | packages/engine/src/index.ts:143-144 | one round gives 0 exactly when the xor gives 0, and the odd multiplier keeps the xor's low bit |
| Deck.Fnv1a | packages/engine/src/index.ts:140-147 | the hash's low bit is 1 xor-ed with the low bits of every code unit |
| Deck.Fnv1aAppend | packages/engine/src/index.ts:140-147 | hashing one more code unit is one xor-then-multiply round on the previous hash, the step of `seedToInt`'s loop |
| Deck.XorshiftStep | packages/engine/src/index.ts:133-138 | one xorshift32 step sends 0 to 0 and every nonzero state to a nonzero state |
| Deck.SeedToInt | packages/engine/src/index.ts:140-147 | the loop computes 32-bit FNV-1a of the seed's code units |
| Deck.SwapIndexAsWritten | packages/engine/src/index.ts:137-152 | the index as written lies in [0, i+1] and equals i+1 exactly at generator state 0xFFFFFFFF |
| Deck.SwapIndex | packages/engine/src/index.ts:137-152 | the corrected index always lies in [0, i] |
| Deck.SwapIndexFixesOnlyTopState | packages/engine/src/index.ts:137-152 | the corrected index differs from the one written exactly at state 0xFFFFFFFF, where it is i instead of i+1 |
| Deck.Swap | packages/engine/src/index.ts:153 | positions i and j are exchanged and every other position is kept |
| Deck.SwapPermutes | packages/engine/src/index.ts:153 | a swap neither adds nor loses elements |
| Deck.ShuffleFrom | packages/engine/src/index.ts:151-154 | the loop's swaps from position i down to 1, each after one generator step, with the corrected swap index `Deck.SwapIndex`; the length is kept |
| Deck.ShuffledBy | packages/engine/src/index.ts:150-155 | the whole swap loop from the last position, started at a given generator state, with the corrected swap index `Deck.SwapIndex`; the length is kept |
| Deck.Shuffled | packages/engine/src/index.ts:148-156 | `shuffle` as a function of the input and the seed's hash, with the corrected swap index `Deck.SwapIndex`; the length is kept |
| Deck.ShuffleRound | packages/engine/src/index.ts:151-154 | one pass of the loop on the array, with the corrected swap index `Deck.SwapIndex`, leaves exactly the swaps still to do |
| Deck.ShuffleFromPermutes | packages/engine/src/index.ts:148-156 | with the corrected swap index `Deck.SwapIndex`, the remaining swaps of the loop permute the sequence (the code as written does not, see Findings) |
| Deck.ShuffledPermutes | packages/engine/src/index.ts:148-156 | with the corrected swap index `Deck.SwapIndex`, `shuffle` returns a permutation of its input, of the same length (the code as written does not, see Findings) |
| Deck.ShuffleStep | packages/engine/src/index.ts:151-154 | one pass of the loop is one generator step followed by one swap with the corrected swap index `Deck.SwapIndex` |
| Deck.Shuffle | packages/engine/src/index.ts:148-156 | hashing the seed and running the swap loop on an array copy yields the reference shuffle of the input and seed, with the corrected swap index `Deck.SwapIndex`, a permutation of the input of the same length |
| Deck.SwapDown | packages/engine/src/index.ts:150-155 | the swap loop on the array, with the corrected swap index `Deck.SwapIndex`, leaves the reference shuffle for the generator's start state |
| Deck.OvershootSeedBreaksDeal | packages/engine/src/index.ts:133-154 | with seed "seed-vaudr6" the first draw is 0xFFFFFFFF, so the code as written picks j = 32 past the end of a 32-card deck; the corrected index picks 31 |
| Seats.NextSeat | packages/engine/src/index.ts:158 | the next seat is one higher, wrapping from 4 to 0 |
| Seats.SeatingOrder | packages/engine/src/index.ts:219-221 | the order has five entries; `Seats.OrderAt` says which |
| Seats.OrderAt | packages/engine/src/index.ts:219-221 | position p of the seating order is (dealer+1+p) mod 5, and the offset of that seat is p |
| Seats.DealerIsLast | packages/engine/src/index.ts:219-221 | the dealer's left-hand neighbour comes first and the dealer last |
| Seats.SeatingOrderDistinct | packages/engine/src/index.ts:219-221 | no seat is listed twice |
| Seats.AtOffset | packages/engine/src/index.ts:219-221 | each seat is listed at its offset from the dealer |
| Seats.NextSeatOrder | packages/engine/src/index.ts:219-221 | `nextSeat(dealer + i)` is the i-th seat of the seating order |
| Bidding.FirstUnbid | packages/engine/src/index.ts:226-227 | the loop's answer: nothing iff every seat listed has bid, else a listed seat without a bid before which all have bid |
| Bidding.CurrentBidderOf | packages/engine/src/index.ts:224-229 | nobody outside Bidding or once all have bid; the seat named has not bid |
| Bidding.AllPassedNoBidder | packages/engine/src/index.ts:249-256 | after five passes nobody is the current bidder, so the hand stays in Bidding with no one to act |
| Bidding.FirstBidderIsLeftOfDealer | packages/engine/src/index.ts:219-229 | before any bid the seat on the dealer's left is the current bidder |
| Bidding.CurrentBidderIsNextClockwise | packages/engine/src/index.ts:219-229 | the current bidder is s iff the phase is Bidding, s has not bid and every seat nearer the dealer's left has |
| Dealing.HandAt | packages/engine/src/index.ts:170-189 | the seat at a given offset gets six cards |
| Dealing.BlindOf | packages/engine/src/index.ts:170-177 | the blind is two cards |
| Dealing.DealUsesEveryCardOnce | packages/engine/src/index.ts:170-189 | the five hands and the blind together are exactly the deck's 32 cards |
| Dealing.PieceAtCursor | packages/engine/src/index.ts:170-189 | the running index `idx` points at the start of each seat's piece in each round |
| Dealing.DealCards | packages/engine/src/index.ts:170-187 | the inner push loop appends the next n deck cards to the seat's hand and advances `idx` by n |
| Dealing.DealBlind | packages/engine/src/index.ts:174-176 | after the second seat's first three, the blind receives deck positions 6-7 |
| Dealing.DealPosition | packages/engine/src/index.ts:171-186 | one seat's turn in a round appends its piece, and in round 1 after the second seat deals the blind |
| Dealing.DealRound | packages/engine/src/index.ts:171-187 | after a round every seat holds its cards of the rounds so far and the blind is dealt; `idx` is where the next round starts |
| Dealing.DealtAfterAll | packages/engine/src/index.ts:170-187 | after three rounds a seat holds exactly its six cards |
| Dealing.BuiltOrderIsSeatingOrder | packages/engine/src/index.ts:166 | the order `newHand` builds lists the seats from the dealer's left, each once |
| Dealing.LastRoundIsHandAt | packages/engine/src/index.ts:170-187 | after the last round each seat holds the hand of its offset |
| Dealing.DealHand | packages/engine/src/index.ts:160-189 | shuffling the built deck (with the corrected swap index `Deck.SwapIndex`) and dealing gives every seat the hand of its offset and the blind of positions 6-7; exactly 32 cards are used, so the throw cannot happen |
| Engine.State.NewHand | packages/engine/src/index.ts:160-203 | the fresh state: the deal of the deck shuffled with the corrected swap index `Deck.SwapIndex`, phase Bidding, no bids, no picker, nothing called or buried, empty piles, leader and turn at the dealer's left |
| Engine.FreshDealUsesEveryCard | packages/engine/src/index.ts:160-189 | with the corrected swap index `Deck.SwapIndex`, a fresh deal hands out every card of the deck exactly once |
| Engine.State.CurrentBidder | packages/engine/src/index.ts:224-229 | the loop returns the current bidder as defined by `CurrentBidderOf` |
| Engine.State.LegalBids | packages/engine/src/index.ts:231-235 | [Pick, Pass] iff the seat is the next clockwise without a bid during Bidding, else [] |
| Engine.State.ApplyBid | packages/engine/src/index.ts:238-258 | wrong phase or wrong seat is refused with its reason and changes nothing; a bid is accepted iff it comes from the current bidder; Pick sets picker, phase Blind and turn; Pass records only the bid |
| Engine.State.TakeBlind | packages/engine/src/index.ts:262-269 | picker only and in Blind only; the blind is appended to the picker's hand and emptied, phase Bury, turn the picker; refusals change nothing |
| Engine.State.ApplyBury | packages/engine/src/index.ts:271-284 | wrong phase, seat or count is refused with its reason and changes nothing; the bury is accepted iff every card is found and removed, and a missing card is refused as not in hand; the hand becomes what the removal leaves, even when it then fails; on success the cards are appended to `buried`, phase Call, turn the picker |
| Engine.State.TakeFromHand | packages/engine/src/index.ts:276-280 | the seat's hand becomes what the removal leaves and the count found is returned; no other seat's hand changes |
| Engine.State.FinishBury | packages/engine/src/index.ts:281-283 | the cards are appended to `buried`, phase Call, turn the picker |
| Burying.RemoveEach | packages/engine/src/index.ts:276-280 | the number of cards removed never exceeds the number asked for; its lemmas below give what is left |
| Burying.Splice | packages/engine/src/index.ts:278 | `splice(i, 1)` takes out exactly the card at i |
| Burying.RemoveEachConserves | packages/engine/src/index.ts:275-279 | the cards left plus the cards removed are the hand, counted with repeats |
| Burying.RemoveEachSucceeds | packages/engine/src/index.ts:275-279 | every card is found and removed iff the cards, counted with repeats, are contained in the hand |
| Burying.BuryTakesCardsOut | packages/engine/src/index.ts:275-279 | a successful bury leaves the multiset difference of hand and cards |
| Burying.FailedBuryLosesCards | packages/engine/src/index.ts:275-279 | burying [A♣, A♣] from [A♣, K♠] fails after removing the first A♣, which is then in neither the hand nor `buried` |
| Burying.RemoveCards | packages/engine/src/index.ts:275-279 | the loop finds and splices the cards one by one and stops at the first missing one, as the reference removal does |
| Calling.HoldsFailSuit | packages/engine/src/index.ts:42-44 | only a fail suit can be held, and only by a non-empty hand |
| Calling.HoldsFailRank | packages/engine/src/index.ts:46-48 | holding a fail rank means that card is in the hand, in a fail suit, and is not a Queen or Jack |
| Calling.IsFailAceOrTen | packages/engine/src/index.ts:308-310 | a card that may be called is a fail-suit card, never trump, worth 10 or 11 points |
| Calling.HasAllFailAces | packages/engine/src/index.ts:323 | holding all three fail Aces means holding a fail card of every fail suit |
| Calling.HasAllFailTens | packages/engine/src/index.ts:324 | holding all three fail Tens means holding a fail card of every fail suit |
| Calling.CallVerdict | packages/engine/src/index.ts:294-303 | a Solo is always accepted as a Solo; a refusal is only ever for a card call; an accepted card call is a Solo or that card |
| Calling.HoldsFailRankIsMembership | packages/engine/src/index.ts:46-48 | for a fail Ace or Ten, `holdsFailRank` is plain membership |
| Calling.AllFailRanksIsMembership | packages/engine/src/index.ts:321-324 | `hasAllFailAces`/`hasAllFailTens` hold iff the three fail Aces/Tens are in hand |
| Calling.JudgeCall | packages/engine/src/index.ts:305-355 | a card that is not a fail Ace or Ten is always refused with that reason; an accepted call is a Solo or the card itself |
| Calling.JudgeCallAccepts | packages/engine/src/index.ts:305-355 | forced Solo iff the call is admissible and all fail Aces and Tens are held; the card itself iff it is admissible, neither held nor buried, a Ten only with all Aces, and the all-Aces cases do not apply |
| Calling.SuitRuleRejects | packages/engine/src/index.ts:314-319 | with the house rule on, holding no fail card of the suit refuses the call |
| Calling.TenNeedsAllAces | packages/engine/src/index.ts:326-329 | a Ten call without all fail Aces is refused for that reason, whatever is buried or held |
| Calling.AllAcesAndTensForceSolo | packages/engine/src/index.ts:331-340 | with all fail Aces and Tens, any admissible call becomes a Solo |
| Calling.AllAcesForceTenCall | packages/engine/src/index.ts:342-345 | with all fail Aces but not all Tens, an Ace call is refused: a Ten must be called |
| Calling.HeldCardRejected | packages/engine/src/index.ts:347-351 | past the earlier guards, calling a held card is refused with its rank's reason |
| Calling.BareCallAccepted | packages/engine/src/index.ts:314-363 | with A♥ and five trumps in hand, A♣ may be called under the default rules and is refused only with the house rule on |
| Calling.BuriedCardRejected | packages/engine/src/index.ts:353-355 | past every other guard, calling a buried card is refused |
| Engine.State.ApplyCall | packages/engine/src/index.ts:286-363 | wrong phase or seat is refused; otherwise the error is exactly the guard chain's refusal, and on acceptance `called` is its verdict; any refusal changes nothing; success opens play: phase Play, leader and turn the picker, an empty trick led by the picker, and `partnerCalled` iff a card was called |
| Engine.State.StartPlay | packages/engine/src/index.ts:358-363 | records the call and opens the first trick, as this branch and the two Solo branches (lines 295-302 and 332-339) do |
| Engine.State.LegalPlays | packages/engine/src/index.ts:206-214 | nothing outside Play; the whole hand when no card is led or the seat cannot follow; otherwise a non-empty subsequence of the hand holding exactly its cards that follow the lead |
| Tricks.SubsequenceOfItself | packages/engine/src/index.ts:209-212 | `hand.slice()` keeps the hand as a subsequence of itself |
| Server.Reveal | apps/server/src/index.ts:197 | a shown hand lists the cards face up, one for one |
| Server.Mask | apps/server/src/index.ts:198-208 | a hidden pile is the same number of placeholders |
| Server.HandsView | apps/server/src/index.ts:195-199 | the redacted record has an entry for every seat |
| Server.BlindVisibleTo | apps/server/src/index.ts:201-203 | names a seat exactly when there is a picker and the phase is Blind, Bury or Call, and then it is the picker |
| Server.SeesBlind | apps/server/src/index.ts:205-208 | a seated viewer sees the blind only as the picker during Blind, Bury or Call |
| Server.Pov | apps/server/src/index.ts:194-212 | the viewer's hand, or every hand without a viewer, is shown card for card and every other hand as same-length placeholders; the blind is face up exactly for no viewer, or for the picker during Blind, Bury or Call; `bidTurn` is the current bidder and nobody outside Bidding; all other fields are copied |
| Server.PovHidesOtherHands | apps/server/src/index.ts:194-212 | two states that differ only in other seats' cards (same sizes) and in a blind the viewer may not see give the same view |
| Server.SeedDisclosesDeal | apps/server/src/index.ts:211 | the copied seed and dealer of a freshly dealt state recompute every hand and the blind |

## Left out

- The floating-point step of the shuffle (index.ts:137, 152) is computed
  with exact rationals. Double rounding of `x / 0xFFFFFFFF` and of the
  product could move `j` by one for a state lying within rounding distance
  of a multiple. The model does not capture that.
- `Deck.Shuffle`: the model uses the corrected index `Deck.SwapIndex`, so
  its deck differs from the one the code produces for a seed whose draws hit
  state 0xFFFFFFFF. There the code swaps with position i+1 (see Findings).
- `Deck.ShuffleFrom`, `Deck.ShuffledBy`, `Deck.Shuffled`,
  `Deck.ShuffleRound`, `Deck.ShuffleFromPermutes`, `Deck.ShuffledPermutes`,
  `Deck.ShuffleStep`, `Deck.SwapDown`, `Dealing.DealHand`,
  `Engine.State.NewHand` and `Engine.FreshDealUsesEveryCard` are stated for
  the corrected shuffle too. The code differs from them at every draw that
  reaches state 0xFFFFFFFF, where it swaps with i+1 instead of i:
  - at the first draw (i = 31) position 32 lies past the end of the deck,
    so the code's shuffle is not a permutation and its deal hands out
    `undefined` in place of a card (seed "seed-vaudr6",
    `Deck.OvershootSeedBreaksDeal`);
  - at any later draw i+1 is still inside the deck, so the code's shuffle
    is still a permutation, but a different one from the model's.
- `Engine.State.ApplyBury`: acceptance is stated as "the removal takes out
  every card" and the new hand as "what the removal leaves".
  `Burying.RemoveEachSucceeds`, `Burying.BuryTakesCardsOut` and
  `Burying.RemoveEachConserves` turn these into multiset containment and
  multiset difference. The method itself does not restate them.
- `Engine.State.NewHand`: card conservation over the whole table is stated
  once, on values, by `Engine.FreshDealUsesEveryCard`. It is not an
  invariant of the class.
- The unused `Action` and `Event` type declarations (index.ts:8-27) are not
  modelled.
- Scoring is not modelled. Of the scoring code only the `cardValue` table is
  kept.
- Nothing in the source plays a card or ends a trick, so the Play and Done
  phases have no operations here.
- `applyBid` returns the state it was given. The model returns only the
  error, and the state is the receiver.
- The type-level `players: 5`, `blindSize: 2` and `buryCount: 2` of
  `Ruleset` are constants. Only `requirePickerHasSuitToCall` is data.
- `nextSeat(dealer + k as Seat)` in `newHand` is not reduced mod 5 before
  `nextSeat`. The model reduces it first, which gives the same seat.
- The rest of `apps/server/src/index.ts` is not modelled: the HTTP and
  WebSocket server, seat assignment, broadcasting, the global mutable state
  and error messages to clients. Its call announcement string is also left
  out.
- `apps/web/src/ui/App.tsx` (the browser user interface) is not part of
  this model.
- Two groups of tests expect a refusal mentioning a "hold card" under
  the default ruleset: engine.test.ts:68-80 and 101-108. The code accepts
  those calls, as `Calling.BareCallAccepted` shows, and no message in the
  code mentions a hold card. calling.test.ts:56-68 asserts the opposite.
  The model follows the code.
- `isCardCall` tests `payload.card != null`. The model's payload is a
  datatype with a Solo case and a card case, so a payload carrying
  `card: null` or extra fields is not represented.
- Cards are compared by rank and suit, as `findIndex` and `some` in the
  source do. Object identity and aliasing of card objects are not
  modelled.
- There is no concurrency in the engine.

## Findings

| source | as written | input that shows it | evidently intended | confidence | as-written member | corrected member |
|---|---|---|---|---|---|---|
| packages/engine/src/index.ts:137-152 | `j = floor((x >>> 0) / 0xFFFFFFFF * (i + 1))`, which equals `i + 1` when the generator state is 0xFFFFFFFF | seed "seed-vaudr6": FNV-1a gives 0x5e6cfce7, and the first xorshift step gives 0xFFFFFFFF, so at i = 31 the swap uses `a[32]`, past the end of the 32-card deck: `a[31]` becomes `undefined` and the card it held moves to `a[32]`, which the deal never reads | a swap index in [0, i], so that the shuffle is a permutation | high; not executed | Deck.SwapIndexAsWritten, Deck.OvershootSeedBreaksDeal | Deck.SwapIndex, Deck.ShuffledPermutes |
