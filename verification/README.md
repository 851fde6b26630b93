# A poker hand, from the shuffle to the payout

This project models one table of the poker backend and proves what its code keeps:
the hand state machine with its blinds, betting rounds, deals and side pots; the
scoring and settlement it calls; the seeded shuffle and the commit-reveal proof that
feed the deck; the engine that opens a table, plays and logs it; the command-line check
of a logged hand; and two arithmetic cores beside them, ICM payouts and collusion scores.

## How it is built

`Machine` describes one action on plain values: `Step` is the code's branch table, with
every `throw` as a rejected step. `HandStateMachine`, `GameState`, `SettlePots`,
`Engine`, `Journal` and the loops of `Verify`, `HandEvaluation`, `BestHand`, `Splitter`,
`IcmRounding` and `Collusion` are the code's own imperative shape, classes and loops
that update records, arrays and sequences in place, each proved to do exactly what the
value-level function says. The theorems are about the values, so they hold of the
objects too: the constructor of `GameEngine` makes a table that `Engine.OpeningIsFresh`
shows to be where those theorems start, and `HandStateMachine.ApplyAll` and
`Engine.PlayedRunIsRun` take whole plays of the objects to whole runs of the model.

## Main results

* **Chips.** From a new table, over any number of hands and any actions, accepted or
  rejected, stacks plus pot keep their total exactly when no fold takes the last
  contender away from a side pot of an earlier round, a condition the guard of `fold` could
  check. When one does, the loss is exactly what those pots held. The property tests and
  `docs/reports/backend-test-failures.md` expect conservation without a condition;
  `LostChip.BigBlindFoldLosesChips` is the hand of seven actions that ends with 199 of 200 chips.
* **Actions.** Each action is pinned by what it moves: a wager moves exactly the chips it
  names and is refused exactly when player, amount or stack forbid it, a call is a bet of
  what is owed, a check changes nothing, a fold folds the player named, and after a hand
  everybody sits at a new table.
* **Cards.** From the last blind to the reset, deck, hole cards and board are together
  the 52 cards, each once, whatever the shuffle draws. The deck is never rebuilt in
  mid-hand, the board is never found already dealt, and a deal fails exactly when one
  deck does not hold the cards, which takes more than 23 players. The shuffled deck decides
  where each card lies: two for each of up to 26 players from its end, in seat order, then
  the board, with none burnt. A machine shuffles every hand with the same seed, so all its
  hands start from the same deck.
* **Course of a hand.** Phase and street fix the size of the board; a showdown has one
  unfolded player or a full board, and then everybody has seven different cards; in any
  run, whatever else is done in between, the tenth accepted `next` at the latest ends the
  hand.
* **Pots.** The layers of a round hold exactly the bets, each player's recorded
  contributions are its bet, and what an unfolded player contests is its bet matched by
  everyone. A pot can be won by somebody who has not paid into it exactly when all who have
  paid have folded. The displayed split is the same split with an uncalled top layer
  counted into the main pot.
* **Stakes.** Through every run of one hand, however many rounds it has, each player's
  stack, bet and recorded contributions are what it came with; its journal entry is what
  the pots pay it minus its contributions, so nobody loses more than it paid in.
* **Settlement.** Every contested pot goes to the last chip to its highest-scoring hands, in equal
  shares up to a remainder smaller than their number; the order of the pots does not
  matter, and settling twice is settling once. In terms of the cards, a contender wins if
  and only if its own cards and the whole board hold, against every other contender's, five
  cards that no five of the other outscore.
* **Hands.** The five nested loops find the maximum over all choices of five cards. The
  decision list gives every five cards the category and kickers that their suits, the
  ranks in a row and the copies of each rank define (`HandReference`). The
  score's order is given exactly, and it does not follow the order of the categories that
  the code numbers: a category with fewer kickers always loses.
* **Showdowns.** What that means for seven cards is given exactly too. A hand is scored by
  the five cards with the most kickers; it is scored by its strongest category if and only
  if no five of its cards have more kickers than that category. So a hand that can show
  five different ranks that make no straight is scored as a high card or a flush, whatever
  else it holds, and beats every hand that cannot: in
  `ShowdownOrder.RoyalFlushLosesShowdown` a royal flush is paid nothing and a queen high
  takes the pot.
* **Shuffle.** The draw is a signed word, so an index can be negative and an entry
  undefined. Item by item, the last place takes the item at the index drawn for it and the
  rest is the shuffle of what is left. The shuffle is a permutation exactly when no draw is
  negative; the deck built from it is complete always, the cards kept in shuffled order and
  behind them the lost ones from the lowest up; and the deck dealt is the deck the proof reveals
  exactly when no draw is negative (`Deck.SpoiltReveal` is a generator for which it is not).
* **The check of a logged hand.** `bin/verify-proof.ts` compares the deck of the first
  logged state, the one before the first blind, with the shuffled deck. The engine's tables
  start without a deck, so the check refuses every hand the engine logs. Looking elsewhere
  in the log would not help: no logged state shows a whole deck.
* **ICM.** Expectations follow permutations of the stacks, larger stacks never expect
  less, and all of them add up to the prizes. Rounded payouts add up to the prizes and
  are the expectation rounded down, or one more. All this is for stacks of nothing, too:
  the recursion divides by zero exactly when there are more prizes than players with chips
  and somebody has none. The player
  handbook gives the rounding remainder to the highest equities; the code gives it to the
  largest fractions, and the model follows the code. `IcmRounding.HandbookRule` says exactly
  when both serve the same players. Its promise that every rounding error stays below one
  chip is true of the code (`IcmRounding.ErrorsBelowOne`). Its example pays the prizes 50, 30
  and 20 to stacks of 5000, 3000 and 2000; the code pays 38, 33 and 29, while the
  handbook's own rounding would give the leader a chip first (`IcmRounding.HandbookExample`).
  A player with chips is worth the whole first prize exactly when the place of the last
  player with chips pays as much, or when nothing is paid (`IcmPayouts.WholeFirstPrize`).
* **Collusion.** The chip-dump score lies between 0 and one half and is 0 or one half
  for a pair; the correlation lies in [-1, 1] by Cauchy-Schwarz.

## Model

| member | source | states |
|---|---|---|
| Runs.HandsConserveChips | backend/src/game/state-machine.ts:59-262 | Over every run of complete hands from a new table, stacks plus pot keep their total if and only if no fold of the run took the last contender away from an already built side pot. |
| Runs.ChipsConserved | backend/src/game/state-machine.ts:59-178 | Over every run, the total falls by exactly what the pots without a contender held when they were settled; it is unchanged if and only if none was. |
| Runs.ChipsConservedWithoutOrphans | backend/src/game/state-machine.ts:59-178 | Any run without an orphaning fold, stopped anywhere, has conserved every chip. |
| Runs.OnlyFoldsOrphan | backend/src/game/state-machine.ts:97-145 | Of all accepted actions exactly the orphaning folds make a contested side pot uncontestable. |
| Runs.DeadPotsAreLost | shared/poker/sidePots.ts:206-208 | A pot without a contender cannot come back to life: every run that finishes the hand settles it as lost. |
| Runs.StepKeeps | backend/src/game/state-machine.ts:59-178 | Every action keeps the whole invariant (chips, pots, cards, phase), and every chip except those of dead pots at settlement. |
| LostChip.BigBlindFoldLosesChips | backend/src/game/state-machine.ts:115-145 | With two players and blinds of 1 and 2, the big blind folding after the flop leaves exactly 199 of the 200 chips of the start. |
| HandStateMachine.HandStateMachine.Apply | backend/src/game/state-machine.ts:59-178 | The object's new state is the model's step of its old one; a rejected action names its error and changes nothing. |
| HandStateMachine.HandStateMachine.ApplyAll | backend/src/game/state-machine.ts:59-178 | A list of actions takes the object where the model's run goes, so every theorem about runs holds of the object. |
| Actions.WagerPlayed | backend/src/game/state-machine.ts:98-105 | In a betting round a bet, raise or late blind of a known player is accepted if and only if its amount is positive and within the stack; then exactly that amount goes from the stack to the bet and the pot, and nobody else changes. |
| Actions.CallPlayed | backend/src/game/state-machine.ts:106-111 | A call is a bet of what the player is short of the current bet. |
| Actions.CheckPlayed | backend/src/game/state-machine.ts:112-114 | A check is accepted and changes nothing. |
| Actions.FoldPlayed | backend/src/game/state-machine.ts:115-145 | A fold folds the player named and changes nothing else, or, with one player left, also closes the round and goes to the showdown. |
| Actions.NextPlayed | backend/src/game/state-machine.ts:120-130 | `next` adds exactly the pots of the round, clears the bets, keeps all else and goes one street on, from the river to the showdown. |
| Actions.BlindPlayed | backend/src/game/state-machine.ts:61-79 | Before the deal only blinds are accepted, by the same rule as bets; the blind of the last player opens the hand and moves no other chips. |
| Actions.OnlyNext | backend/src/game/state-machine.ts:80-175 | A deal, a showdown and a settled hand refuse everything but `next`. |
| Actions.DealtBoard | backend/src/game/state-machine.ts:80-96 | At any table, an accepted deal leaves a board of the size of its street and changes only deck, board and phase. |
| Actions.MisdealtBoard | backend/src/game/state-machine.ts:264-275 | The error of a board already dealt is raised if and only if the board has not the size it should have before its street. |
| Actions.HandCleared | backend/src/game/state-machine.ts:155-175 | After a hand every player has its id and stack and nothing else, and the table is empty. |
| HandStateMachine.HandStateMachine.PlaceBetOn | backend/src/game/state-machine.ts:199-216 | Updates one player record, the pot and the current bet in place, or reports which of the two amount checks failed and changes nothing. |
| Chips.PlaceBetKeeps | backend/src/game/state-machine.ts:199-216 | An accepted bet keeps the total, keeps the pot equal to side pots plus bets and the current bet equal to the largest bet, and touches one player. |
| Chips.CallMatches | backend/src/game/state-machine.ts:106-111 | What a call owes is never negative; the call is accepted if and only if it owes something the stack can pay, and then matches the largest bet. |
| HandStateMachine.HandStateMachine.FinishBettingRound | backend/src/game/state-machine.ts:218-262 | In place, adds the round's layers to the side pots and clears every bet, or only the current bet when nobody has bet. |
| HandStateMachine.BuildPots | backend/src/game/state-machine.ts:225-256 | The loop over the levels builds the layers the fairness lemmas are about. |
| Chips.FinishRoundChips | backend/src/game/state-machine.ts:218-262 | Closing a round keeps every total, the seats and the pot equation, and leaves no bet. |
| Layers.RoundPotsHoldBets | backend/src/game/state-machine.ts:225-256 | The pots of a round hold exactly what was bet, and none is empty. |
| Layers.ContributionsAddUp | backend/src/game/state-machine.ts:234-237 | What the pots record a player as having paid adds up to its bet. |
| Layers.PotsArePaid | backend/src/game/state-machine.ts:232-253 | The recorded contributions to each pot add up to its amount. |
| Layers.ContestedIsMatched | backend/src/game/state-machine.ts:229-253 | The pots an unfolded bettor paid into and can win total the sum over all players of the smaller of their bet and its own. |
| Layers.UnpaidContenders | backend/src/game/state-machine.ts:230-253 | Everybody who can win a pot of the round has paid into it if and only if somebody who has paid into it is unfolded. |
| Layers.RoundPotsList | backend/src/game/state-machine.ts:230-253 | Each pot of a round lists exactly its unfolded payers, or, if all payers have folded, everybody unfolded, or, if everybody has folded, its payers; contributions are listed for exactly payers and players listed. |
| Layers.RoundPotsAreLive | backend/src/game/state-machine.ts:238-248 | Every pot built while somebody is unfolded has an unfolded contender. |
| Splitter.CalculateSidePots | shared/poker/sidePots.ts:10-37 | The loop returns the layers after the first, and main plus side pots is the given total. |
| Splitter.SplittersAgree | shared/poker/sidePots.ts:10-37 | Its layers are those of the betting round, without the last one when a single bet is highest, and sum to what the bets hold up to the second highest. |
| Splitter.OnlyPositiveCount | shared/poker/sidePots.ts:14-17 | Missing, zero and negative commitments count for nothing. |
| Splitter.MainHolds | shared/poker/sidePots.ts:32-36 | When the total is what has been bet, main is the round's first layer plus the uncalled top layer of a lone highest bet. |
| Stakes.StakesStay | backend/src/game/state-machine.ts:59-262 | Over every run of one hand up to its settlement, each player's stack, bet and recorded contributions together are what it came with. |
| Stakes.HandResult | backend/src/game/settlement.ts:32-46 | At the settlement of a hand each player's delta is its payouts minus its recorded contributions, at least minus those, and exactly minus those for who has folded. |
| Hands.ReachableStates | backend/src/game/state-machine.ts:59-346 | In every state of every run: pot equals side pots plus bets, current bet is the largest bet, all 52 cards are placed once during a hand, the board has the size of its street, and a showdown has no bets and one player or a full board. |
| CardFlow.FirstDealKeeps | backend/src/game/state-machine.ts:67-73 | The deal that opens a hand puts each card into the deck or one hand, two for each player while the deck lasts. |
| Dealing.DealtInOrder | backend/src/game/state-machine.ts:67-73 | In every run, whenever cards are out, player i of up to 26 holds cards 2i and 2i + 1 from the end of the shuffled deck, the board is the cards after the last hand, and the deck left is the rest. |
| CardFlow.DeckToDeal | backend/src/game/state-machine.ts:277-306 | At any table, cards come from the deck at hand if its size fits the cards not in use and suffices, else from all cards not in use, shuffled anew, else not at all. |
| CardFlow.NeverRebuilt | backend/src/game/state-machine.ts:277-306 | With every card in one place the size check passes: the deck is used as it stands or is too short. |
| CardFlow.DealCommunityKeeps | backend/src/game/state-machine.ts:333-346 | Dealing to the board succeeds if and only if the deck has the cards, extends the board, and keeps all 52 cards placed once. |
| Hands.DealingNeverFails | backend/src/game/state-machine.ts:80-96 | `next` in a deal is accepted if and only if one deck covers two cards each, the board and the new cards; the only error is insufficient cards, and never with 23 players or fewer. |
| Hands.ShowdownHandsAreFull | backend/src/game/state-machine.ts:146-154 | A showdown between several players is scored on seven different cards each. |
| Hands.NextAdvances | backend/src/game/state-machine.ts:120-175 | Each accepted `next` brings the end of the hand exactly one nearer, and with up to 23 players every one is accepted. |
| Hands.OthersNeverDelay | backend/src/game/state-machine.ts:97-145 | No other action moves a hand away from its end. |
| Hands.HandsEnd | backend/src/game/state-machine.ts:59-178 | In every run from a state after the blinds, other and rejected actions interleaved, the next hand has come up once `next` has been accepted as often as the state needs, at most ten times. |
| Hands.AskedHandsEnd | backend/src/game/state-machine.ts:59-178 | With at most 23 players it suffices that the run asks for `next` that often. |
| Hands.RunPlayersStay | backend/src/game/state-machine.ts:59-178 | Every run leaves the same players in the same seats. |
| HandStateMachine.HandStateMachine.BuildFreshDeck | backend/src/game/state-machine.ts:308-331 | The shuffle and the two repair loops build the model's deck. |
| Deck.BuildDeckIsComplete | backend/src/game/state-machine.ts:308-331 | For every seed, undefined entries included, the deck is a permutation of the cards not excluded. |
| Deck.BuildDeckOrder | backend/src/game/state-machine.ts:308-331 | The deck starts with what the shuffle left defined, in that order, and goes on with what it lost, from the lowest card up. |
| Deck.DealtDeckIsRevealed | backend/src/game/rng.ts:22-36 | The deck the state machine builds from a generator equals the deck its proof reveals if and only if none of the 51 draws is negative. |
| Deck.SpoiltReveal | shared/verify/index.ts:33-47 | A concrete generator whose revealed deck is not the deck dealt. |
| ProofCheck.EveryHandIsRefused | bin/verify-proof.ts:17-36 | For every seed and every play of the engine the check ends in a mismatch, or finds no deck when nothing was accepted; no state of the log, before or after any action, holds the deck it compares with. |
| ProofCheck.CheckMeaning | bin/verify-proof.ts:31-36 | For a revealed proof the check accepts exactly the logs whose first state holds the deck the proof reveals. |
| Engine.GameEngine.constructor | backend/src/game/engine/index.ts:48-73 | New records, an empty deck, journal and log, and the initial stacks by id. |
| Engine.OpeningIsFresh | backend/src/game/engine/index.ts:48-71 | Every table opened for two or more different players is one the theorems about runs start from, with the stacks as the chips in play. |
| Engine.GameEngine.ApplyAction | backend/src/game/engine/index.ts:150-174 | Plays the action, settles a showdown at once, logs the states before and after, and enters the deltas in the journal exactly when a hand is settled; a rejected action changes nothing. |
| Engine.PlayedRunIsRun | backend/src/game/engine/index.ts:150-171 | Every play through the engine is the run of the machine over the actions sent to it, with a `next` after each that leads to a showdown; the second settlement and the engine's own showdown rule change nothing. |
| Engine.SettlesMeaning | backend/src/game/engine/index.ts:163-167 | Outside a showdown, an action settles the hand if and only if it leaves the table settled, and no action leaves it at a showdown. |
| Engine.LogReplays | backend/src/game/engine/index.ts:205-224 | The log leads from the first table to the last in accepted actions, each from where the one before ended, and replaying its actions gives the same tables and log. |
| Engine.PlayedFolds | backend/src/game/engine/index.ts:150-171 | Some fold of that run orphans a pot if and only if one of the folds sent to the engine does. |
| Engine.PlayConservesChips | backend/src/game/engine/index.ts:150-171 | Between hands the engine's table holds the chips it was opened with if and only if none of the folds sent to it took the last contender from a side pot. |
| Verify.Shuffle | shared/verify/index.ts:41-50 | The loop with its draw counter does the composition of swaps on an array indexed by all integers. |
| Verify.ScaledIndexRange | shared/verify/index.ts:33-46 | The index drawn never exceeds its position, nor half of it rounded up, and is negative if and only if the word is. |
| Verify.ShuffleDraws | shared/verify/index.ts:41-50 | The last entry is the item at the index drawn for it, or undefined for a negative index; otherwise the rest is the shuffle of what is left, with the last item in the place of the one drawn. |
| Verify.EntryDrawn | shared/verify/index.ts:44-48 | With negative indices too, each entry is what its pick found in the array when its turn came. |
| Verify.WordOfDraw | shared/verify/index.ts:25-32 | Each draw hashes the seed followed by the number of the draw, written in decimal. |
| Verify.WordOfDigest | shared/verify/index.ts:32-35 | The draw is the first four bytes, highest first, as a signed 32-bit number. |
| Verify.DrawsInTurn | shared/verify/index.ts:43-46 | Draw k is used for position n - 1 - k, and its index is its fraction of the places there, rounded down. |
| Verify.ShuffleDrawsItems | shared/verify/index.ts:41-50 | Whatever is drawn, each defined entry is an item of the input and no item is used twice. |
| Verify.ShuffleDefined | shared/verify/index.ts:41-50 | Every entry is defined if and only if no index is negative. |
| Verify.ShuffleIsPartialPermutation | shared/verify/index.ts:41-50 | The length is kept, nothing is used more often than it occurs, and the result is a permutation if and only if no index is negative. |
| Verify.HexToBytes | shared/verify/index.ts:4-10 | Fills the array with the two-digit values, `parseInt` and the byte truncation included. |
| Verify.PairMeaning | shared/verify/index.ts:7 | Every pair of characters, digits or not, with the byte it gives. |
| Verify.BytesRoundTrip | shared/verify/index.ts:4-16 | `hexToBytes` undoes `bytesToHex` on every byte sequence. |
| Verify.HexRoundTrip | shared/verify/index.ts:4-16 | `bytesToHex` undoes `hexToBytes` if and only if the string is an even number of lower-case digits. |
| Verify.CommitmentBinds | shared/verify/index.ts:18-23 | Short of a hash collision, a second proof for an accepted commitment is accepted if and only if it reveals the same bytes, and these are the same seed and nonce if and only if they are cut at the same place. |
| Verify.SeedHashedFirst | shared/verify/index.ts:18-23 | The hash sees the seed before the nonce. |
| Rng.RevealIsAccepted | backend/src/game/rng.ts:13-36 | Every proof revealed is accepted, for any seed, nonce and hash, and its seed replays the revealed deck. |
| HandEvaluation.ComputeScore | shared/poker/sidePots.ts:60-66 | The loop computes the base-15 number of category and kickers. |
| HandEvaluation.EvaluateFive | shared/poker/sidePots.ts:68-141 | The straight search, the count map and the sorts give the model's value of five cards. |
| HandMeaning.EvaluateClassifies | shared/poker/sidePots.ts:94-140 | For five different cards the decision list equals a classification that reads only the sorted multiplicities, the straight and the flush. |
| HandReference.FlushMeaning | shared/poker/sidePots.ts:70-71 | Five different cards are a flush or straight flush if and only if they share a suit, whichever it is. |
| HandReference.StraightValue | shared/poker/sidePots.ts:73-92 | They are a straight, plain or flush, if and only if their ranks are five in a row or the wheel, and their one kicker is the top of the row. |
| HandReference.GroupedValue | shared/poker/sidePots.ts:94-140 | The other categories by how many cards share a rank, and, without a row, the kickers: every rank once, more copies first, then the higher. |
| HandMeaning.EvaluateIgnoresOrder | shared/poker/sidePots.ts:68-141 | The value depends on the five cards, not on their order. |
| Straights.StraightMeaning | shared/poker/sidePots.ts:73-92 | The detector finds exactly the five consecutive ranks, by their top, and the wheel, as rank 3. |
| HandOrder.HandsAreHandLike | shared/poker/sidePots.ts:103-140 | Every five different cards get the kicker count of their category, each kicker a rank. |
| HandOrder.ScoreOrder | shared/poker/sidePots.ts:58-66 | One score is lower if and only if it has fewer kickers, or as many and a weaker category, or the same category and lexicographically lower kickers; scores are equal if and only if category and kickers are. |
| HandOrder.CategoriesRanked | shared/poker/sidePots.ts:41-66 | Between two hands of different categories the score agrees with the categories if and only if the stronger one has no fewer kickers. |
| HandOrder.TiesAreEqualValues | shared/poker/sidePots.ts:58-141 | Two hands score the same if and only if category and kickers agree, and within a category the kickers decide. |
| ShowdownOrder.LooseHandsScoreHigh | shared/poker/sidePots.ts:143-160 | A hand of five or more different cards is scored as a high card or a flush, and above all other hands, if and only if five of its cards have different ranks and make no straight. |
| ShowdownOrder.LooseBeatsTight | shared/poker/sidePots.ts:143-160 | A hand with five such cards beats every hand without. |
| ShowdownOrder.ScoredHand | shared/poker/sidePots.ts:143-160 | Five cards are the ones a hand is scored by if and only if none of its other fives has more kickers, or as many and a stronger category, or the same category and better kickers. |
| ShowdownOrder.ScoredByCategory | shared/poker/sidePots.ts:143-160 | A hand is scored by its strongest category if and only if no five of its cards have more kickers than that category. |
| ShowdownOrder.RoyalFlushLosesShowdown | shared/poker/sidePots.ts:182-218 | A concrete showdown on seven cards each: the royal flush is paid nothing and a queen high the whole pot. |
| HandOrder.RoyalFlushLoses | shared/poker/sidePots.ts:103-140 | Two concrete hands: a royal flush scores below a seven high. |
| BestHand.EvaluateHand | shared/poker/sidePots.ts:143-160 | The five nested loops return the best score of the cards, or the error for fewer than five. |
| BestHand.BestScoreIsBest | shared/poker/sidePots.ts:143-160 | That score is reached by some five of the cards and exceeded by none. |
| BestHand.BestScoreMonotone | shared/poker/sidePots.ts:143-160 | It does not change with the order of the cards and never drops when cards are added. |
| SettlePots.SettleAll | shared/poker/sidePots.ts:178-222 | In place, pot after pot, stacks end up as the payout function says and pot and side pots are cleared, unless everybody has folded. |
| SettlePots.FindWinners | shared/poker/sidePots.ts:210-211 | The maximum and the filter give the best contenders in seat order. |
| Showdowns.ScoresAreBest | shared/poker/sidePots.ts:182-193 | Each player is settled on the best five of its own cards and the whole board, and on 0 with fewer than five. |
| Showdowns.WinnersByCards | shared/poker/sidePots.ts:207-211 | A contender wins a pot if and only if it holds, against every contender, five cards that no five of the other outscore. |
| Showdowns.PaidByCards | shared/poker/sidePots.ts:206-218 | At a contested showdown of the machine such a contender is paid at least an even share of the pot, rounded down, and every other contender nothing of it. |
| Showdowns.ShowdownSettled | backend/src/game/state-machine.ts:146-154 | The settling step raises each stack by what the side pots pay it, clears pot and side pots and keeps all else. |
| Showdowns.SinglePot | shared/poker/sidePots.ts:195-204 | Without side pots there is one pot of the whole amount, open to exactly those who have not folded. |
| Showdowns.NobodyToPay | shared/poker/sidePots.ts:179-180 | With everybody folded nothing changes. |
| Settlement.PotIsPaidOut | shared/poker/sidePots.ts:206-218 | A pot with a contender is paid out to the last chip; one without pays nothing. |
| Settlement.PayoutSplit | shared/poker/sidePots.ts:207-217 | A beaten contender gets nothing; equals get the same, but for the first in seat order, who takes a remainder smaller than the number of winners. |
| Settlement.PaidIsFair | shared/poker/sidePots.ts:206-218 | No stack falls, and a folded player's record does not change. |
| Settlement.PaidTotal | shared/poker/sidePots.ts:206-218 | Over all pots the stacks gain exactly the pots minus those nobody can win. |
| Settlement.PotOrderIsIrrelevant | shared/poker/sidePots.ts:206-218 | Any order of the same pots gives the same stacks. |
| Settlement.SettlementTotal | shared/poker/sidePots.ts:178-222 | Settlement keeps stacks plus pot if and only if every side pot has a contender. |
| Settlement.SettlementIsIdempotent | backend/src/game/engine/index.ts:163-167 | Settling once more after the machine has settled changes nothing. |
| Journal.RecordDeltas | backend/src/game/settlement.ts:32-46 | Appends to the journal, and returns, one entry per player in seat order: the stack minus the initial one, or minus 0 for an unknown id. |
| Journal.SettlementJournal.Record | backend/src/game/settlement.ts:9-11 | Appends the entry and keeps the others. |
| Journal.SettlementJournal.GetAll | backend/src/game/settlement.ts:13-15 | Returns all entries in the order they were recorded. |
| Journal.SettledDeltasBalance | backend/src/game/settlement.ts:32-46 | At SETTLE the deltas name each player once in seat order and sum to minus what dead pots swallowed: to zero if and only if no fold orphaned a pot. |
| Icm.RivalOrderIsIrrelevant | shared/utils/icm.ts:20-38 | A player's expectation does not depend on the order of its rivals. |
| IcmPayouts.ExpectationsFollowStacks | shared/utils/icm.ts:20-38 | Permuting the stacks permutes the expectations the same way. |
| Icm.ExpectationBounds | shared/utils/icm.ts:20-38 | With prizes between 0 and a cap, so is the expectation. |
| Icm.ExpectationGrows | shared/utils/icm.ts:20-38 | With ranked prizes, more chips against the same rivals never lower the expectation. |
| IcmPayouts.LargerStacksExpectMore | shared/utils/icm.ts:20-38 | With ranked prizes, the larger of two stacks at one table never expects less. |
| IcmPayouts.ExpectationsAddUp | shared/utils/icm.ts:20-38 | All expectations together are the prizes there are players for. |
| Icm.WorthFirstPrize | shared/utils/icm.ts:20-38 | With ranked prizes a player's chips are worth the whole first prize if and only if that prize is nothing or the place behind all rivals with chips pays as much. |
| IcmPayouts.WholeFirstPrize | shared/utils/icm.ts:20-38 | At a table, a player with chips expects the whole first prize if and only if the place of the last player with chips pays as much, or nothing is paid. |
| IcmPayouts.SolventStep | shared/utils/icm.ts:23-30 | For non-negative stacks: each prize has a player with chips, or everybody has chips, if and only if this table has chips and, when a prize is left after the first, every table one player smaller meets the same condition for one prize less. |
| IcmRounding.IcmRecursive | shared/utils/icm.ts:20-38 | For non-negative stacks the recursion with its two accumulating loops returns each player's expectation if and only if there are no more prizes than players with chips, or nobody is without; otherwise an entry is not a number. |
| IcmRounding.RemainderFits | shared/utils/icm.ts:9-11 | Rounding the expectations down leaves, of the prizes there are players for, fewer chips than players. |
| IcmRounding.CalculateIcmPayouts | shared/utils/icm.ts:4-18 | Not a number exactly when the recursion divides by zero; out of players exactly when more chips remain than players; otherwise each payout is its floor or one more, larger fractions and then earlier seats first, and with a player for every prize they sum to the prizes exactly. |
| IcmRounding.ServedByPlace | shared/utils/icm.ts:9-17 | The payouts exactly: a player gets its floor, and one more if and only if fewer players than chips to hand out have a larger fraction or the same one and an earlier seat. |
| IcmRounding.HandbookRule | shared/utils/icm.ts:12-16 | The players handed a chip are those with the highest expectations if and only if no player is handed one while a player with more whole chips is too far down the fractions. |
| IcmRounding.ErrorsBelowOne | shared/utils/icm.ts:4-18 | With a player for every prize each payout differs from the expectation by less than one chip. |
| IcmRounding.HandbookExample | shared/utils/icm.ts:4-18 | Stacks of 5000, 3000 and 2000 playing for 50, 30 and 20 are paid 38, 33 and 29, and the leader, who expects most, is handed no chip. |
| Collusion.Balances | shared/analytics/collusion.ts:61-65 | The record holds everyone involved once with what they received less what they sent, and sums to zero. |
| Collusion.NetIsReceivedLessSent | shared/analytics/collusion.ts:61-65 | A balance is the sum of all amounts received less the sum of all sent. |
| Collusion.DetectChipDump | shared/analytics/collusion.ts:60-69 | Returns the largest absolute balance of those involved over the sum of all of them, or 0 when that is 0; never below 0 or above one half. |
| Collusion.DumpScoreBounds | shared/analytics/collusion.ts:66-68 | For balances that sum to zero the score is 0 if and only if all are level, else between one over their number and one half. |
| Collusion.PairScore | backend/src/analytics/collusion.ts:98-114 | On the transfers between two players the score is 0 or one half. |
| Collusion.CauchySchwarz | shared/analytics/collusion.ts:97-106 | The square of the accumulated numerator is at most the product of the two deviation sums. |
| Collusion.DeviationsCancel | shared/analytics/collusion.ts:95-102 | The deviations from the mean sum to zero. |
| Collusion.ShiftedLists | shared/analytics/collusion.ts:95-106 | Shifting a list moves its mean along and leaves the accumulated sums alone. |
| Collusion.SelfCorrelation | shared/analytics/collusion.ts:90-108 | A list that is not constant correlates with itself at exactly 1. |
| Collusion.CalculateVpipCorrelation | shared/analytics/collusion.ts:90-108 | Returns the correlation of the two lists, 0 for unusable ones, and always a number in [-1, 1]. |

## Left out

- Undefined hole cards: with more than 26 players the deck runs out during the first deal; those players are modelled with fewer cards instead of undefined ones.
- The filter at the start of `ensureDeckCapacity` (backend/src/game/state-machine.ts:278-283): decks are lists of card numbers by type, so it has nothing to remove.
- Fractional and unsafe numbers: chip amounts are unbounded integers; ICM, collusion scores and the scaled draw use exact reals or integers, without floating-point rounding.
- SHA-256 internals, randomness of seeds and uniformity of the shuffle: the hash is any function to 32 bytes, seed and nonce are parameters.
- Tables with a shared id or the same record in two seats: distinct ids are required of a table, since every lookup goes by id.
- The small and big blind settings and the optional amount of a call, which the state machine does not read.
- Aliasing inside one loop pass: closing a round and settling read the seats once at the start of the call and write the records one by one, as no other writer can intervene.
- HandEvaluation.EvaluateFive: requires five cards, the only number its caller passes.
- IcmRounding.IcmRecursive: requires stacks that are not negative, and says of a list with a not-a-number entry only that there is one, not which.
- Icm.Expectation at a table without chips is 0 in the model; the lemmas about single expectations hold with that convention, and IcmPayouts.ExpectationsAddUp and the rounding ask for a table where it is not needed.
- Icm.ExpectationGrows: requires prizes that do not grow down the ranking, without which it is not true.
- Collusion.CalculateVpipCorrelation: takes the square root as an exact function.
- IcmRounding.CalculateIcmPayouts: when more chips remain than players, states only that the call fails.
- Engine.GameEngine.ApplyAction: the part of settling a hand that awaits the wallet, the database or the event stream is not modelled; with a database the journal entry comes after that wait.
- The one-line form of a log kept in the database, in which `bin/verify-proof.ts` finds no deck; the model checks the file with one line for each action.
- Wallet, tournament services, ratings, the tournament simulator, and the other collusion helpers (shared addresses, synchronised betting, similarity scores): not modelled.
- Room workers, gateways, storage, metrics and the fetching of proofs and logs: input and output only.
