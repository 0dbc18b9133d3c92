# Verified model of the wagering engine

A Dafny model of the parts of the engine where money moves, with proofs of what the code promises about
it. `dafny verify dfyconfig.toml` checks all of it. The theorems are about every input, every trajectory
of a fight and every interleaving of steps, under conditions stated with them; hashes, random draws,
prices, physics and clocks are parameters about which nothing is assumed.

The parts, and the files of each:

- **The integer round** (`engine/src/er-sim.ts`): entry with a fee, ticks driven by a hash chain, exits with
  a decaying penalty, settlement, all in integers. `ErDraw` is the draw of a pair and a roll from 32 bytes,
  `ErPenalty` the penalty curve and its table, `ErRound` the round as a value with its operations and
  invariants over runs, `ErFight` progress, termination and replay, `ErEngine` the round as a mutable object.
  The hash of a cursor is an arbitrary function `Chain` from cursors to 32 bytes.
- **The IDL generator's keys** (`scripts/idlgen.py`): `Radix` and `Base58` are the hand-written codec,
  `IdlPubkeys` the walk and the rewrite on JSON values, `IdlRetarget` the theorem about them, `IdlPaths` the
  same by paths into the document, `IdlWalk` the loops and in-order traversals of the script.
- **The two-army fight** (`engine/src/game.ts`): `TwoSideSim`, `TwoSideTheorems`, `TwoSideBlows` (what one
  blow, clash and tick is), and the running object in `TwoSideEngine`. Which pairs collide and how hard is an arbitrary oracle `Physics`. An entry's side is
  whatever the caller passed (`Camp`): one of the two armies, or some other value with its printed text.
- **The N-army fight** (`engine/src/gameN.ts`): `ManySideSim`, `ManySideTheorems` (plans and blows),
  `ManySideLedger` (conservation through clashes), `ManySideBlows` (what one blow, clash and tick is),
  `ManySideBook` (matched book, whole round), `ManySideFriendly` (whether a wallet can strike itself),
  `ManySideEngine`.
- **The orchestrator** (`engine/src/round.ts`): `RoundSeed` (canonical string and seed), `RoundMachine` (phases
  with a suspended settlement callback), `RoundEngine`.
- **The ledger around a round** (`engine/src/server.ts`): `RoundTable` (entries, the bot population, house
  answers, settlement by the keyed record), `RoundTableBasics`, `RoundTableTheorems`, `RoundTableAnswers`
  (how much goes in), `RoundTableMoves` (what each move does to whom), `RoundTablePayout` (who is paid what),
  `RoundTableStray` (three inputs that burn coin), `RoundTableEngine`. It uses the two-army
  fight's conservation theorem, so its main result spans entry, fight and settlement.
- **The house float** (`engine/src/bot-bank.ts`, `engine/src/recover-float.ts`): `Accounts`, `BotBank`,
  `BotBankEngine`, `RecoverFloat`, `RecoverEngine`.
- **Deposit deduplication** (`engine/src/chain-ops.ts`): `DepositGate`, `DepositEngine`.
- `Basics`, `Sums`, `Pairs` and `Arith` hold shared definitions, sums over sequences, the pairs of a double
  loop, and division facts.

Each core that mutates state has a class whose methods follow the source's loops and branches and are proved
equal, step by step, to functions on values; the theorems are about those functions. Dollar and token
amounts are exact reals, so statements about them hold up to the source's floating-point rounding.

Results where the code does less than its comments suggest, each with the exact condition:

- `RoundTableTheorems.WholeRoundIsNeutralIff`: a round burns coin unless every accepted player entry names one
  of the two sides, every retired bot's coin has a pool account to go to, and every bot made takes a new name
  or that of an empty account. The entry handler does not check the side it is sent: a stake on any other value
  is debited, paid back to nobody, and still answered by the house. And the counter that names bots starts over
  with the server while the ledger is restored, so a new bot can overwrite an old one's record with what is in
  it. `RoundTableStray` gives an input for each part.
- `TwoSideTheorems.StrictBookIsEven`: with no tolerance the armies start even if and only if the book, which is
  kept under the printed side, keeps the ratio of the two armies' stakes. A client's side that prints like an
  army's without being one breaks it: `TwoSideTheorems.ImpostorSkewsTheBook`.
- `RoundMachine.RoundMovesOnIff`: a round whose settlement is awaited ends if and only if the callback succeeds
  before it fails. After one rejection no step changes the runner again; `RoundMachine.WedgedFromTheStart`
  reaches that state from a fresh start.
- `ManySideFriendly.NoFriendlyFireIff`: the N-army clash looks at teams only, so a wallet's fighters never
  strike each other if and only if no wallet stands on two teams. `ManySideFriendly.SelfStrike` is a fight in
  which one does.
- `IdlRetarget.ClearsIff32Bytes`: the rewrite clears every IDL of foreign keys if and only if the program id
  decodes to 32 bytes, and likewise among the IDLs that extend any given one. The pattern that reads the id
  accepts any length; with another length a rewritten constant stops being recognised as a key and the rewrite
  is not complete.
- `RecoverFloat.WriteDownExactIff`: a write-down makes the books equal the vault if and only if no pool account
  was overdrawn or the excess is the whole pool; otherwise the clamp at zero hands coin out.
  `RecoverFloat.WriteDownCanMiss` gives numbers.

`RoundSeed.CanonIdentifiesEntries` assumes that sides are free of the two marks the canonical string is built
with, which nobody checks either; `RoundSeed.MarksForgeALineUp` shows that it has to, with one message that
prints as three entries.

## Model

| member | source | states |
|---|---|---|
| ErDraw.EveryDrawIsPossible | engine/src/er-sim.ts:183-222 | every ordered pair of distinct slots, with every roll 1..22 or 90, is drawn by some digest |
| ErDraw.PairOfIff | engine/src/er-sim.ts:183-191 | a pair is drawn from exactly one attacker residue and one defender rank, and never pairs a slot with itself |
| ErDraw.ResidueCount | engine/src/er-sim.ts:187-188 | among the words below m, residue r of n occurs floor(m/n) times or once more, exactly |
| ErDraw.PairFrequency | engine/src/er-sim.ts:172-191 | over all pairs of 32-bit words, the number that draws a given pair, exactly: no slot is favoured by its position |
| ErDraw.RollFrequency | engine/src/er-sim.ts:193-222 | over all pairs of words, exactly one in 32 is a crit, and each body roll 1..22 gets an equal share of the rest, one body word more or less |
| ErDraw.BytesDecide | engine/src/er-sim.ts:172-222 | which bytes of the digest, in which order, decide attacker, defender, roll and crit |
| ErPenalty.HorizonIsNearest | engine/src/er-sim.ts:85-111 | every table entry is the nearest integer to 25 n^1.5, for all lineups 2..48 |
| ErPenalty.HorizonMono | engine/src/er-sim.ts:116-118 | a larger lineup never has an earlier horizon, clamping included |
| ErPenalty.BpsRange | engine/src/er-sim.ts:122-126 | the rate is between 0 and 20%, exactly 20% at the opening bell and 0 from the horizon on |
| ErPenalty.BpsMonotone | engine/src/er-sim.ts:122-126 | the rate never rises as the cursor advances and never falls as the lineup grows |
| ErPenalty.RateIsOnTheLine | engine/src/er-sim.ts:113-126 | at every cursor the rate is 20% times the part of the horizon that is left, rounded down to a hundredth of a percent, for the one integer nearest to 25 n^1.5 as the horizon |
| ErPenalty.SplitBounds | engine/src/er-sim.ts:131-134 | the penalty is exactly that rate of what was taken, rounded down, and the rest is kept; so it is never negative, at most a fifth, and nothing from the horizon on |
| ErPenalty.PenaltyMonotone | engine/src/er-sim.ts:131-134 | waiting longer never costs more, and a larger lineup never costs less |
| ErRound.DamageRange | engine/src/er-sim.ts:240-253 | a blow never takes more than the defender holds; above dust it is the floor of its percentage of the smaller ring, and at or below dust the whole ring |
| ErRound.StrikeMoves | engine/src/er-sim.ts:235-257 | a strike either changes nothing or moves one amount from a living enemy of another wallet to the attacker's bank, killing it only at zero |
| ErRound.MovedSums | engine/src/er-sim.ts:255-257 | such a move keeps the total value and takes exactly the amount off the total ring |
| ErRound.StepMoves | engine/src/er-sim.ts:225-259 | a tick conserves total value and lowers the total ring by exactly the blow it lands |
| ErRound.TickConserves | engine/src/er-sim.ts:225-259 | any number of ticks keeps the total value, the pot and both house counters |
| ErRound.TicksMoveTheCursor | engine/src/er-sim.ts:225-230 | every tick moves the cursor by one, but with fewer than two seats none does |
| ErRound.DeadIsFrozen | engine/src/er-sim.ts:236-238 | a fighter that is out is unchanged by any number of ticks |
| ErRound.EnterRefusals | engine/src/er-sim.ts:147-156 | entry is refused exactly for a stake of nothing, or for a new seat in a full lineup |
| ErRound.EnterEffect | engine/src/er-sim.ts:147-165 | an accepted stake splits exactly into net and recorded fee, and only the ring of that wallet on that side grows, by the net |
| ErRound.EnterTouchesOneSeat | engine/src/er-sim.ts:147-165 | an accepted stake tops up the first seat of that wallet on that side, or takes a new last seat; every other seat, and the rest of that one, is unchanged |
| ErRound.EnterRecordsTheFee | engine/src/er-sim.ts:142-165 | the recorded fee is the rate of the stake in hundredths of a percent, rounded down, and the pot grows by the rest |
| ErRound.ExtractEffect | engine/src/er-sim.ts:279-289 | an exit empties the wallet's first living fighter; its ring splits without remainder into bank and penalty, which is the rate of the curve at that cursor and lineup, rounded down; there being no such fighter is the only refusal |
| ErRound.ExtractSums | engine/src/er-sim.ts:279-289 | an exit takes what was taken off the ring and only the penalty off the total value |
| ErRound.ConservationOverRuns | engine/src/er-sim.ts:327-346 | every run of entries, ticks and exits keeps the conservation equation, one seat per wallet and side, and the lineup cap |
| ErRound.PenaltiesWithinAFifth | engine/src/er-sim.ts:261-289 | with fees below all of the stake, every run keeps five times the penalties plus the whole ring within the pot, and the living above zero |
| ErRound.EveryReachableRoundConserves | engine/src/er-sim.ts:302-346 | from a new round, after any operations at any fee rate, what fighters hold plus what the house took is what players were charged |
| ErRound.EveryReachableRoundIsSound | engine/src/er-sim.ts:302-304 | the same for the bound on penalties, from a new round |
| ErRound.SoundMeansWithinAFifth | engine/src/er-sim.ts:83-89 | in such a round the penalties are at most a fifth of the pot |
| ErRound.SettleSplitsTheTable | engine/src/er-sim.ts:292-300 | the two sides' values partition the table, and side A wins exactly when it holds at least half |
| ErFight.TickAdd | engine/src/er-sim.ts:224-259 | ticking m + n times is ticking m times and then n times |
| ErFight.UnbatchSameRun | sandbox/house-edge/check-fight-length.ts:34-35 | a run and the same run with every batch of ticks taken one at a time reach the same round |
| ErFight.BatchingIsIrrelevant | engine/src/er-sim.ts:224-259 | two runs that differ only in how ticks are batched between the same entries and exits reach the same round |
| ErFight.NeverStuck | engine/src/er-sim.ts:64-73 | while two living enemies of different wallets remain, some ordered pair of slots loses ring value under every possible roll |
| ErFight.StepKeepsVital | engine/src/er-sim.ts:235-257 | a tick either changes no fighter or strictly shrinks the total ring, and says exactly when |
| ErFight.LandingsBounded | engine/src/er-sim.ts:64-73 | no run of ticks lands more blows than the ring it used up, so never more than the starting hit points |
| ErFight.FightEnds | engine/src/er-sim.ts:64-73 | on a chain that draws every pair within some window, every fight is over after one window per starting hit point |
| ErFight.RoundRobinIsFair | engine/src/er-sim.ts:183-191 | such chains exist for every lineup size |
| ErFight.OverIsStable | engine/src/er-sim.ts:235-238 | a fight that is over stays exactly as it is |
| ErEngine.ERRound.constructor | engine/src/er-sim.ts:302-304 | a new round is the empty round value |
| ErEngine.ERRound.Enter | engine/src/er-sim.ts:147-165 | the in-place entry is the entry on values, and a refusal changes nothing |
| ErEngine.ERRound.TakeSeat | engine/src/er-sim.ts:151-158 | a stake tops up the seat there is, or pushes a new one at the end |
| ErEngine.ERRound.Tick | engine/src/er-sim.ts:225-259 | the loop with its break and continues is the recursion on values |
| ErEngine.ERRound.Advance | engine/src/er-sim.ts:229-257 | one pass of the loop body is one step on values |
| ErEngine.ERRound.Extract | engine/src/er-sim.ts:279-289 | the in-place exit is the exit on values, with the three numbers it returns |
| ErEngine.ERRound.Settle | engine/src/er-sim.ts:292-300 | the accumulating loop records the side that holds at least half |
| ErEngine.ERRound.ConservationCheck | engine/src/er-sim.ts:312-346 | the check is true exactly when the conservation equation holds |
| Radix.ConvertBack | scripts/idlgen.py:41-60 | converting a digit string between two bases and back, leading zeros kept, is the identity |
| Radix.DigitsOfValue | scripts/idlgen.py:41-46 | digits without a leading zero are recovered from their value |
| Radix.ValueOfDigits | scripts/idlgen.py:41-46 | repeated division recovers the number |
| Radix.MinimalBytes | scripts/idlgen.py:58 | rounding the bit length up to bytes yields exactly the base-256 digits |
| Base58.AlphabetPosition | scripts/idlgen.py:38-57 | each of the 58 characters is found at its own position |
| Base58.DecodeEncode | scripts/idlgen.py:41-60 | decoding an encoding returns the bytes, for every byte string, empty and all-zero ones included |
| Base58.EncodeDecode | scripts/idlgen.py:41-60 | encoding a decoding returns the text, for every text over the alphabet, and decoding fails for exactly the others |
| Base58.LetterOf | scripts/idlgen.py:38 | which letter stands for each of the 58 digits |
| Base58.EncodingIsANumber | scripts/idlgen.py:41-51 | an encoding is a one for every leading zero byte and then the base-58 place-value digits of the number the bytes are |
| Base58.EncodeLoop | scripts/idlgen.py:41-51 | the encoder, with its leading-zero loop, computes the encoding |
| Base58.WriteDigits | scripts/idlgen.py:44-46 | the divmod loop writes exactly the base-58 digits of the number |
| Base58.CountOnes | scripts/idlgen.py:59 | the stripped ones are exactly the leading zero digits |
| Base58.ReadNumber | scripts/idlgen.py:54-57 | the accumulating loop computes the text's value, or fails at a character outside the alphabet |
| Base58.DecodeLoop | scripts/idlgen.py:54-60 | the decoder computes the decoding, failing exactly where it does |
| IdlRetarget.RetargetNode | scripts/idlgen.py:635-649 | on every subtree, the keys found after the rewrite are the keys found before, each retargeted in place, and everything else is equal |
| IdlRetarget.RetargetTheorem | scripts/idlgen.py:625-651 | with a 32-byte id: no foreign key is left in either encoding, known keys and non-keys are untouched, and a second rewrite changes nothing |
| IdlPaths.WalkFindsWhatIsNamed | scripts/idlgen.py:79-102 | the walk finds a key at a path if and only if the path leads, through entries that hold no key and through list items, to an address with that text or a constant program with those bytes |
| IdlPaths.CheckMeansNoForeignKey | scripts/idlgen.py:105-106 | the generator's check comes out empty if and only if no path of the document leads to a foreign key |
| IdlPaths.RewriteByPaths | scripts/idlgen.py:625-651 | with a 32-byte id no path of the result leads to a foreign key, and every path reaches what it reached before, with listed programs left alone, every other key the new id in its own encoding, and nothing else changed |
| IdlRetarget.WrongLengthLeavesForeign | scripts/idlgen.py:494-508 | with an id of any other length, one more entry makes any document one that the rewrite leaves with a foreign key, or no longer readable |
| IdlRetarget.ClearsIff32Bytes | scripts/idlgen.py:632-651 | the rewrite clears every IDL, and every IDL that extends a given one, if and only if the id decodes to 32 bytes |
| IdlWalk.Walk | scripts/idlgen.py:79-102 | the nested walk finds exactly the keys the specification names, in order, or fails on a byte list that is not one |
| IdlWalk.WalkField | scripts/idlgen.py:90-96 | one entry of a dict: an address, a constant program, or the entries below |
| IdlWalk.Rewrite | scripts/idlgen.py:635-649 | the traversal computes the rewrite, or fails on a byte list that is not one |
| IdlWalk.RewriteField | scripts/idlgen.py:637-646 | the same for one entry of a dict |
| IdlWalk.AllBytesCheck | scripts/idlgen.py:42 | a list converts to bytes exactly when each element is an integer from 0 to 255 or a boolean |
| TwoSideTheorems.MatchedBook | engine/src/game.ts:91-107 | each side puts in play exactly the smaller of its total and what the other covers within the tolerance, if and only if it staked nothing, is covered by the book as by the stakes, or the book keeps the ratio of the stakes; so always when nothing prints as a side without being one |
| TwoSideTheorems.StrictBookIsEven | engine/src/game.ts:91-99 | with no tolerance both sides start at exactly the smaller total if and only if the book keeps the ratio of the stakes; so always when nothing prints as a side without being one |
| TwoSideTheorems.ImpostorSkewsTheBook | engine/src/game.ts:91-99 | two armies that staked the same, and a side that only prints like one of them: that one plays two thirds of its stake against the whole of the other |
| TwoSideTheorems.StakesSplit | engine/src/game.ts:100-107 | in-play plus refund is the stake and neither is negative, for an entry on a side; an entry on neither has nothing in play |
| TwoSideTheorems.StrayIsPaidNothing | engine/src/game.ts:95-107 | an entry on neither side has nothing in the ring through any fight and is paid nothing, not even a refund |
| TwoSideBlows.StolenCoinFirst | engine/src/game.ts:172-181 | a blow is on the raided coin if there is more than a speck of it and on own coin otherwise, for exactly the smaller of the blow and what is held of that coin |
| TwoSideBlows.BothAreBlows | engine/src/game.ts:214-237 | a blow is capped by the whole ring and a share of the smaller ring, growing in a duel, and past half time may take all of a ring below 8% of the attacker's |
| TwoSideBlows.BothTrade | engine/src/game.ts:182-192 | in full, what a clash does to each fighter: what it loses leaves its ring, what it wins enters its ring or, in extraction mode, its bank, and its statistics say so |
| TwoSideBlows.ClashIsTwoBlows | engine/src/game.ts:194-242 | a pair changes nothing unless both stand, on different sides and of different wallets; otherwise exactly two blows, the log of them, and a death at the dust |
| TwoSideBlows.OwnCoinIsSafe | engine/src/game.ts:172-181 | while a fighter has more than a speck of raided coin a clash takes none of its own |
| TwoSideBlows.RosterIsTheLiving | engine/src/game.ts:130-136 | a tick's roster is exactly the fighters not dead with more than dust in the ring |
| TwoSideBlows.EveryPairClashesOnce | engine/src/game.ts:194 | in a tick every two of the roster get their clash, once, in order |
| TwoSideBlows.TickIs | engine/src/game.ts:124-247 | a tick ends the fight when a side has nobody standing or time is up, and otherwise lets every pair clash, as a duel when one stands on each side |
| TwoSideBlows.PlayedToTheEnd | engine/src/game.ts:262-264 | a fight stops only with a side wiped out or with all its ticks played |
| TwoSideSim.BlowsCommute | engine/src/game.ts:172-192 | the two blows of a clash land exactly as planned in either order and leave both fighters the same, in both modes |
| TwoSideTheorems.BlowEffect | engine/src/game.ts:182-192 | one blow conserves both coins and credits exactly what it takes |
| TwoSideTheorems.ExchangeKeeps | engine/src/game.ts:238-239 | both blows together conserve each coin, and what they deal, take and log is one amount |
| TwoSideTheorems.ClashKeeps | engine/src/game.ts:194-242 | a colliding pair keeps the books of the whole field, and never logs a hit between two fighters of one wallet |
| TwoSideTheorems.PlayKeeps | engine/src/game.ts:124-247 | over a whole fight on any trajectory: coins conserved, nobody negative, worth equals stake plus raids minus losses, dealt equals taken equals logged |
| TwoSideTheorems.RoundConserves | engine/src/game.ts:249-268 | each token's payouts add up to what its side staked, no payout is negative, each entrant on a side gets at least its refund and exactly stake plus raids minus losses, and no hit is between two fighters of one wallet |
| TwoSideTheorems.SettlementComplete | engine/src/game.ts:253-257 | with distinct ids the settlement record holds every fighter's payout and nothing else |
| TwoSideTheorems.WinnerHoldsMore | engine/src/game.ts:251-258 | the winner holds at least as much as the loser, and the two together, with what fighters on neither side hold, all coin in play |
| TwoSideEngine.BattleSim.constructor | engine/src/game.ts:88-121 | the summing and spawning loops build the matched line-up |
| TwoSideEngine.BattleSim.ApplyHit | engine/src/game.ts:182-192 | the in-place blow is the reward and the loss on values, with its log entry |
| TwoSideEngine.BattleSim.Collide | engine/src/game.ts:194-242 | one pair: both plans from the state before either blow, then both applied |
| TwoSideEngine.BattleSim.Clashes | engine/src/game.ts:194 | the double loop over the fighters alive at the start of the tick |
| TwoSideEngine.BattleSim.StepSim | engine/src/game.ts:124-247 | one tick, with its early ends |
| TwoSideEngine.BattleSim.Run | engine/src/game.ts:262-264 | the loop to completion ends, at the same result as the step recursion |
| TwoSideEngine.BattleSim.Finish | engine/src/game.ts:249-259 | the settlement record and the winner from the two accumulated values |
| ManySideBook.CapMeaning | engine/src/gameN.ts:68-74 | the limit is the least positive team total, or a median with at least half the teams on either side, and 0 only if nobody staked |
| ManySideBook.MatchedBook | engine/src/gameN.ts:65-82 | under every rule each team puts in play exactly the smaller of its total and the limit |
| ManySideBook.SmallestRuleIsEven | engine/src/gameN.ts:71-79 | under the smallest-team rule every team that staked puts in play the same amount, one of the teams' totals |
| ManySideBook.StakesSplit | engine/src/gameN.ts:77-83 | in-play plus refund is the stake, neither is negative, and a fighter starts with its own team's coin only |
| ManySideTheorems.PlanFits | engine/src/gameN.ts:129-138 | a plan names no source twice, asks only for what is held, never for a raided pot of its own team, and for no more than the blow |
| ManySideTheorems.LargestPotFirst | engine/src/gameN.ts:130-135 | of two things a plan takes, the earlier is a raided pot at least as large as the later, and is taken in full |
| ManySideTheorems.OwnCoinGoesLast | engine/src/gameN.ts:130-136 | own coin goes only when every raided pot above the speck is taken in full |
| ManySideBlows.TakesTheWholeBlow | engine/src/gameN.ts:129-138 | a plan takes exactly the blow, or all of own coin and the pots above the speck if that is less; own coin is in it if and only if the pots do not cover the blow and there is some |
| ManySideTheorems.LandsAsPlanned | engine/src/gameN.ts:165-176 | a fitting plan lands item by item exactly as planned |
| ManySideTheorems.BlowsCommute | engine/src/gameN.ts:128-183 | the two blows of a clash leave both fighters the same in either order, in both modes |
| ManySideBlows.BothAreBlows | engine/src/gameN.ts:152-164 | a blow is capped by a share of the smaller ring, and past half time may take all of a ring below 8% of the attacker's |
| ManySideBlows.BothTrade | engine/src/gameN.ts:165-183 | in full, what a clash does to each fighter, source by source: losses, loot by coin into ring or bank, and statistics |
| ManySideBlows.ClashIsTwoBlows | engine/src/gameN.ts:139-186 | a pair changes nothing unless both stand and on different teams; otherwise exactly two blows, the log of them, and a death at the dust |
| ManySideBlows.RosterIsTheLiving | engine/src/gameN.ts:98-128 | a tick's roster is exactly the fighters not dead with more than dust in the ring |
| ManySideBlows.EveryPairClashesOnce | engine/src/gameN.ts:139 | in a tick every two of the roster get their clash, once, in order |
| ManySideBlows.TickIs | engine/src/gameN.ts:98-187 | a fight goes on tick by tick until time is up or no two living fighters are on different teams |
| ManySideLedger.BlowEffect | engine/src/gameN.ts:165-182 | one blow conserves value, in normal mode each team's coin separately, and keeps the own-team pot empty |
| ManySideLedger.ExchangeEffect | engine/src/gameN.ts:183 | the same for both blows of a clash |
| ManySideLedger.ClashKeeps | engine/src/gameN.ts:139-186 | a clash keeps the books of the whole field |
| ManySideLedger.PlayKeeps | engine/src/gameN.ts:98-187 | over a whole fight on any trajectory: holdings non-negative, own-team pot zero, value and in normal mode every coin conserved |
| ManySideBook.RoundConserves | engine/src/gameN.ts:57-198 | payouts add up to the stakes, each is stake plus raids minus losses and at least the refund, and each team's original coin plus its refunds is what it staked |
| ManySideEngine.SettlementComplete | engine/src/gameN.ts:195-196 | with distinct ids the record pays each fighter its own payout and nobody else |
| ManySideFriendly.NoFriendlyFireIff | engine/src/gameN.ts:139-183 | over all stakes and all trajectories, no hit is between two fighters of one wallet if and only if no wallet stands on two teams |
| ManySideFriendly.PlayIsFair | engine/src/gameN.ts:98-187 | with every wallet on one team, a whole fight on any trajectory logs only hits between different wallets |
| ManySideFriendly.SelfStrike | engine/src/gameN.ts:151-183 | two seats of one wallet on two teams, and a fight whose first hit is one on the other |
| ManySideEngine.WinnerHasTheBiggestBag | engine/src/gameN.ts:193-194 | the winning id is that of the first fighter with the greatest payout |
| ManySideEngine.TeamsHoldEverything | engine/src/gameN.ts:189-190 | the team totals together are all that is in rings and banks |
| ManySideEngine.PlanTaking | engine/src/gameN.ts:129-138 | the loop with a running remainder computes the plan |
| ManySideEngine.BattleN.constructor | engine/src/gameN.ts:65-92 | the totalling loop and the spawning loop build the matched line-up |
| ManySideEngine.BattleN.ApplyPlan | engine/src/gameN.ts:165-182 | the loop with a running total is the blow on values, on two fighters in place, with its entry in the hit log |
| ManySideEngine.BattleN.Collide | engine/src/gameN.ts:140-185 | one pair: both plans first, then both blows |
| ManySideEngine.BattleN.Clashes | engine/src/gameN.ts:139 | the double loop over the fighters alive at the start of the tick |
| ManySideEngine.BattleN.Run | engine/src/gameN.ts:98-187 | the tick loop with its break is the fight on values, hit log included, and an early end means one team is left |
| ManySideEngine.BattleN.BiggestBag | engine/src/gameN.ts:193-194 | the loop over the fighters finds the winning id |
| ManySideEngine.BattleN.BestTeam | engine/src/gameN.ts:191-192 | the loop over the totals finds the first team with the greatest |
| ManySideEngine.BattleN.Finish | engine/src/gameN.ts:189-196 | team totals are sums per team, the winner is the first team with the greatest, the winning id is the biggest bag's, and the settlement record is complete |
| RoundSeed.SeedIgnoresOrder | engine/src/round.ts:8-17 | the seed depends only on the multiset of entries |
| RoundSeed.SeedBindsSecretAndEntries | engine/src/round.ts:8-17 | under a digest without collisions, and secrets without a bar, equal seeds mean one secret and one canonical string, and so one line-up |
| RoundSeed.LeIsLexicographic | engine/src/round.ts:14 | the order is by the first character that differs, or by length |
| RoundSeed.CanonIdentifiesEntries | engine/src/round.ts:8-15 | two line-ups have one canonical string if and only if they are the same players, sides and printed stakes in some order, as multisets; ids without the list mark, sides and printed stakes without the list mark and the bar |
| RoundSeed.MarksForgeALineUp | engine/src/round.ts:8-15 | one message whose side holds both marks has the canonical string of a line-up of three, at any stake that prints like a number |
| RoundSeed.SpelledIsInjective | engine/src/round.ts:8-15 | a printed entry reads back in one way only: its id, side and stake |
| RoundSeed.SortSorts | engine/src/round.ts:14 | sorting orders the pieces and keeps them all |
| RoundMachine.EachRoundSettlesOnce | engine/src/round.ts:98-122 | over every interleaving no round is settled twice, at most one tick waits in the callback, and each settled round verifies from what was published |
| RoundMachine.SeedExistsOnlyAfterLock | engine/src/round.ts:61-106 | there is no seed before the lobby closes; after, it is the derived one and the revealed secret opens the commitment |
| RoundMachine.LockedForGood | engine/src/round.ts:100-106 | once a lobby closed, entries, seed, secret and result never change while the round lasts |
| RoundMachine.OverlapIsHarmless | engine/src/round.ts:87-121 | while a settlement is awaited, other ticks and entries do nothing |
| RoundMachine.SettlementEnds | engine/src/round.ts:115-119 | while the callback is awaited its success opens the next lobby with the settled list unchanged, and its failure leaves the settle phase with nothing waiting |
| RoundMachine.FailedSettlementWedges | engine/src/round.ts:115-121 | in the settle phase with nothing waiting no run of steps ever changes the runner |
| RoundMachine.RoundMovesOnIff | engine/src/round.ts:115-121 | over every run with a settlement waiting, the round ends if and only if the call succeeds before it fails; until then nothing changes, and after a failure nothing does for good |
| RoundMachine.WedgedFromTheStart | engine/src/round.ts:98-121 | a run from a fresh start after which, whatever follows, the first round never ends |
| RoundMachine.NextKeeps | engine/src/round.ts:86-122 | every single step keeps the orchestrator's invariant |
| RoundMachine.EnterAddsTheStake | engine/src/round.ts:87-95 | an entry adds its stake to that player's total on that side and to nobody else's, and is refused outside the lobby |
| RoundMachine.LobbyTakesEverything | engine/src/round.ts:86-100 | until its time a lobby stays open through every run, and every player stands with exactly the sum of what it staked |
| RoundMachine.LateTickPlaysTheRound | engine/src/round.ts:100-113 | the first tick after that locks the entries and plays the fight that the derived seed, they and the multiplier decide, and sets how long it is shown |
| RoundMachine.BattleLasts | engine/src/round.ts:115-117 | a battle is left for settlement by the first tick after its time and by no other step |
| RoundMachine.SettledRoundConserves | engine/src/round.ts:108-117 | what the callback is handed pays out each token exactly as staked |
| RoundEngine.RoundRunner.constructor | engine/src/round.ts:50-55 | a new runner is in a fresh lobby |
| RoundEngine.RoundRunner.FindSeat | engine/src/round.ts:91 | the search finds the player's seat on that side |
| RoundEngine.RoundRunner.Enter | engine/src/round.ts:87-95 | entry in place is the entry step, and its answer says whether the lobby was open |
| RoundEngine.RoundRunner.Tick | engine/src/round.ts:98-121 | a tick up to its return or its await is the tick step; with no result to settle it opens the next lobby at once |
| RoundEngine.RoundRunner.Settled | engine/src/round.ts:117-119 | the rest of a tick after the callback returned |
| RoundEngine.RoundRunner.Failed | engine/src/round.ts:117 | the rest of a tick after the callback threw |
| RoundTableBasics.CommitBalanced | engine/src/server.ts:1169-1187 | an entry moves coin from account to ring and treasury and loses none, for bots and players |
| RoundTableBasics.CommitPriced | engine/src/server.ts:156-174 | an entry keeps the ring's dollars equal to its tokens at the frozen price |
| RoundTableBasics.CommitRegistered | engine/src/round.ts:87-95 | after an entry every fighter still belongs to an account, one per account and side |
| RoundTableMoves.CommitIs | engine/src/server.ts:1169-1187 | an entry debits exactly one account in one coin, gives the treasury its fifth of a percent, adds the rest in dollars to that id on that side and to nobody else, and writes the tallies |
| RoundTableBasics.NamedEntriesHaveDistinctIds | engine/src/round.ts:87-95 | where every entry names a side, no two fighters share an id |
| RoundTableBasics.TopUpKeeps | engine/src/server.ts:1015-1019 | topping a bot up moves coin from pool to bot and overdraws nobody |
| RoundTableBasics.BirthKeeps | engine/src/server.ts:285-314 | making a bot mints nothing and moves coin from pool to its account, or out and back; it burns what the record under its name held exactly when it is made and there was something |
| RoundTableMoves.NewBotHolds | engine/src/server.ts:285-314 | a bot is made exactly when the grant of a ready float comes to the minimum, and then holds exactly that, of its own coin; no other account changes |
| RoundTableBasics.LevelKeeps | engine/src/server.ts:712-728 | levelling leaves a bot exactly the ceiling and loses no coin |
| RoundTableMoves.LevelledIff | engine/src/server.ts:712-728 | an account is levelled exactly when the float is ready, there is a price and it holds more than the ceiling; the first of the poorest pool accounts gets the difference |
| RoundTableBasics.TreasuryLevelKeeps | engine/src/server.ts:712-728 | the treasury, flagged as a bot's account, is levelled alike |
| RoundTableBasics.RetireKeeps | engine/src/server.ts:270-279 | retiring a bot mints nothing, and burns what it holds exactly when there is no pool account to take it |
| RoundTableBasics.QuotedKeeps | engine/src/server.ts:163-174 | asking for a price moves no money and never changes a price already frozen |
| RoundTableTheorems.BotEntersKeeps | engine/src/server.ts:1158-1187 | a bot's entry keeps the books, overdraws nobody and leaves the house's answers alone |
| RoundTableTheorems.FloorEntersKeeps | engine/src/server.ts:1043-1088 | putting a bot on a thin side does too, with its top-up; bots made for it are separate steps |
| RoundTableMoves.FloorEntersIff | engine/src/server.ts:1060-1085 | a bot fills a thin side, at exactly the minimum, if and only if there is a price, it is not there yet, and purse and float come to the minimum |
| RoundTableTheorems.AnswerOneKeeps | engine/src/server.ts:1013-1036 | one bot gives nothing or at least the minimum, at most what it was asked, and the answer grows by exactly that |
| RoundTableTheorems.AnswerKeeps | engine/src/server.ts:1006-1036 | the loop over the roster answers at most the need, at any slice sizes |
| RoundTableTheorems.MatchKeeps | engine/src/server.ts:952-1037 | a run of the answer ends at most at the ratio of the stake, unless it already was above |
| RoundTableTheorems.PlayerEntersKeeps | engine/src/server.ts:1596-1634 | a player's entry, whatever side it names, keeps the books, overdraws nobody, passes no cap, and adds exactly its dollars to the real stake claimed for the slot it was paid from |
| RoundTableMoves.PlayerEntersAsItself | engine/src/server.ts:1600-1634 | an accepted player is debited in its own account and stands under its own wallet and side, and nobody else is touched |
| RoundTableMoves.KnownIs | engine/src/ledger.ts:121-125 | a wallet seen for the first time gets one empty player account |
| RoundTableMoves.WatcherAnswersIt | engine/src/server.ts:737-755 | the watcher answers all of the real stake on a side, before fees, once it is more than a cent |
| RoundTableTheorems.PopulationKeeps | engine/src/server.ts:697-728 | bots made or retired, bots and treasury levelled: entries, prices and answers stay as they are, and only a retirement with no pool account or a birth under the name of an account that has something burns coin |
| RoundTableTheorems.NextKeeps | engine/src/server.ts:737-755 | every lobby step keeps what the whole lobby does, and says exactly when coin is burned and when an unnamed side gets in |
| RoundTableTheorems.EveryLobbyKeeps | engine/src/server.ts:950-1037 | over every lobby: no coin minted, and none burned if and only if every retired bot's coin had a pool account to go to and every bot made took a new name or an empty account's; nobody overdrawn, nobody above the cap; and where every accepted entry names a side, the house's answer within its ratio of the real stake on the other |
| RoundTableTheorems.LobbyKeeps | engine/src/server.ts:163-174 | from any point of a lobby on, the same, and a frozen price never moves |
| RoundTableTheorems.PayAllEffect | engine/src/server.ts:351-370 | paying the rows of the settlement record, in any order, credits each token exactly what the record holds at the frozen price and records it as paid |
| RoundTableTheorems.RecordPays | engine/src/game.ts:253-257 | however its rows are listed the keyed record never pays more than the fighters are owed, and exactly that if no two share an id |
| RoundTablePayout.PaysTheOwners | engine/src/server.ts:351-370 | whatever the record and its order, an account is up in each coin by exactly the units of the rows its id owns, and nothing else of it changes |
| RoundTableTheorems.SettlementKeeps | engine/src/server.ts:338-373 | paying out any fight's record brings back exactly what was in the ring if every entry names a side, and less of the second slot's token if one does not; never more |
| RoundTableTheorems.WholeRoundIsNeutralIff | engine/src/server.ts:176-210 | lobby, fight and settlement together never mint, and leave every token's ledger-wide sum unchanged if and only if every accepted player entry names a side, every retired bot's coin had a pool account, and every bot made took a new name or an empty account's; with sides named the audit's gap is exactly minus the fees kept, so it never warns |
| RoundTablePayout.EverybodyIsPaidTheirOwn | engine/src/server.ts:338-373 | with every side named, after any lobby and fight every account is up by exactly the units of what its own fighters are owed in each token, and changes in no other way |
| RoundTableStray.StrayStakeIsBurned | engine/src/server.ts:1596-1634 | a player's message with side "x": after any fight the ledger holds less of the second token, and the audit warns |
| RoundTableStray.StrayStakeIsAnswered | engine/src/server.ts:952-1037 | the same message is answered with house money against a stake nobody counts |
| RoundTableStray.RetiredCoinIsBurned | engine/src/server.ts:270-279 | a bot retired with no pool account: the ledger holds less of its coin |
| RoundTableStray.NamesakeIsOverwritten | engine/src/server.ts:284-313 | a bot made under the name of one that holds 20, with every side named and money in the pool: the ledger holds exactly 20 less |
| RoundTableAnswers.BotEntersIff | engine/src/server.ts:1158-1187 | a bot enters exactly when a minimum is set, its bankroll, the cap or the operator's largest stake allow it and there is a price, with a stake between the minimum and those; otherwise its debit is undone |
| RoundTableMoves.BotStakesWhatItAsked | engine/src/server.ts:1158-1187 | a bot that enters stakes what it asked for, moved to the nearest its minimum, the cap and its bank allow, or the operator's amount |
| RoundTableAnswers.PlayerStakeIs | engine/src/server.ts:1602-1634 | each refusal holds exactly under its condition, and an accepted player, whatever side it names, stakes exactly the least of request, bank and room under the cap |
| RoundTableAnswers.FreshFightersFirst | engine/src/server.ts:1002-1005 | everybody is asked once, bots not yet on that side before all others |
| RoundTableAnswers.TopUpReaches | engine/src/server.ts:1015-1019 | a short bot is brought up to what is wanted or as far as the whole float goes |
| RoundTableAnswers.AnswerOneExact | engine/src/server.ts:1013-1036 | what one bot gives, exactly, from its purse, the float and the cap |
| RoundTableMoves.AnswerEntersIt | engine/src/server.ts:1020-1036 | what a bot gives goes in under its own name on the answering side and out of its own account at the price |
| RoundTableAnswers.AnswerGoesOverASwarm | engine/src/server.ts:1006-1014 | an answer goes over as many bots as there are or a swarm has, whichever is fewer; each is asked for its fair part of what is left, give or take two fifths |
| RoundTableAnswers.HouseAnswersMost | engine/src/server.ts:1006-1036 | when each bot with the float behind it covers the need plus a crumb per bot, and each share is within the cap on an entry, at slices as drawn, at most two fifths of a need of any size stay unanswered, or a crumb |
| RoundTableAnswers.MatchAnswersMost | engine/src/server.ts:952-1037 | the same for a whole run of the answer, over any bots; a need within the cap always is share by share |
| RoundTableEngine.RoundBook.PxForRound | engine/src/server.ts:163-174 | the cached price is the frozen one |
| RoundTableEngine.RoundBook.Stake | engine/src/server.ts:1169-1187 | debit, tally, fee and entry in place are the entry on values |
| RoundTableEngine.RoundBook.BotEnters | engine/src/server.ts:1158-1187 | a bot's own entry with both ways of sizing it and both of its ways out |
| RoundTableEngine.RoundBook.FloorEnters | engine/src/server.ts:1060-1085 | one pass of the thin side's loop: top-up, and a stake of exactly the minimum if that reaches it |
| RoundTableEngine.RoundBook.NewBot | engine/src/server.ts:302-313 | a new bot funded in place, its record set over the one its name had if any, or its draw handed back |
| RoundTableEngine.RoundBook.RetireBot | engine/src/server.ts:270-275 | the loop over the three coins hands each back to the pool |
| RoundTableEngine.RoundBook.AnswerFrom | engine/src/server.ts:1013-1036 | one pass of the answer's loop body |
| RoundTableEngine.RoundBook.MatchPlayerStake | engine/src/server.ts:952-1037 | the loop with its shrinking need is the answer on values |
| RoundTableEngine.RoundBook.StakedBy | engine/src/server.ts:1608-1609 | the running sum of a fighter's stakes before fees |
| RoundTableEngine.RoundBook.PlayerEnters | engine/src/server.ts:1596-1634 | a player's entry with each refusal in order |
| RoundTableEngine.RoundBook.PayRow | engine/src/server.ts:351-365 | one pass of the settlement loop body: a row of the record in each token at the frozen price, or nothing for an id not in the ledger |
| RoundTableEngine.RoundBook.OnSettle | engine/src/server.ts:351-370 | the loop over the entries of the settlement record, in whatever order they come |
| RoundTableEngine.RoundBook.AuditRound | engine/src/server.ts:192-205 | whether the audit complains about one token's flow |
| BotBank.DrainShape | engine/src/bot-bank.ts:62-70 | a walk takes exactly what it reports, in pool order, overdraws nobody, and falls short only when the pool is spent |
| BotBank.DrawIsExact | engine/src/bot-bank.ts:55-71 | for every pool a draw grants exactly the smaller of the wish and the fair share, and takes exactly that |
| BotBank.TakeIsAllOrNothing | engine/src/bot-bank.ts:73-87 | an exact draw succeeds if and only if the pool covers the amount to within the slack, and otherwise takes nothing |
| BotBank.ReturnFeedsThePoorest | engine/src/bot-bank.ts:89-104 | a return adds exactly the amount to the first of the poorest accounts, and an empty pool keeps nothing |
| BotBank.DrawThenReturn | engine/src/bot-bank.ts:55-104 | handing back what was drawn restores the float, for every pool |
| BotBank.FloatDegradesSmoothly | engine/src/bot-bank.ts:45-53 | after any k draws, at any spread, at least (1 - 1/s)^k of the float is left, where s is the spread clamped to at least one |
| BotBank.RetireConservesIff | engine/src/server.ts:270-279 | handing back all a bot has conserves every coin if and only if there is a pool account or it has nothing |
| BotBankEngine.Bank.PoolBalance | engine/src/bot-bank.ts:41-43 | the fold is the pool's total |
| BotBankEngine.Bank.Walk | engine/src/bot-bank.ts:62-69 | the loop with a running remainder is the walk on values |
| BotBankEngine.Bank.DrawBank | engine/src/bot-bank.ts:57-71 | the fair-share draw in place |
| BotBankEngine.Bank.TakeExact | engine/src/bot-bank.ts:76-87 | the exact draw in place |
| BotBankEngine.Bank.ReturnBank | engine/src/bot-bank.ts:90-104 | the return in place, scanning for the poorest |
| RecoverFloat.ResyncAnchors | engine/src/recover-float.ts:58-107 | a resync touches only pool accounts and lowers none; when it moves, the books then equal the vault exactly, otherwise nothing changed |
| RecoverFloat.ResyncMovesIff | engine/src/recover-float.ts:89-103 | it moves exactly when there is a pool account and the vault exceeds the claims by enough |
| RecoverFloat.ResyncSharesEvenly | engine/src/recover-float.ts:104-105 | every pool account gets the same |
| RecoverFloat.EverybodyIsOneOrTheOther | engine/src/recover-float.ts:81-88 | all coin is the house's, in the pool and with bots, or a player's |
| RecoverFloat.ResyncSettles | engine/src/recover-float.ts:58-107 | a resync never makes the books claim more than the vault, and running either repair after it changes nothing, the write-down unless its threshold is below zero and a pool account is too |
| RecoverFloat.WriteDownExactIff | engine/src/recover-float.ts:204-261 | a write-down touches only the pool, leaves no pool account negative, keeps players backed, and is exact if and only if its rate leaves nobody below zero: with an excess, if and only if no pool account was overdrawn or the excess is the whole pool |
| RecoverFloat.WriteDownMovesIff | engine/src/recover-float.ts:236-259 | it writes if and only if there is a pool and a reading, the claims exceed the vault by more than the threshold, the vault covers the players, the pool the excess, and the excess is within its part of the house |
| RecoverFloat.WriteDownIsProportional | engine/src/recover-float.ts:259 | every pool account pays in proportion to what it holds, down to nothing at most |
| RecoverFloat.RefusalsMeanWhatTheySay | engine/src/recover-float.ts:89-103 | every reason a repair gives for not moving anything is the case |
| RecoverFloat.WriteDownCanMiss | engine/src/recover-float.ts:259 | numbers on which the write-down is not exact |
| RecoverFloat.WriteDownSettles | engine/src/recover-float.ts:221-261 | a refused write-down refuses again; after an exact one either repair changes nothing; after one that missed, a second that writes is exact |
| RecoverEngine.Books.Survey | engine/src/recover-float.ts:81-88 | one pass finds the house's and the players' holdings and the pool accounts |
| RecoverEngine.Books.Rewrite | engine/src/recover-float.ts:105 | the loop changes exactly the pool accounts |
| RecoverEngine.Books.Resync | engine/src/recover-float.ts:77-107 | the repair in place, each refusal in order |
| RecoverEngine.Books.WriteDown | engine/src/recover-float.ts:221-261 | the write-down in place, each guard in order |
| DepositGate.CreditedAtMostOnce | engine/src/chain-ops.ts:17-34 | over every interleaving of both verifiers a signature is credited at most once, at most one verification of it is in flight, and the permanent set is exactly the credited ones |
| DepositGate.CreditIsFinal | engine/src/chain-ops.ts:29-34 | once credited, whatever follows, every later verification of that signature by either verifier is refused, and its credit never grows |
| DepositGate.ResumeReleases | engine/src/chain-ops.ts:86-101 | a read that throws or finds nothing leaves the signature claimable and every credit as it was; one that finds a positive amount credits exactly that and closes the signature |
| DepositGate.LetInIff | engine/src/chain-ops.ts:29-34 | a verification is let in exactly when its signature is neither credited nor in flight, and the token verifier has its mints |
| DepositGate.OverlapRefused | engine/src/chain-ops.ts:143-162 | of two overlapping verifications, of either kind, the second is refused |
| DepositEngine.Verifier.ClaimSig | engine/src/chain-ops.ts:30-34 | a reservation succeeds exactly when the signature is neither credited nor in flight |
| DepositEngine.Verifier.Start | engine/src/chain-ops.ts:143-149 | either verifier up to its chain read |
| DepositEngine.Verifier.Finish | engine/src/chain-ops.ts:90-101 | either verifier from its read to its release |

## Left out

- Floating-point rounding, NaN and infinities: amounts outside `er-sim.ts` are exact reals.
- Physics (movement, radii, cooldown clocks) and the random generators: the collision oracle is arbitrary instead.
- SHA-256 and the fixed-decimal printing of stakes: uninterpreted functions; statistical claims in comments are not modelled.
- Aliasing of fighters, accounts and JSON nodes: objects that are shared by reference in the source are records in sequences that methods reassign, so a stale reference held elsewhere is not captured.
- IdlWalk.Rewrite: returns the rewritten tree instead of mutating shared dicts; duplicate keys, which a dict cannot have, are read first-entry.
- Paths in the key listing are lists of steps rather than printed strings.
- Ill-formed byte lists, on which the script throws, are a failure result; the theorems are about trees without them.
- RecoverFloat.WriteDown: where a threshold below zero meets a pool that adds up to nothing the source divides by zero and stores what is not a number; the model sets that case apart as a result that writes nothing.
- ErFight.FightEnds: for chains that keep drawing every pair; no such bound holds of an arbitrary hash.
- The position fields of the N-army result, and its seed hash.
- Referral credit: it follows the side rather than the arena's token, outside the conservation theorem.
- Refunds of open rounds, N-army entry handlers, other arenas sharing the ledger during the round, and the 64-entry map evictions.
- Lifetime statistics, display names, history, anchoring, broadcasts and persistence beside the money path.
- Which bots enter, are made, levelled or retired, on which side, when and for how much, is arbitrary within what the code allows; the unbacked bot bank of test chains is not modelled.
- Wallet ids are assumed free of the bar and of the bot marker, as the addresses are that a client signs in with; bot ids are assumed to carry the marker.
- `initBotBank`, `recoverInPlace`, on-chain transfers, price feeds and RPC retries; a player's deposits, faucet claims, converts between coins and withdrawals, which move coin in and out of the ledger while a lobby is open too.
- `roundN.ts`, `limits.ts`, `reconcile.ts`, and the rest of the IDL generator, which would only add easy members.
