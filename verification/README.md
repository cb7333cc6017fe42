# Trading pools: a verified model of the bonfida-bot program

A trading pool is one on-chain account, a token mint and a set of vaults. Anyone can buy pool tokens for a
proportional share of every asset in the vaults and redeem them again; a fee is taken by minting new pool
tokens once per collection period. This project models the program that keeps those books
(`program/src/processor.rs`, `utils.rs`, `state.rs`, `instruction.rs`) and the JavaScript decoder of its wire
format (`js/src/instructions.ts`), and proves what holds of them for every input and over every run.

`dafny verify dfyconfig.toml` checks the whole project.

## How the model is built

- The state (`Processor.Machine`) is the account's bytes, the pool-token supply, and one ledger of all token
  accounts of all mints. Header, markets and asset slots are always read from and written to the bytes.
- Each instruction is a function from a state to a new state or an error (`Processor`), and a method of the
  class `Program.PoolProgram` that does the work in place, loop by loop, and is proved against that function.
  `PoolProgram.Execute` adds what the Solana runtime does: a failed or panicking instruction is rolled back.
  This matters, because Settle packs the header before its last check.
- `Runs` lets any sequence of instructions, third-party transfers, account openings and waits happen, and
  proves what every reachable state satisfies.

| module | content |
|---|---|
| Wrappers, Numbers, Bytes | results, floor division and powers, little-endian bytes and buffer writes |
| FixedPoint | the 16-bit fixed-point power |
| Header, Layout | the 117-byte header, markets and asset slots in the account data |
| Tokens | SPL transfer, mint and burn on a ledger; totals per mint |
| Processor | the instructions as functions |
| Fees, Waiting | dilution and the fee clock; waiting against collecting often, collections that cost nothing |
| Shares, Trading, RoundTrips, Redeemability | proportional shares: Create, Deposit, Redeem, what one undoes of the other, runs of redemptions |
| Settlement | the pending-order countdown and the write-once slots |
| Gains | when a deposit succeeds, and exactly when several of them followed by a redemption gain nothing |
| Conservation, Runs | what every run keeps |
| Outcomes | when Create and CollectFees succeed in any state, and what Create, Deposit and CollectFees leave, in plain numbers |
| Authority | signatures, and what can take anything out of the pool's accounts |
| Locks | when an overdue fee gate can still be opened, over all runs |
| Program | the instructions as methods that change the state in place |
| Instruction, JsDecoder | the wire format and its two decoders |

Conventions. `Error.Panic` is a Rust panic. Arithmetic is that of a release build, where u32 and u64 operations
wrap around (the manifest does not enable overflow checks); every place where it could matter is written out. The clock never goes backwards
and only this program mints or burns pool tokens. An associated token account is a constructor
(`Tokens.Associated`), which makes the address derivation injective; a signature is a boolean; the pool itself
never signs a user's transfer. The pay-out in Settle is an arbitrary transfer from accounts that the pool
does not own. The three fee receivers and a deposit's target may be the same account.

## What turned out false, and when it holds

- A fee ratio of 0 is not free: at every supply nothing is minted if and only if a single period is collected
  (`Waiting.ZeroFeeIsFreeIff`). At a ratio f a collection of supply S is free if and only if (65535 - f) S < f
  (`Waiting.CollectionIsFreeIff`); two periods at once are free below 65534 tokens (`Waiting.TwoPeriodsAtZeroFee`).
- Waiting costs holders at least as much as collecting every single period (`Waiting.WaitingNeverReducesTheFee`),
  but splitting a wait into two longer parts can cost more than waiting: on 64516 tokens 1023 periods and one more
  leave a supply of 65535, 1024 at once one of 65533 (`Waiting.SplittingCanCostMore`).
  `Waiting.SplittingNeverCostsMoreIff` has the exact condition on the three ratios. The reason is that the power is
  not monotone in its exponent (`FixedPoint.NotMonotoneInExponent`).
- The dilution is exact unless the minted amount is cut to 64 bits (`Fees.CollectDilutesExactlyIff`, with an
  example in `Fees.DilutionCanBeCut`).
- A deposit maximises the amount bought, as `program/src/instruction.rs:70-74` promises, if and only if every
  quotient, after the cut to 64 bits, still allows the request or at least as much as some source truly limits
  (`Trading.EffectiveIsGreatestIff`); so always when no quotient exceeds 64 bits (`Trading.UncutIsHarmless`). It can
  fail: a source of 2^63 units against a vault of 1 and a supply of 2 is refused (`Trading.CutCanRefuse`).
- The README of the repository promises that pool tokens are redeemable at any time and that a lock can always
  be undone by anyone. The code refuses redemption once more than one period has passed since the last
  collection (`Redeemability.RedeemableIff`). A collection opens the gate (`Fees.CollectingOpensTheGate`), but
  it divides by the remaining ratio and mints into a 64-bit supply. Without deposits the lock lasts for ever if and
  only if at every later moment the ratio is zero or the supply would overflow (`Locks.LockedIff`). If the ratio
  stays zero nothing that anyone does helps (`Locks.LockedAfterAnyRun`); this is so with fee ratio 65535, and after 2^32
  uncollected periods with any (`Locks.LockedForGood`). The supply alone can do it too (`Locks.LockedBySupply`).
- Packing and unpacking an instruction is the identity if and only if it has fewer than 65536 markets
  (`Instruction.RoundTripIff`), and for a header if and only if its pending count is at most 64
  (`Header.HeaderRoundTrip`).
- Depositing and redeeming what was just bought never gains anything (`RoundTrips.DepositThenRedeemNeverDrains`).
  After several deposits it can: `Gains.TwoDepositsCanGain` pays nothing of an asset and gets a unit of it, in a pool
  that exists for any two assets (`Gains.SampleExists`). The exact
  condition is `Gains.SeveralDepositsGainNothingIff`; the gain is always less than one base unit per asset and deposit
  (`RoundTrips.SeveralDepositsThenRedeem`).
- Settle panics on a market account of less than 117 bytes (`Runs.WhenInstructionsPanic`).
- The JavaScript decoder turns trailing bytes of a Create message into one more amount
  (`JsDecoder.DecodersAgreeIff`).
- The JavaScript decoder never refuses a message for being too short, which the program does: it reads what is
  missing as zeros (`JsDecoder.ThrowsIff`, `JsDecoder.TruncatedReadsAsPadded`).

## Model

| member | source | states |
|---|---|---|
| FixedPoint.NoOverflow | program/src/utils.rs:41-57 | for n >= 2 no u32 product overflows if and only if the base is below 2^16, the only bases the program passes |
| FixedPoint.ErrorBound | program/src/utils.rs:41-57 | r 2^(16(n-1)) <= x^n < (r + n - 1) 2^(16(n-1)): square-and-multiply never over-estimates the exact power and is less than n - 1 units below it |
| FixedPoint.FastAgreesWithStepwise | program/src/utils.rs:41-57 | the logarithmic power differs from one truncating multiplication per period by at most n - 2, and not at all for n <= 2 |
| FixedPoint.AtMostBase | program/src/utils.rs:41-57 | no power exceeds its base |
| FixedPoint.MonotoneInBase | program/src/utils.rs:41-57 | a larger base has a larger power for every exponent |
| FixedPoint.DoublingShrinks | program/src/utils.rs:41-57 | doubling the exponent never raises the power and strictly lowers it unless it is already zero |
| FixedPoint.NotMonotoneInExponent | program/src/utils.rs:41-57 | base 65535: exponent 1023 gives 64516 and exponent 1024 gives 64517 |
| FixedPoint.NextExponent | program/src/utils.rs:41-57 | the next exponent raises the power by at most n - 2 |
| FixedPoint.PowersOfTwo | program/src/utils.rs:63-69 | on 2^a the power is exactly 2^(16 - n(16 - a)), or 0 when that exponent is negative; the repository's test is a = 15, n < 16 |
| FixedPoint.VanishesEventually | program/src/utils.rs:41-57 | every 16-bit base has power 0 from exponent 2^32 on |
| Bytes.FillSlice | program/src/utils.rs:35-39 | every byte from a position on becomes the value, the bytes before it stay |
| Header.HeaderRoundTrip | program/src/state.rs:51-112 | unpacking a packed header gives it back, whatever follows, if and only if its pending count is at most 64; all other fields always survive |
| Header.StatusBits | program/src/state.rs:79-112 | what each of the 256 status bytes means: only zero is uninitialized, bit 7 is the lock, bit 6 says that orders are pending, the low six bits are one less than their number |
| Header.RepackIsCanonical | program/src/state.rs:51-112 | re-packing decoded bytes keeps the meaning and every byte but the status byte, which is kept exactly when it was canonical |
| Header.PackIntoSlice | program/src/state.rs:51-75 | the in-place packing writes the 117 header bytes and no others |
| Layout.UnpackAssets | program/src/state.rs:173-184 | the loop returns the initialized slots in order |
| Layout.PackKeys | program/src/state.rs:206-211 | the loop writes the keys one after the other and nothing else |
| Layout.ImageReadsBack | program/src/processor.rs:284-306 | header, every market and every asset read back from the image that Create writes; no region overlaps another |
| Layout.PatchSlot | program/src/state.rs:194-199 | writing one slot changes that slot only, where the slot of an index is taken modulo 2^59 as the 64-bit offset wraps |
| Layout.PreservesSubsequence | program/src/state.rs:173-184 | if no initialized slot changes, the earlier asset list is a subsequence of the later one |
| Tokens.TransferConserves | program/src/processor.rs:240-257 | an invoked transfer keeps the total of every mint, whatever accounts it names |
| Fees.DilutionIsExact | program/src/processor.rs:1285-1294 | c(S+M) - f < 65535 M <= c(S+M) and S + M = floor(65535 S / f) |
| Fees.MintFeeIsExact | program/src/processor.rs:1300-1362 | the three receivers get exactly the fee between them, even when they coincide, and no other balance changes |
| Fees.MintFeeSucceedsIff | program/src/processor.rs:1300-1362 | with a backed supply the three mints succeed if and only if the supply does not overflow |
| Fees.ClockAdvances | program/src/processor.rs:1269-1290 | the stored time moves by whole periods, never passes the clock, trails it by less than a period, and no operation wraps |
| Fees.CollectMovesClock | program/src/processor.rs:1245-1290 | a successful collection changes the time stamp and no other header field, and leaves nothing to collect |
| Fees.CollectDilutesExactlyIff | program/src/processor.rs:1285-1294 | the new supply is floor(65535 S / f) if and only if the minted amount fits 64 bits |
| Fees.CollectSucceedsIff | program/src/processor.rs:1274-1362 | a due collection succeeds if and only if the remaining ratio is not zero and the supply does not overflow |
| Fees.CollectFeesEffect | program/src/processor.rs:1364-1367 | the new header reads back from the account bytes and the bytes after it stay |
| Fees.CollectingOpensTheGate | program/src/processor.rs:1129-1136 | when redemption is refused for fees there is a cycle to collect, collecting it opens the gate at the same moment, and a second collection is refused |
| Waiting.PeriodicSupply | program/src/processor.rs:1271-1294 | k collections one period apart: S_k x^k <= S 65535^k, and the stamp moves k periods |
| Waiting.WaitingNeverReducesTheFee | program/src/processor.rs:1271-1294 | k periods collected at once leave at least the supply of k collections one period apart, at the same stamp |
| Waiting.SplittingNeverCostsMore | program/src/processor.rs:1271-1294 | if 65535 f(k1+k2) <= f(k1) f(k2), collecting k1 and then k2 periods never leaves a larger supply than collecting them at once, and the header is the same |
| Waiting.SplittingNeverCostsMoreIff | program/src/processor.rs:1271-1294 | this holds of every backed supply if and only if the ratios satisfy that inequality |
| Waiting.SplittingCanCostMore | program/src/processor.rs:1271-1294 | on 64516 tokens at fee ratio 0: 1023 periods and one more leave 65535, 1024 at once leave 65533 |
| Waiting.CollectionIsFreeIff | program/src/processor.rs:1285-1294 | a collection at ratio f leaves the supply S as it is if and only if (65535 - f) S < f |
| Waiting.ZeroFeeIsFreeIff | program/src/processor.rs:1285-1294 | with fee ratio 0, n periods mint nothing at any supply if and only if n = 1 |
| Waiting.TwoPeriodsAtZeroFee | program/src/processor.rs:1285-1294 | with fee ratio 0, two periods at once leave the supply as it is if and only if it is below 65534 |
| Shares.RoundTrip | program/src/processor.rs:438-439 | redeeming t of the E tokens just bought returns at most what was paid, and exactly that for t = E |
| Shares.BackingAfterDeposit | program/src/processor.rs:438-439 | p(S+E) - S < p'S <= p(S+E) |
| Shares.DepositOnce | program/src/processor.rs:438-439 | one more deposit keeps a vault within one unit per call of the exact proportion |
| Shares.RedeemOnce | program/src/processor.rs:1157-1162 | one more redemption keeps a vault within one unit per call of the exact proportion |
| Trading.QuoteIsMinimum | program/src/processor.rs:411-424 | the running minimum is the minimum of the sources' quotients |
| Trading.EntryFeeIsFloor | program/src/processor.rs:469-471 | fee * 65536 <= fee_ratio * amount < (fee + 1) * 65536 |
| Trading.EffectiveIsFeasible | program/src/processor.rs:418-425 | the effective amount is affordable and no transfer exceeds its source, even when a quotient is cut to 64 bits |
| Trading.EffectiveIsGreatestIff | program/src/processor.rs:409-425 | it is the greatest affordable amount asked for if and only if every quotient, cut to 64 bits, still allows the request or at least what some source truly limits |
| Trading.UncutIsHarmless | program/src/processor.rs:418-424 | so always when no quotient exceeds 64 bits |
| Trading.CutCanRefuse | program/src/processor.rs:418-467 | a deposit of a million tokens is refused although the source could pay for it, because 2^63 * 2 / 1 is cut to zero |
| Trading.BuyInMoves | program/src/processor.rs:427-463 | the loop moves the share of each vault from its source into it and touches no other mint |
| Trading.PayOutMoves | program/src/processor.rs:1147-1185 | the loop moves the share of each vault to its target and touches no other mint |
| Trading.BuyInEffect | program/src/processor.rs:407-559 | a deposit moves the shares, mints exactly the effective amount between target and fee receivers, and changes nothing else; how the amount is divided is `Outcomes.DepositCredits` |
| Trading.OpensIff | program/src/processor.rs:330-336 | which bytes are taken for an open pool, with which header and assets, and what is answered on the others |
| Trading.CreateEffect | program/src/processor.rs:219-282 | Create moves exactly the given amounts into the vaults and mints the first million to the target alone |
| RoundTrips.CashOutEffect | program/src/processor.rs:1138-1205 | a redemption pays the shares, burns the tokens from the source, and changes nothing else |
| RoundTrips.CashOutUndoesBuyIn | program/src/processor.rs:407-561 | after a deposit whose fee rounds to zero, redeeming the effective amount restores the supply and every balance |
| RoundTrips.RedeemUndoesDeposit | program/src/processor.rs:1070-1215 | on the whole state, for fewer than 65536 / fee_ratio tokens, Deposit followed by Redeem is the identity while the fee gate is open |
| RoundTrips.DepositKeepsBacking | program/src/processor.rs:407-559 | a deposit keeps the assets behind one pool token to within one base unit |
| RoundTrips.DepositThenRedeemNeverDrains | program/src/processor.rs:1138-1205 | redeeming at most what a deposit has just minted leaves every vault with at least its earlier balance, whatever the fee |
| RoundTrips.DepositRun | program/src/processor.rs:311-562 | the state after any number of deposits: bytes unchanged, every vault in proportion to within one unit per call |
| RoundTrips.SeveralDepositsThenRedeem | program/src/processor.rs:1138-1205 | redeeming what m successive deposits minted pays less than m base units more than they paid in, per asset |
| RoundTrips.RedeemRun | program/src/processor.rs:1070-1215 | the state after any number of redemptions: bytes unchanged while tokens are left, every vault in proportion to within one unit per call |
| RoundTrips.RedemptionsArePaidFairly | program/src/processor.rs:1138-1212 | m redemptions of T tokens in all are paid between share(T) - (m - 1) and share(T) per asset, and redeeming the whole supply empties every vault |
| RoundTrips.EveryCallIsPaidItsShare | program/src/processor.rs:1138-1185 | no call in such a run is paid less than its tokens were worth at the start |
| Gains.DepositSucceedsIff | program/src/processor.rs:369-467 | with proper accounts a deposit succeeds if and only if its owner signed, the pool is unlocked, some vault is owed something and the supply stays in 64 bits; an unsigned one is an invalid argument, one on a pool that is not unlocked a locked operation |
| Gains.SeveralDepositsGainNothingIff | program/src/processor.rs:1157-1162 | after any deposits, redeeming t tokens leaves a vault with at least its first balance if and only if t p1 < (p1 - p + 1) S1; for all tokens they minted, if and only if p S1 < p1 S + S1 |
| Gains.TwoDepositsCanGain | program/src/processor.rs:438-439 | two deposits that pay nothing of an asset, and a redemption of what they minted that is paid one unit of it |
| Redeemability.RedeemSucceedsIff | program/src/processor.rs:1113-1205 | in any state of an open pool, locked or not: with proper accounts a redemption succeeds if and only if the owner signed, no order is pending, the 64-bit clock difference is at most one period, and the source holds the tokens and is not the pool's; and which error the others get |
| Redeemability.RedeemableIff | program/src/processor.rs:1121-1205 | in every reachable state a holder with proper accounts can redeem if and only if no more than one period has passed since the last collection |
| Settlement.SlotWrites | program/src/processor.rs:883-899 | an initialized slot keeps its key, the two named slots get the market's mints, all others stay |
| Settlement.SettleSucceedsIff | program/src/processor.rs:840-963 | given a dex that pays, a settlement succeeds if and only if market[53..85] and market[85..117] name the pool's own wallets and fit the slots, one of the free amounts at 77 and 93 of the open orders is positive, and, if both equal their totals at 85 and 101, an order is pending |
| Settlement.SettleRefusals | program/src/processor.rs:960-971 | nothing free is a locked operation; completing an order when none is pending is invalid account data |
| Settlement.SettleEffect | program/src/processor.rs:865-1013 | a settlement changes the status only, counts down one order exactly when both free amounts equal their totals, keeps the markets and every initialized slot, and moves the two payouts from the dex vaults into the pool's wallets and nothing else |
| Settlement.SettlementRun | program/src/processor.rs:933-980 | along any run the lock half stays, the pending count drops by exactly the completed orders, slots are write-once and the asset list only grows |
| Settlement.CountdownReachesRest | program/src/processor.rs:937-958 | after as many completed orders as were pending the pool is Unlocked or Locked and a further one is refused |
| Conservation.BuyInConserved | program/src/processor.rs:407-559 | a deposit conserves every asset and keeps the pool-token supply equal to what is held |
| Conservation.CashOutConserved | program/src/processor.rs:1138-1205 | so does a redemption |
| Runs.StepKeeps | program/src/processor.rs:1372-1491 | every step keeps the invariant, the asset totals and the account size |
| Runs.EveryRunIsSound | program/src/processor.rs:1372-1491 | from a fresh Init, after any steps: supply = tokens held, status Uninitialized exactly without supply and Unlocked otherwise, every asset conserved |
| Runs.WhenInstructionsPanic | program/src/processor.rs:840-841 | in reachable states, given the pool's own seed: Settle panics if and only if the market has less than 117 bytes, CollectFees if and only if a cycle is due and its ratio is zero, Deposit and Redeem never |
| Runs.RunMovesStamp | program/src/processor.rs:1289-1290 | along any run of an open pool the header changes in nothing but the stamp, which moves by the periods charged |
| Runs.CyclesChargedOnce | program/src/processor.rs:1269-1290 | over any run ending in a collection that is not aborted, the periods charged are exactly the whole periods elapsed |
| Runs.RunKeepsLayout | program/src/state.rs:173-199 | over any run of an open pool the markets stay, an initialized slot keeps its key for ever and the earlier asset list is a subsequence of the later |
| Runs.CreateReadsBack | program/src/processor.rs:284-306 | after Create every field of the header is what was asked for, with the current time as the stamp; the markets and the mints of the funded assets read back in order |
| Runs.RecreateAsNew | program/src/processor.rs:1207-1212 | Create on an emptied pool has the same result, byte for byte, as on a zeroed account of the same size |
| Authority.UnsignedIsRefused | program/src/processor.rs:1113-1116 | an unsigned Create, Deposit or Redeem fails in every state and with all arguments, and changes nothing |
| Authority.UnsignedStepsDropOut | program/src/processor.rs:1372-1491 | every run ends as it would without its unsigned steps |
| Authority.OnlyRedeemTakesOut | program/src/processor.rs:1147-1185 | in every state no step but a signed redemption lowers the balance of an account of the pool |
| Authority.RunKeepsPool | program/src/processor.rs:1372-1491 | over every run without a signed redemption no account of the pool ends with less than it had |
| Outcomes.CreateSucceedsIff | program/src/processor.rs:190-306 | with proper accounts Create succeeds if and only if there is no pool yet, the owner signed, fewer than 65536 markets are given, the period is at least 604800 seconds, everything fits the account and the supply |
| Outcomes.CreateRefusals | program/src/processor.rs:190-221 | what is refused before any account is looked at, and how |
| Outcomes.CreateStartsTheClock | program/src/processor.rs:284-293 | the gate of a new pool closes exactly one period after its creation, and nothing can be collected before that |
| Outcomes.DepositCredits | program/src/processor.rs:469-559 | of E minted tokens the fee is floor(fee_ratio E / 65536), the target gets E - fee, the provider floor(fee / 2), the fee account floor(fee / 4), buy-and-burn the rest |
| Outcomes.CollectOutcome | program/src/processor.rs:1269-1298 | in any state of an open pool and at any clock: when a collection succeeds, and which of its errors or panics it answers otherwise |
| Outcomes.CollectEffect | program/src/processor.rs:1285-1367 | the stamp moves by the whole periods modulo 2^64, all other fields and bytes stay, floor(c S / f) modulo 2^64 tokens are minted and shared out |
| Locks.LockedAfterAnyRun | program/src/processor.rs:1129-1136 | if the remaining ratio is zero from now on, then after any steps, deposits and settlements included, the collection panics and every redemption is refused |
| Locks.PanicsForeverIff | program/src/processor.rs:1285-1294 | the collection panics after every run if and only if the ratio is zero at every later moment |
| Locks.LockedForGood | program/src/processor.rs:1285-1294 | so it is with fee ratio 65535, and after 2^32 uncollected periods with any fee ratio |
| Locks.LockedIff | program/src/processor.rs:1274-1362 | without deposits, no run ever collects or redeems again if and only if at every later moment the ratio is zero or the minted amount overflows the supply |
| Locks.LockedBySupply | program/src/processor.rs:1285-1298 | fee ratio 65534 and 281479271743490 tokens: locked for good although the ratio is not zero |
| Program.PoolProgram.Init | program/src/processor.rs:87-140 | Init leaves a zeroed account of the requested size and no supply |
| Program.PoolProgram.ProcessCreate | program/src/processor.rs:143-309 | the method has the specified result and error |
| Program.PoolProgram.WriteImage | program/src/processor.rs:295-306 | the three writes produce the image, or panic when it does not fit |
| Program.PoolProgram.QuoteAssets | program/src/processor.rs:408-424 | the first deposit loop computes the quote and records the vault balances |
| Program.PoolProgram.TransferIn | program/src/processor.rs:427-463 | the second deposit loop performs the transfers |
| Program.PoolProgram.ProcessDeposit | program/src/processor.rs:311-562 | the method has the specified result and error |
| Program.PoolProgram.CashOutOfPool | program/src/processor.rs:1138-1205 | the redemption loop and the burn have the specified effect |
| Program.PoolProgram.ProcessRedeem | program/src/processor.rs:1070-1215 | the method has the specified result and error, including the reset of the bytes |
| Program.PoolProgram.ProcessCollectFees | program/src/processor.rs:1217-1370 | the method has the specified result and error |
| Program.PoolProgram.ProcessSettle | program/src/processor.rs:812-1016 | the method has the specified result and error |
| Program.PoolProgram.Execute | program/src/processor.rs:1372-1491 | dispatch with roll-back is exactly one step of `Runs`, so the theorems about runs are about this program |
| Instruction.PackInstruction | program/src/instruction.rs:464-596 | the growing buffer ends as the specified message |
| Instruction.UnpackLists | program/src/instruction.rs:253-274 | both loops terminate and return the two lists |
| Instruction.UnpackIff | program/src/instruction.rs:208-462 | unpack(input) = i if and only if input begins with pack(i) and, for Create, i has fewer than 65536 markets and fewer than eight bytes follow |
| Instruction.UnpackErrors | program/src/instruction.rs:208-462 | everything else is an invalid instruction, but a seed cut short panics, with every tag except CreateOrder's |
| Instruction.RoundTripIff | program/src/instruction.rs:208-596 | unpack(pack(i)) = i if and only if i has fewer than 65536 markets |
| Instruction.AcceptedIsPacked | program/src/instruction.rs:208-462 | whatever is accepted begins with the packing of what it decodes to; for Create fewer than eight bytes are left over |
| JsDecoder.DecodeCreateLoop | js/src/instructions.ts:111-145 | the offset-driven loops return the specified object or throw |
| JsDecoder.AmountsAgreeIff | js/src/instructions.ts:130-136 | the two amount loops agree if and only if nothing is left over and every amount is below 2^53 |
| JsDecoder.DecodersAgreeIff | js/src/instructions.ts:83-264 | on every accepted message the two decoders agree if and only if all 64-bit fields are below 2^53 and, for Create, no bytes are left over |
| JsDecoder.AgreeOnPacked | js/src/instructions.ts:83-264 | they agree on everything the program packs, within those bounds |
| JsDecoder.ReturnsItsType | js/src/instructions.ts:83-89 | an object is returned only if the first byte is the requested type, and it is of that type |
| JsDecoder.OtherTypesThrow | js/src/instructions.ts:87-89 | every accepted message throws when it is decoded as another type |
| JsDecoder.ThrowsIff | js/src/instructions.ts:83-264 | on every buffer the decoder throws if and only if the type is wrong or a 64-bit field is at least 2^53; a message is never too short |
| JsDecoder.TruncatedReadsAsPadded | js/src/instructions.ts:92-264 | a message cut short decodes as if zeros followed, but for a short seed |
| JsDecoder.TruncatedOrder | js/src/instructions.ts:158-218 | so does an order, but for its target mint |
| JsDecoder.TruncatedCreate | js/src/instructions.ts:111-145 | a Create message without room for amounts has none |
| JsDecoder.ShortKey | js/src/instructions.ts:125-129 | a key cut short is padded in front |
| JsDecoder.LastChunkIsPadded | js/src/instructions.ts:130-136 | a last chunk of less than eight bytes is the amount that zeros would complete |

## Left out

- CreateOrder: the endpoint is disabled in the program (`program/src/processor.rs:582-584`); only its message format is modelled. So pending orders cannot arise in a run from Init, and the countdown is proved from any state that has them.
- CancelOrder only forwards to the dex.
- Dex internals, rent, system accounts, address derivation and signature verification: foreign code.
- The delegate and close-authority check on vaults in Create, and frozen or closed token accounts.
- The dex's pay-out: the amounts are arbitrary; that they match the open orders is the dex's promise.
- Settle checks neither who owns the market and open-orders accounts, whose bytes are arguments here, nor that the
  program it invokes with the pool's signature (`program/src/processor.rs:834`) is the one named in the header. That
  this program only pays into the pool's wallets is an assumption about the caller's choice.
- Runs.WhenInstructionsPanic: is about the pool's own seed. The program also panics on a caller's seed without a valid
  program address, before it compares the derived keys (`program/src/processor.rs:349-351`).
- Locks.LockedIff: is about runs without deposits, because a deposit changes the supply and so whether the minted
  amount fits; what it says of the ratio holds for all runs (`Locks.PanicsForeverIff`).
- The order in which two simultaneous errors of account checks are reported is that of the source only among the checks that are modelled.
- RoundTrips.RedemptionsArePaidFairly: requires pairwise different assets, none of them the pool token; Create and Settle do not check this. It also requires that pay-outs do not go back into the pool's own accounts.
- RoundTrips.DepositThenRedeemNeverDrains: is stated for one deposit followed at once by a redemption; deposit amounts round down, so for several deposits `Gains.SeveralDepositsGainNothingIff` says exactly when nothing is gained.
- Waiting.WaitingNeverReducesTheFee: requires that the minted amount of the single collection fits 64 bits, the guard of `Fees.CollectDilutesExactlyIff`.
- js/src/state.ts is not compared: it reads the status byte as a signed number.
- The other JavaScript cases than Create have no loop and are modelled as functions only.
- The account-list builders and the remaining JavaScript files.
