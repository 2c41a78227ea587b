# Stake pool: a verified model

This project models a Solana stake pool program and the bot that rebalances it, and proves what they promise.

* **The pool as a state machine.** `World` holds the state: the pool's totals and fees, the validator list, the
  reserve, the stake accounts and the mint. `ListUpdate` refreshes records against accounts, `Handlers` gives
  every instruction as a transition, `Accounting` states the invariant, `Steps` proves that every step of every
  run keeps it. `Quotes`, `Sources`, `Guards` and `Refreshing` say of every instruction, in plain arithmetic on the
  records and accounts, exactly when it succeeds and what it changes. `Program` is the imperative form: a class
  that owns the list as bytes and whose handlers search, read, overwrite, push and compact records in place and
  change fields and accounts step by step, each proved to refine its transition, with rollback of fields and bytes
  on failure.
* **Prices and fees.** `Pricing` is the u64/u128 arithmetic, `PriceTheorems` what it guarantees, `PriceRuns` the
  share price and one party's ledger over whole runs, `Fees` and `FeeRuns` the countdown of fee changes, the
  limit on them and how far they can compound. `Removal` follows a removed validator to its end, `WholeAccounts`
  says when a whole validator account can be withdrawn.
* **The list as bytes.** `Bytes` is the 73-byte record, `BigVecs` the vector in a shared byte buffer with its
  in-place compaction, `ListRange` shows that every reachable list fits its records, `ListBytes` connects the
  bytes to the entries of the state machine.
* **The planner.** `Levels` is the water-filling search and its optimality, `Planner` the reserve-limited plan,
  `PlanComplete` says exactly what it contains, `PlanExecution` proves that it passes the on-chain guards in any
  order, `UpdatePlans` that the crank's instructions cover the list, `PlanOutcome` that after the next epoch's
  update the stake is where the plan wanted it.

## The environment

* The stake and token programs are abstract: a merge moves all lamports of its source, splits and withdrawals
  move the amount asked for, a deactivation sets the deactivation epoch. Any call may fail; the runtime then
  rolls the instruction back, so a failed instruction is a step that changes nothing. Where a theorem says that
  instructions succeed, it says so for a stake program that carries out the calls they make.
* A run consists of successful or failed instructions, epoch boundaries, stakes of the pool deactivated by others
  in the middle of an epoch, and holders burning their own tokens.
  Outside lamports, rewards and losses arrive at epoch boundaries only; no pool account appears or vanishes
  there, and a deactivated stake is not revived.
* Accounts the pool creates are not funded beforehand; accounts of the pool keep its authority and lockup and
  pay the same positive rent; derived addresses are an injective function of vote account and seed.
* All lamports together fit u64 (`Holdings` in `Run`).

## Where the code and its promises part

* The fee check compares `Option<u128>` values, so overflows make it accept too much and refuse too much.
  `Fees.CheckIsSoundIff` and `Fees.CheckIsCompleteIff` give the exact conditions on the current fee,
  `Fees.OverflowPasses`, `Fees.RefusesNoFee` and `Fees.DecreaseRefused` the failing families and inputs. The growth
  theorem is stated for the runs that accept changes only from fees for which the check is sound.
* Not every burnt amount can be reached once the fee is charged, and so not every whole account can be withdrawn:
  `PriceTheorems.ReachedIff` and `WholeAccounts.WholeAccountWithdrawableIff` say exactly when,
  `PriceTheorems.NoAmountLeavesTwo` and `PriceTheorems.HalfTheSupplyIsOutOfReach` give inputs, and
  `WholeAccounts.BlockedPoolIsBlocked` a pool whose only account nobody can withdraw.
* The bot cannot move a validator whose transient seed is the largest u64 (`PlanExecution.PlanExecutesIff`).
* The property test of the epoch fee states a floor bound that is false in general (`PriceTheorems.FloorBoundFails`);
  `PriceTheorems.FloorBoundHoldsIff` says exactly when it holds, `PriceTheorems.EpochFeeIsTight` gives the true bound.
* `push` writes the new length before it checks the room, so a failed push changes the buffer.

## Model

| member | source | states |
|---|---|---|
| `PriceTheorems.DepositKeepsPrice` | program/src/state.rs:167-178 | minting for a deposit never lowers lamports per token, for every pool with tokens outstanding |
| `Quotes.SolDepositIff` | program/src/processor.rs:2944-3094 | a SOL deposit succeeds exactly if the pool is up to date and the tokens fit; it mints lamports · supply / total rounded down, or one for one in an empty pool, charges the rounded-up SOL fee, gives the referrer the rounded-down percentage of it, the manager the rest of it and the user, who gets something and at least the minimum asked for, all else |
| `Quotes.StakeDepositIff` | program/src/processor.rs:2402-2663 | the same for a stake deposit, with the stake fee on the tokens for what is delegated and the SOL fee on the rest; the delegated part joins the stake of the active validator, the rest the reserve, and nothing else changes |
| `Quotes.RoundTrip` | program/src/state.rs:167-192 | redeeming at once what a deposit minted returns the deposit less at most one token's value and a lamport, and never more |
| `Quotes.DepositThenWithdraw` | program/src/processor.rs:2944-3806 | the same of the two handlers: a fee-free SOL deposit followed by the withdrawal of all it minted |
| `Quotes.QuoteIff` | program/src/state.rs:181-192 | a withdrawal quote is given exactly for burning the tokens less the rounded-up fee and paying burnt · total / supply rounded down, if that is not zero, not below the minimum asked for and fits u64 |
| `Quotes.SolWithdrawalIff` | program/src/processor.rs:3599-3806 | a SOL withdrawal succeeds exactly if the pool is up to date, the tokens exist and the reserve can pay that quote and keep its rent; reserve, total and supplies shrink by it and nothing else changes |
| `Quotes.StakeWithdrawalIsExact` | program/src/processor.rs:3097-3437 | a stake withdrawal burns what the quote says and pays the quote, or less when it is truncated to a whole account |
| `Quotes.RewardIsExact` | program/src/processor.rs:2253-2303 | a balance update mints nothing for an invalid fee account or without a reward; otherwise, with f the rounded-up fee on the reward, supply · f / (total - f) tokens rounded down |
| `Quotes.UpdateIff` | program/src/processor.rs:2186-2307 | a balance update succeeds exactly if every record is fresh and the new totals fit; it records reserve beyond rent plus stakes, mints that fee and, when it opens an epoch, remembers the old totals and lets each pending fee ripen by one epoch |
| `Sources.AccountWithdrawalIff` | program/src/processor.rs:3196-3434 | a withdrawal from a stake account succeeds exactly if its entry is active and it is that account's turn: the validator account while some active entry shows active stake above the limit, else the transient account while some shows transient stake above it or the entry any, else the whole validator account; it must bear the quote and keep rent and minimum delegation, and only that account and the field that shows it shrink, by the quote |
| `Sources.ReserveWithdrawalIff` | program/src/processor.rs:3213-3233 | a stake withdrawal from the reserve succeeds exactly if no active entry shows active or transient stake above the limit and the reserve can pay the quote and keep its rent |
| `Sources.ActiveStakeComesFirst` | program/src/processor.rs:3270-3281 | while an active entry has active stake to spare, no withdrawal touches transient stake, the reserve or any status |
| `PriceTheorems.RedemptionIsItsShare` | program/src/state.rs:181-192 | a redemption pays at most its proportional share, and at most the total when at most the supply is burnt |
| `PriceTheorems.WithdrawalKeepsPrice` | program/src/state.rs:181-192 | burning tokens for the quoted lamports, or for fewer, never lowers the price of the rest |
| `PriceTheorems.ValidFeeIsAShare` | program/src/state.rs:949-960 | with a fee of at most one and a u64 amount the rounded-up fee does not overflow and is at most the amount |
| `PriceTheorems.EpochFeeKeepsPrice` | program/src/state.rs:246-262 | minting the manager's fee tokens for a reward never lowers the price below what it was before the reward |
| `PriceTheorems.EpochFeeIsTight` | program/src/state.rs:246-262 | the fee tokens, redeemed by the pool's own withdrawal function, yield at most the rounded-up fee and fall short of it by at most ceil((T + reward - f - 1) / (S + minted)) |
| `PriceTheorems.FeeValueIsWhole` | program/src/state.rs:246-262 | that redemption yields the whole fee exactly when the minting division leaves no remainder |
| `PriceTheorems.FloorBoundHoldsIff` | program/src/state.rs:1338-1372 | the unit test's floor bound on what the fee tokens redeem for holds if and only if the fee divides evenly or the minting division does not |
| `PriceTheorems.FloorBoundFails` | program/src/state.rs:1338-1372 | a concrete pool, fee and reward for which the withdrawal function returns more than that floor |
| `PriceTheorems.SplitKeepsPrice` | program/src/state.rs:181-192 | redeeming in any sequence of pieces leaves the other holders' price intact |
| `PriceTheorems.SplittingNeverPays` | program/src/state.rs:1383-1411 | any split of a redemption pays at most what one redemption of the total pays |
| `PriceTheorems.RedeemingAllEmptiesThePool` | program/src/state.rs:181-192 | any split that redeems the whole supply pays out exactly the whole total |
| `PriceTheorems.NetOfFee` | program/src/state.rs:949-960 | an amount less its fee is the floor of the complementary share |
| `PriceTheorems.ReachedIff` | program/src/state.rs:949-960 | a holder of at most `limit` tokens can burn an amount after the fee if and only if the amount is within the share the fee leaves of the limit |
| `PriceTheorems.NoAmountLeavesTwo` | program/src/state.rs:949-960 | below a full fee not every burnt amount is reached: a fee for which no u64 amount leaves two tokens |
| `PriceTheorems.HalfTheSupplyIsOutOfReach` | program/src/state.rs:949-960 | at a sixty percent fee not even the holder of the whole supply can burn half of it |
| `Fees.CheckIsExactly` | program/src/state.rs:964-997 | the withdrawal-fee check in arithmetic, overflows of the compared options included, for all fees |
| `PriceTheorems.WholeAccountIsHittable` | program/src/processor.rs:3322-3337 | for every account balance some burnt amount redeems into the window that a whole-account withdrawal accepts |
| `WholeAccounts.WholeWithdrawal` | program/src/processor.rs:3322-3434 | when no active entry shows stake above the limit and the entry itself shows no transient stake, a withdrawal from its account succeeds exactly when the quote lies in the accepted window and can be burnt and paid, and then exactly that account goes and its entry is ReadyForRemoval |
| `WholeAccounts.WholeAccountWithdrawableIff` | program/src/processor.rs:3153-3434 | in an up-to-date pool some amount within a holder's tokens withdraws the whole account if and only if the holder can burn, after the fee, the fewest tokens that redeem for its balance |
| `WholeAccounts.FeeBlocksEveryone` | program/src/processor.rs:3153-3337 | at a sixty percent fee an account of at least half the pool that has to be withdrawn as a whole is out of reach even for the holder of every token |
| `WholeAccounts.BlockedPoolIsBlocked` | program/src/processor.rs:3153-3337 | a concrete pool in order, with one validator, whose account nobody can withdraw |
| `Fees.CheckIsExact` | program/src/state.rs:964-997 | with denominators up to 2^63 the withdrawal-fee check accepts exactly the fees within 3/2 of the reference fee |
| `Fees.AcceptedIsWithinLimit` | program/src/state.rs:964-997 | from a checkable current fee only fees within 3/2 of it, or of 1/1000, are accepted |
| `Fees.OverflowPasses` | program/src/state.rs:980-987 | from every other current fee a full fee overflows the compared option and is accepted although it exceeds the limit |
| `Fees.CheckIsSoundIff` | program/src/state.rs:964-997 | the check accepts only fees within the limit if and only if the current denominator is at most 2^63 or the current fee is already at least two thirds |
| `Fees.RefusesNoFee` | program/src/state.rs:980-987 | with a larger current numerator even giving up the fee is refused as an increase |
| `Fees.CheckIsCompleteIff` | program/src/state.rs:964-997 | the check accepts every fee within the limit if and only if the current numerator is at most (2^64 + 1) / 3 |
| `Fees.DecreaseRefused` | program/src/state.rs:980-987 | a concrete decrease that is refused as an increase |
| `Fees.GrowthStep` | program/src/state.rs:897-920 | one step of a fee schedule, a soundly accepted change or an epoch boundary, keeps the growth bound and the 3/2 bound on the pending fee |
| `Fees.ScheduleGrowth` | program/src/state.rs:484-501 | over any schedule run from nothing pending that accepts changes only from checkable fees, the fee stays within max(f0, 1/1000) times (3/2)^(n/2) after n boundaries |
| `ListUpdate.RefreshConserves` | program/src/processor.rs:1959-2178 | refreshing one record conserves reserve plus its two accounts and touches no other account, in whatever state they are |
| `ListUpdate.RefreshKeepsRecordedStatus` | program/src/processor.rs:1978-2166 | a refresh never raises the rank of a status and keeps ReadyForRemoval, DeactivatingTransient and DeactivatingValidator free of the lamports they exclude, whatever the accounts hold |
| `ListUpdate.RefreshAgrees` | program/src/processor.rs:1978-2178 | with sound accounts a refreshed record shows exactly what its accounts hold and its status says which of them exist |
| `ChunkUpdate.RefreshChunkConserves` | program/src/processor.rs:1930-2179 | a chunk update conserves all lamports; exactly the covered entries with matching addresses are refreshed, all other entries and their accounts are left alone |
| `ChunkUpdate.RefreshChunkKeepsInvariant` | program/src/processor.rs:1930-2179 | a chunk update keeps the whole invariant, makes the covered records agree with their accounts and raises no rank |
| `ChunkUpdate.RefreshChunkCompletes` | program/src/processor.rs:1978-2166 | an entry whose stake is on its way out stays so, and a merging update in a later epoch finishes its removal with its lamports in the reserve |
| `Refreshing.RefreshFollows` | program/src/processor.rs:1959-2178 | where the two stakes of a record go, in whatever state they are: transient stake is kept and counted without merging, returns to the reserve when idle, joins the validator's when both are warm and is stopped when its entry is marked; the validator account gives up its excess, or all of it when idle and marked or undelegated; the status ticks off what returned |
| `Refreshing.UpdateFollows` | program/src/processor.rs:1866-2183 | a list update succeeds exactly if the range exists; every entry supplied with its own accounts goes that way, every other entry and its accounts stay |
| `Refreshing.NoMergeLeavesStake` | program/src/processor.rs:1987-2064 | without merging a transient account is the same before and after and its balance is what the record shows; a delegated validator account loses exactly what exceeds delegation and rent, and the status stays |
| `Accounting.UpToDateMeansAccounted` | program/src/processor.rs:2227-2303 | when the pool is up to date its recorded total plus the reserve's rent is what reserve and accounts really hold, and every record agrees with its accounts |
| `Steps.InitializeEstablishes` | program/src/processor.rs:710-747 | a new pool satisfies the invariant, holds each given fee where it belongs with nothing pending, has total, recorded and minted supply equal to what the reserve holds beyond its rent, and its list account has room for exactly the promised number of entries |
| `Guards.InitializeIff` | program/src/processor.rs:710-747 | a pool is set up exactly if its list account is sized for the promised number of entries, at least one and at most 20,000, no fee is above one and the reserve holds its rent |
| `Steps.DepositStakeKeeps` | program/src/processor.rs:2478-2660 | a stake deposit keeps the invariant |
| `Steps.DepositSolKeeps` | program/src/processor.rs:2996-3090 | a SOL deposit keeps the invariant |
| `Steps.WithdrawStakeKeeps` | program/src/processor.rs:3157-3437 | a stake withdrawal from an active, transient, whole or reserve account keeps the invariant |
| `Steps.WithdrawSolKeeps` | program/src/processor.rs:3598-3806 | a SOL withdrawal keeps the invariant |
| `Steps.IncreaseEffect` | program/src/processor.rs:1586-1797 | a successful increase moves exactly lamports plus rent from the reserve into the entry's transient account and changes nothing else |
| `Steps.IncreaseKeeps` | program/src/processor.rs:1586-1797 | an increase, direct or through an ephemeral account, keeps the invariant |
| `Guards.IncreaseIff` | program/src/processor.rs:1518-1800 | an increase succeeds exactly if the pool is up to date, the entry active, the amount at least the minimum delegation and the reserve able to pay it with two rents, transient stake being topped up only in its own epoch, under its seed and through an ephemeral account; the whole new state |
| `Steps.DecreaseEffect` | program/src/processor.rs:1267-1511 | a successful decrease moves lamports and the funded rent into the entry's transient account, deactivating, and changes nothing else |
| `Steps.DecreaseKeeps` | program/src/processor.rs:1267-1511 | a decrease, direct or through an ephemeral account, keeps the invariant |
| `Guards.DecreaseIff` | program/src/processor.rs:1196-1515 | a decrease succeeds exactly if the entry is active, the amount at least the minimum delegation, the validator account keeps rent and minimum delegation and the reserve holds more than a rent it funds, under the same rule for topping up; the whole new state |
| `Steps.AddKeeps` | program/src/processor.rs:955-1051 | adding a validator keeps the invariant, distinct vote accounts included |
| `Steps.RemoveKeeps` | program/src/processor.rs:1107-1181 | removing a validator keeps the invariant |
| `Guards.AddIff` | program/src/processor.rs:906-1054 | a validator is added exactly if the list has room, does not have it and the reserve keeps its rent after funding the new account with rent and minimum delegation; the whole new state |
| `Guards.RemoveIff` | program/src/processor.rs:1058-1193 | a validator is removed exactly if its entry is active; both its stakes are deactivated and its status says which of them it waits for |
| `Steps.TotalStakeIsTheSum` | program/src/processor.rs:2240-2251 | the balance loop succeeds exactly when every record is fresh and the sum fits u64, and then returns the exact sum |
| `Steps.UpdateBalanceKeeps` | program/src/processor.rs:2227-2303 | a balance update re-establishes the accounting from whatever the last total was |
| `Steps.CleanupIsExact` | program/src/processor.rs:2333-2333 | cleanup deletes exactly the entries marked ready, these hold no lamports, and the pool's holdings are the same |
| `Steps.CleanupKeeps` | program/src/processor.rs:2333-2333 | cleanup keeps the invariant: no account loses its entry and no recorded lamports go missing |
| `Steps.InstructionKeeps` | program/src/processor.rs:4080-4310 | every instruction keeps the accounting invariant |
| `Steps.StepKeeps` | program/src/processor.rs:4080-4310 | so does every step of a run: epoch boundaries with arbitrary gains and losses, stake deactivated by others in the middle of an epoch, holders burning their tokens |
| `Steps.RunKeeps` | program/src/processor.rs:2187-2307 | the accounting, status, fee and list invariant holds in every state of every run |
| `PriceRuns.InstructionHoldsPrice` | program/src/processor.rs:2548-2660 | no instruction but a balance update that finds a loss lowers the share price |
| `PriceRuns.WithdrawStakeHoldsPrice` | program/src/processor.rs:3322-3390 | no stake withdrawal lowers the share price, the truncated whole-account one included |
| `PriceRuns.UpdateBalanceHoldsPrice` | program/src/processor.rs:2253-2303 | a balance update that finds no loss does not lower the share price, the minted fee included |
| `PriceRuns.PriceNeverFalls` | program/src/processor.rs:2227-2303 | over every run without a loss the share price never falls |
| `PriceRuns.OthersKeepTheirs` | program/src/processor.rs:2942-3094 | what others hold never shrinks through the instructions of a party, be it one holder or several acting together, with the manager and the referrers among them |
| `PriceRuns.NoPartyProfits` | program/src/state.rs:1383-1411 | over every lossless run of such a party that starts and ends without tokens neither the total nor the supply of the others shrinks |
| `PriceRuns.WithdrawalPays` | program/src/processor.rs:3795-3803 | what a withdrawal pays out, the quote or the truncated account, is what it takes off the recorded total |
| `PriceRuns.CurrentNeedsNoUpdate` | program/src/processor.rs:2227-2303 | a balance update of an up-to-date pool that knows its supply changes nothing |
| `PriceRuns.Ledger` | program/src/processor.rs:3082-3090 | over a whole run of a party in an up-to-date pool, deposits and the payments of withdrawals account for every lamport the reserve and the stake accounts gain or lose |
| `PriceRuns.TakesOutAtMostWhatItPutIn` | program/src/state.rs:1383-1411 | a party that starts and ends without tokens, also one that is its own referrer or the manager, is paid at most the lamports it put in, for every sequence of successful instructions of an epoch, balance updates included |
| `FeeRuns.SolDepositSplits` | program/src/processor.rs:2999-3031 | with valid fees a priced SOL deposit can only fail as too small or by slippage, and user, manager and referrer get exactly the minted tokens |
| `FeeRuns.StakeDepositSplits` | program/src/processor.rs:2548-2600 | the same for a stake deposit with its two fees; no subtraction of the split can fail |
| `FeeRuns.InstructionRecordsSupply` | program/src/processor.rs:2297-2303 | every instruction records exactly what it mints or burns; a balance update makes recorded and mint supply equal |
| `FeeRuns.SupplyGap` | program/src/processor.rs:2297-2303 | over every run the recorded supply exceeds the mint's by exactly what holders burnt on their own since the last balance update |
| `FeeRuns.StepIsScheduleStep` | program/src/processor.rs:2277-2296 | every step of the pool moves each of the three schedules, of the two withdrawal fees and of the fee on rewards, by one accepted change or one boundary, and a boundary is only crossed by the first balance update of an epoch |
| `FeeRuns.WithdrawalFeeGrowth` | program/src/processor.rs:4011-4016 | over every run from nothing pending that accepts changes only from checkable fees, n epoch-opening updates leave a withdrawal fee within max(f0, 1/1000) times (3/2)^(n/2), and a pending fee is within 3/2 of the one in force or of 1/1000 |
| `FeeRuns.FeeChangeWaits` | program/src/state.rs:897-920 | a withdrawal fee, or the fee on rewards, set in epoch e is in force in no state before epoch e + 2, whatever is set in between |
| `FeeRuns.FeeTakesEffect` | program/src/processor.rs:2277-2296 | such a fee that is not set again waits through one epoch-opening update and comes into force with the second, along every run |
| `Removal.InstructionLeavesAlone` | program/src/processor.rs:1125-1131 | no instruction but list update and cleanup touches an entry marked for removal or its accounts |
| `Removal.RankNeverRises` | program/src/state.rs:622-647 | over every run the rank Active, DeactivatingAll, one-sided, Ready of a listed entry never rises |
| `Removal.RemoveRetires` | program/src/processor.rs:1133-1181 | removing a validator puts all its stake on its way out in the current epoch |
| `Removal.RetiredAlongRun` | program/src/processor.rs:1978-2166 | as long as the vote account stays listed its stake stays on its way out along every run, through no-merge and same-epoch updates alike and also once the entry is ready |
| `Removal.RemovalCompletes` | program/src/processor.rs:1978-2166 | after a removal, along any run in which the vote account stays listed, a merging update of a later epoch that covers the entry leaves it ReadyForRemoval with all its lamports in the reserve |
| `Bytes.DecodeEncode` | program/src/state.rs:695-726 | encoding an entry into its 73 bytes and decoding gives the entry back |
| `Bytes.EncodeDecode` | program/src/state.rs:775-786 | every 73-byte record with a proper status byte is the encoding of what it decodes to |
| `Bytes.BytePredicatesAgree` | program/src/state.rs:738-769 | the raw-byte predicates at offsets 0, 8, 40 and 41 say of every record what its decoded fields say |
| `BigVecs.BigVec.Retain` | program/src/big_vec.rs:34-90 | in-place compaction leaves the order-preserving filter of the original records, asks the predicate about exactly those records, writes the right length and leaves the bytes after the old end alone |
| `BigVecs.MovePending` | program/src/big_vec.rs:50-67 | a delayed memmove settles the pending kept records behind the earlier ones |
| `BigVecs.BigVec.Push` | program/src/big_vec.rs:129-150 | push appends exactly when the buffer has room; the length, which wraps at 2^32, is written before that is known and stays written when it fails |
| `BigVecs.BigVec.Find` | program/src/big_vec.rs:153-187 | find returns where the first matching record starts, or nothing exactly when none matches |
| `BigVecs.BigVec.Overwrite` | program/src/big_vec.rs:171-187 | writing through the reference of a search replaces that record only |
| `BigVecs.BigVec.DeserializeSlice` | program/src/big_vec.rs:111-126 | a slice is the records asked for, or an error exactly when it reaches beyond the length |
| `BigVecs.Written` | program/src/big_vec.rs:22-26 | a length prefix, that many records and any slack decode to those records |
| `ListRange.InstructionKeepsRange` | program/src/processor.rs:4080-4310 | an instruction leaves every entry within the widths of its record: fresh amounts are account balances, keys and seeds come from the instruction |
| `ListRange.RunKeepsRange` | program/src/state.rs:695-726 | in every state of every run the whole list fits its 73-byte records |
| `ListBytes.FilterEncoded` | program/src/processor.rs:2333-2333 | filtering encoded records by the raw removal predicate is encoding the filtered entries |
| `ListBytes.CleanupList` | program/src/processor.rs:2333-2333 | cleanup on the account's bytes leaves exactly the encoding of the cleaned list |
| `ListBytes.FindVote` | program/src/processor.rs:964-969 | the search by vote account finds the first, and with distinct vote accounts the only, entry of that account, or none exactly when there is none |
| `ListBytes.AnyActiveAbove` | program/src/processor.rs:3196-3203 | the byte search for active stake above a limit succeeds exactly when such an active entry exists |
| `ListBytes.AnyTransientAbove` | program/src/processor.rs:3204-3211 | the same for transient stake |
| `ListBytes.AddedEntryFits` | program/src/processor.rs:958-1042 | in every run from a new pool an addition that passes the checks leaves room for its record in the list account |
| `ListBytes.AddEntry` | program/src/processor.rs:1042-1051 | pushing the new entry appends its encoding, exactly when there is room |
| `ListBytes.ReadEntry` | program/src/big_vec.rs:171-187 | reading through the reference of a search gives the entry |
| `ListBytes.StoreEntry` | program/src/processor.rs:1504-1511 | writing an entry back changes that entry of the encoded list only |
| `Levels.BillSteps` | clients/py/bot/rebalance.py:157-161 | the bill is monotone in the level and rises by at most one lamport per validator |
| `Levels.ComputeStakeLevel` | clients/py/bot/rebalance.py:141-170 | the binary search returns the greatest level up to the maximum whose bill fits the budget, as found by trying every level |
| `Levels.TargetsAreMaxMin` | clients/py/bot/rebalance.py:246-261 | no assignment within cap and budget gives a larger minimum total stake than the targets |
| `Levels.NothingToExchange` | clients/py/bot/rebalance.py:173-175 | a better-off validator got nothing or the worse-off one is at its cap |
| `Levels.BudgetIsUsed` | clients/py/bot/rebalance.py:246-261 | the targets fit the budget and leave fewer than n lamports of it unless all n validators are at their cap |
| `Levels.TargetsAreFairest` | clients/py/bot/rebalance.py:246-261 | measured at any height, no assignment within the cap that hands out no more lamports leaves less missing in total |
| `Planner.PlanEqualizedStake` | clients/py/bot/rebalance.py:178-334 | the planner's loops, sort and pops compute the specified plan, which `PlanComplete.PlanIsComplete` describes in full |
| `PlanComplete.PlanIsComplete` | clients/py/bot/rebalance.py:201-334 | there is a level the pool can fill and no higher one, a choice of as many validators below it as the reserve can pay a rent for, the least staked first, and a level these can be raised to with the usable reserve and no higher one; the plan holds exactly the decreases to target or account minimum and the increases to the reached level that are at least the minimum, for active validators without transient stake only |
| `Planner.Partition` | clients/py/bot/rebalance.py:204-217 | validators split into the actionable and the skipped, in order |
| `Planner.Compare` | clients/py/bot/rebalance.py:275-295 | one pass plans exactly the decreases of at least the minimum and collects the validators below target |
| `Planner.Drop` | clients/py/bot/rebalance.py:299-304 | dropping from the end keeps the longest prefix whose rents the reserve can pay |
| `Planner.ChosenAreLeastStaked` | clients/py/bot/rebalance.py:298-304 | no dropped validator has less external and active stake together than one that is kept |
| `Planner.MovesAreSafe` | clients/py/bot/rebalance.py:275-334 | every increase is at least the minimum and stays within target and cap, every decrease is at least the minimum and leaves rent plus minimum and the target; no validator moves twice |
| `Planner.MovesAreFunded` | clients/py/bot/rebalance.py:297-334 | all increases with one rent each fit the usable reserve |
| `Sorting.SortPermutes` | clients/py/bot/rebalance.py:298-298 | the sort is a permutation |
| `Sorting.SortOrders` | clients/py/bot/rebalance.py:298-298 | in the order of the keys |
| `PlanExecution.IncreaseRuns` | program/src/processor.rs:1635-1665 | a planned increase of an untouched validator with a seed left passes every guard when the reserve holds it plus two rents, and puts exactly that stake on its way |
| `PlanExecution.DecreaseRuns` | program/src/processor.rs:1314-1335 | a planned decrease of an untouched validator with a seed left passes every guard when the reserve holds two rents, and puts exactly that stake on its way |
| `PlanExecution.NoSeedNoChange` | clients/py/stake_pool/actions.py:539-543 | without a next transient seed that fits u64 the instruction of a change cannot be sent |
| `PlanExecution.RunsInAnyOrder` | clients/py/bot/rebalance.py:455-480 | changes of different validators that are executable now and have a seed left succeed as instructions, in any selection and order the reserve can pay, and the states form a run of the pool |
| `PlanExecution.PlanExecutesIff` | clients/py/bot/rebalance.py:420-480 | a selection of the planned changes executes, in its order, if and only if every validator it moves has a seed left; given a reserve that holds rent, usable and retained parts, a retained part that covers a rent per decrease, and a chain minimum of at most the bot's |
| `PlanExecution.PlanExecutes` | clients/py/bot/rebalance.py:420-480 | such an execution is a run of the pool that keeps the invariant and all lamports, touches only the moved validators and leaves the reserve its rent |
| `Refreshing.RefreshIsLocal` | program/src/processor.rs:1930-2178 | refreshing a record looks at nothing but the record and its two accounts |
| `Refreshing.ChunkRefreshes` | program/src/processor.rs:1930-2179 | a chunk update leaves a covered entry and its accounts exactly as refreshing it alone would |
| `PlanOutcome.PlanSweeps` | program/src/instruction.rs:1707-1755 | the full update plan refreshes every entry exactly once, from the state it started in |
| `PlanOutcome.PlanComesTrue` | clients/py/bot/rebalance.py:178-200 | after the plan, an epoch boundary that changes nothing and the next epoch's merging update, every moved validator holds its old stake plus exactly what was planned, nothing is in transit, and the reserve has paid the raises only and got every cut and every rent back |
| `UpdatePlans.ChunksPartition` | program/src/instruction.rs:1717-1720 | every index lies in exactly one chunk; no chunk is empty or reaches beyond the list |
| `UpdatePlans.PlanCovers` | program/src/instruction.rs:1707-1815 | both plans consist of updates that supply entries with their own accounts and touch every entry, the stale plan all but the fresh ones |
| `UpdatePlans.PlanIsExactly` | program/src/instruction.rs:1707-1815 | the plan has exactly one update, in the mode asked for and of at most the chunk size, for each chunk, or in the stale plan for each chunk with an entry of an earlier epoch, and nothing else |
| `UpdatePlans.PlanRefreshesAll` | program/src/instruction.rs:1707-1815 | either plan, run in any order within the epoch and provided the merges it asks for are carried out, conserves all lamports and leaves every entry fresh, so the balance update cannot find the list out of date |
| `Program.StakePool.UpdateTransient` | program/src/processor.rs:1978-2075 | the in-place handling of a transient account computes its transition, whose effect `Refreshing.RefreshFollows` describes, and keeps the bytes of the record in step |
| `Program.StakePool.UpdateValidator` | program/src/processor.rs:2076-2174 | the in-place handling of a validator account computes its transition and keeps the bytes of the record in step |
| `Program.StakePool.UpdateRecord` | program/src/processor.rs:1930-2178 | a record read from the list's bytes is refreshed in place as its transition says, mismatching accounts skipped, no other record touched |
| `Program.StakePool.UpdateValidatorListBalance` | program/src/processor.rs:1913-2183 | the loop over the supplied pairs refines the chunk transition, whose effect `Refreshing.UpdateFollows` describes, the error case included |
| `Program.StakePool.SumRecords` | program/src/processor.rs:2229-2251 | the loop that reads every record from the bytes refines the recursive total with its three errors |
| `Program.StakePool.UpdateStakePoolBalance` | program/src/processor.rs:2187-2307 | the balance update refines its transition, whose outcome `Quotes.UpdateIff` describes, error included |
| `Program.StakePool.ProcessDepositSol` | program/src/processor.rs:2942-3094 | the SOL deposit refines its transition, whose outcome `Quotes.SolDepositIff` describes, error included |
| `Program.StakePool.ProcessDepositStake` | program/src/processor.rs:2478-2663 | the stake deposit, which merges first and mints three times, refines its transition, whose outcome `Quotes.StakeDepositIff` describes, error included |
| `Program.StakePool.ProcessWithdrawSol` | program/src/processor.rs:3598-3806 | the SOL withdrawal refines its transition, whose outcome `Quotes.SolWithdrawalIff` describes, error included |
| `Program.StakePool.ProcessWithdrawStake` | program/src/processor.rs:3153-3440 | the stake withdrawal, which searches the bytes for stake, burns, splits and then edits the record, refines its transition, whose outcome `Sources.AccountWithdrawalIff` and `Sources.ReserveWithdrawalIff` describe, error included |
| `Program.StakePool.ProcessIncreaseValidatorStake` | program/src/processor.rs:1575-1800 | the increase with its splits, delegation and merge refines its transition, error included |
| `Program.StakePool.ProcessDecreaseValidatorStake` | program/src/processor.rs:1255-1515 | the decrease with its splits, rent funding, deactivation and merge refines its transition, error included |
| `Program.StakePool.ProcessAddValidator` | program/src/processor.rs:947-1054 | adding a validator pushes its record, which always fits, and refines its transition, error included |
| `Program.StakePool.ProcessRemoveValidator` | program/src/processor.rs:1100-1193 | removing a validator deactivates its stake, marks its record and refines its transition, error included |
| `Program.StakePool.ProcessCleanup` | program/src/processor.rs:2333-2333 | compacting the list's bytes in place deletes exactly the entries marked ready, keeps the invariant and every lamport, and leaves the bytes behind the old end alone |
| `Program.StakePool.ProcessSetFee` | program/src/processor.rs:4009-4017 | a fee is set if and only if it is at most one, within the arithmetic limit and the pool is up to date where it must be; then exactly that fee changes, a deferred one to come into force after two more epoch-opening updates, and otherwise nothing does |
| `Program.StakePool.Execute` | program/src/processor.rs:4080-4310 | an instruction with rollback of fields and bytes on failure is a step of a run: it keeps the invariant, and afterwards the list's bytes hold exactly the entries of the new state |

## Left out

- Preferred deposit and withdraw validators: two more guards that only reject instructions; the conditions for
  success are those of a pool that prefers none.
- Account-key, owner, signer, program-id and sysvar checks, bump seeds and logging.
- Epoch-reward-distribution guard of the list update: it only rejects the instruction.
- Internals of the stake, token and system programs, warm-up and cool-down included.
- The wrapped-SOL and session wrappers around the SOL deposit and withdrawal.
- Transfer of withdrawal fees from the user to the manager: it moves tokens between holders and changes no supply.
- Token metadata, and the setters of manager, staker and funding authorities.
- Status bytes that are no status: `Bytes` covers them, the state machine assumes decodable records.
- The order in which an instruction reports one of several errors, where the transition and the source could differ.
- `plan_even_split`, the service loop, float conversions of percentages, RPC calls and output of the bot.
- CLI and JavaScript clients, and instruction serialization.
