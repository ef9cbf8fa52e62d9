# Continuous liquidity pools, verified

A Dafny model of the `x/clp` module: a keeper of two-sided liquidity pools, each holding one external asset
against the settlement asset `fury`, together with the properties its comments, invariants and messages promise.

The project has two layers.

* **Values.** The pool arithmetic and the ledger as functions: `sdk.Dec` is an integer count of 10^-18 with its
  roundings written out, `big.Rat` is an exact `real`, `sdk.Uint` is a natural number whose subtraction can panic.
  Every message is a function from a state to a `Result`: the next state, an error, or a panic. Runs are folds
  over arbitrary interleavings of messages, block beginnings, block ends and administrative settings.
* **Objects.** The keeper as mutable fields (`Keeper.dfy`, `PolicyKeeper.dfy`), the unlock records as shared
  pointers (`UnlockRecords.dfy`), and the three maps of a distribution filled in place and walked in any order
  (`Payouts.dfy`, `EndBlocker.dfy`, `RewardKeeper.dfy`). Every handler and loop is proved to do what the value
  layer says, including which error it ends in; `Keeper.Deliver` undoes a failed message.

| file | contents |
|---|---|
| `Decimal`, `Types`, `Sums` | decimals and rationals, errors and pools, finite sums over maps |
| `Swaps`, `SwapRuns`, `LiquidityAdds`, `Withdrawals`, `SpotPrices` | the pool arithmetic |
| `Unlocks`, `Protection` | unlock records and the protection bucket, as values |
| `Ledger`, `Runs` | the state, the messages, and runs of events |
| `Solvency`, `Supply`, `Accounts` | where the coins are: the module's surplus, the total supply, the signer's account |
| `UnitsCheck`, `Depths` | pool units against providers' units |
| `Distribution`, `DistributionSolvency`, `Allotments` | provider distributions, their order independence, and how much they allot |
| `Rewards`, `RewardsSolvency` | depth rewards, the accumulator, the mint and the burn |
| `UnlockSafety`, `RateLimit` | the lock period and the sale limit over whole runs |
| `Powers`, `Pmtp` | rounded powers, and the ratio-shifting policy over every interleaving |
| `Closing` | when a pool can be closed, whom it pays, and what is left of it |
| `Terms`, `Admission` | what each message pays or earns, and exactly when it goes through |
| `Guarantees` | the results about messages, gathered for the keeper |
| `UnlockRecords`, `Keeper`, `PolicyKeeper`, `Payouts`, `EndBlocker`, `RewardKeeper`, `InvariantChecks` | the imperative layer |
| `Witnesses`, `Scenarios` | runs from an empty ledger in which an intended property is lost |

What the proofs settled about the code:

* In the branches that `GetLiquidityAddSymmetryState` selects the radicands are never negative, and the swapped
  part never exceeds the amount added; the comments beside the two square roots leave this open.
* The removal marked "will never fail" cannot fail, and the balance marked "always >= pre" is.
* Every message goes through under a condition its sender can check beforehand, and only then. What it pays or earns
  is tied to its own amounts and the pools it found, to within the roundings.
* Units earned by any add and withdrawn at once return no more than the add had left after its swap, and of the other
  side no more than two further units swapped would have bought, up to the roundings.
* The units invariant is lost by adding to a pool with an empty side and outstanding units, and by nothing else.
  Only a provider distribution can empty a side.
* In a distributing reward period, the reward of a pool without providers is credited to the pool and its coins are
  burned, so the module's surplus falls by exactly that reward.
* `UseUnlockedLiquidity` is described as removing records with no units left, but both removal messages store the
  caller's list afterwards. An emptied record stays exactly when the removal took all of the first matured one.
* A pool can be too deep to close: the refunds of a decommission, each rounded on its own, may exceed its balance.
  Below 10^18 they never do, and then next to nothing is left over.
* A provider without units keeps its pool from being closed and cannot be removed. Adding one external unit to a pool
  with more external depth than units creates one. If every unit of that pool is then withdrawn, the next provider
  distribution divides by zero.
* Sequences of swaps cannot gain at a running rate if and only if that rate is zero: at every other rate some pool
  loses to a round trip with a split leg.

## Model

| member | source | states |
|---|---|---|
| `Swaps.SwapResult` | x/clp/keeper/calculations.go:222-251 | the fee is the shifted constant-product amount times the fee rate, truncated, and payout and fee together are that amount truncated; nothing moves when a depth or the amount is zero |
| `Swaps.SwapResultNearExact` | x/clp/keeper/calculations.go:222-274 | truncating the gross amount and the fee apart moves the payout by less than one unit from the exact one |
| `Swaps.RoundTripNeverGains` | x/clp/keeper/calculations.go:560-583 | swapping into a pool and straight back never returns more than was sent, in either direction, for every running rate, pair of fees and liabilities |
| `SwapRuns.SwapKeepsProduct` | x/clp/keeper/calculations.go:560-583 | a swap towards fury, or any swap at rate zero, never lowers the product of the depths |
| `SwapRuns.SwapAwayNearlyKeeps` | x/clp/keeper/calculations.go:560-583 | a swap away from fury lowers it by at most the depth it is paid into, while one plus the rate times one less the fee is at most one |
| `SwapRuns.ProductNearlyKept` | x/clp/keeper/calculations.go:560-583 | over every sequence of swaps in which that holds of each swap away from fury, the product falls by at most the sum of the depths those swaps were paid into |
| `SwapRuns.NeverGainsExactly` | x/clp/keeper/calculations.go:560-583 | for each running rate: that no pool with positive depths, under any sequence of swaps with any amounts and fees, is left with no more of one asset and less of the other, holds if and only if the rate is zero |
| `SwapRuns.SplitTripGains` | x/clp/keeper/calculations.go:222-274 | for every positive rate, r in last decimals, a pool and a sale in two halves bought back at once, without fees, that leave the native depth as it was and the external one 2·r·(10^18 + r) lower: no gain on one leg each way does not extend to split legs |
| `LiquidityAdds.ExternalRadicandNonNegative` | x/clp/keeper/calculations.go:404-448 | the external radicand is non-negative for all non-negative depths, amounts and rates and every fee in [0, 1], in every branch |
| `LiquidityAdds.ExternalDiscriminant` | x/clp/keeper/calculations.go:370-448 | the closed form's radicand is the discriminant of the ratio-equalising quadratic |
| `LiquidityAdds.ExternalSwapBracket` | x/clp/keeper/calculations.go:370-449 | after swapping s external units, with s as computed, the rest is no lighter than the pool, and after s + 2 it would be lighter: the two truncations and the floor square root cost at most two units |
| `LiquidityAdds.NativeRootBracket` | x/clp/keeper/calculations.go:485-525 | the native radicand is non-negative and the computed root brackets the root of the quadratic to within two units |
| `LiquidityAdds.NativeSwapBracket` | x/clp/keeper/calculations.go:451-525 | the same bracket for the native side |
| `LiquidityAdds.SwapWithinAdded` | x/clp/keeper/calculations.go:123-172 | in either asymmetric branch the swapped part is between zero and the amount added, so the subtraction after it cannot underflow |
| `LiquidityAdds.UnitsBetweenShares` | x/clp/keeper/calculations.go:123-181 | every add to a pool with both depths positive is priced, the pool's units grow by the units issued, and these lie between the floors of P·r/R and P·a/A |
| `LiquidityAdds.PoolUnitsPriced` | x/clp/keeper/calculations.go:123-181 | every such add swaps a part of its heavy side that brings the rest to the pool's ratio to within two units, at the fee of the asset swapped, and issues exactly the floor of P times what is left over the depth then there |
| `LiquidityAdds.FloorShareMonotone` | x/clp/keeper/calculations.go:174-181 | a larger ratio of deposit to depth never earns fewer units |
| `Withdrawals.PayoutNearShare` | x/clp/keeper/calculations.go:79-109 | withdrawing u of P units pays at most the depth D and differs from D·u/P by at most (D·u/P)·10^-18 + 1 |
| `Withdrawals.SymmetricAddThenRemove` | x/clp/keeper/calculations.go:79-181 | a symmetric add followed at once by removing its units returns at most the deposit times (1 + 10^-18), plus one, on each side |
| `Withdrawals.AddThenRemove` | x/clp/keeper/calculations.go:79-181 | any add followed at once by removing its units returns of the heavy side at most what the swap left, and of the other at most what was added, what two more units swapped would buy and the worth of those two, each with a relative 10^-18 and one unit |
| `Withdrawals.ClaimedNear` | x/clp/keeper/calculations.go:27-77 | the units claimed by w basis points are w/10000 of the provider's, up to the two 18-decimal quotients |
| `Withdrawals.ShareNear` | x/clp/keeper/calculations.go:27-77 | the share a claim takes is the depth's part of it, up to the two 18-decimal quotients |
| `Withdrawals.BasisPointsPayout` | x/clp/keeper/calculations.go:27-77 | a symmetric withdrawal by basis points never fails for a claim within the pool, pays each side's own share truncated and at most its depth, and leaves the truncated rest of the units |
| `Withdrawals.BasisPointsNearShare` | x/clp/keeper/calculations.go:27-77 | withdrawing w basis points of u of the P units pays each side D·u·w / (10000·P), off by at most one unit and a few 10^-18 of the depth |
| `Withdrawals.SoleProviderTakesAll` | x/clp/keeper/calculations.go:27-77 | a sole provider withdrawing all its basis points takes exactly both depths and has no units left |
| `SpotPrices.DecRoundTrip` | x/clp/keeper/pureCalculation.go:16-44 | a decimal converted to a rational and back is itself exactly when it is in range, and refused otherwise |
| `SpotPrices.PricesReciprocal` | x/clp/keeper/calculations.go:276-310 | the exact native and external prices are reciprocal, for every running rate and pair of decimals |
| `SpotPrices.SpotPriceProduct` | x/clp/keeper/calculations.go:276-340 | the reported prices are the exact ones cut to 18 decimals, and the product of the two integers is at most 10^36, so also their rounded product at most one |
| `Decimal.ISqrt` | x/clp/keeper/pureCalculation.go:54-57 | the floor square root: its square is at most the argument, the next square above it |
| `Solvency.CreatePoolSurplus` | x/clp/keeper/msg_server.go:390-454 | creating a pool keeps the module's surplus over its records in every denomination |
| `Solvency.AddLiquiditySurplus` | x/clp/keeper/msg_server.go:644-769 | so does adding liquidity |
| `Solvency.SwapSurplus` | x/clp/keeper/msg_server.go:456-642 | so does a swap, one hop or two |
| `Solvency.RemovePaidSurplus` | x/clp/keeper/executors.go:151-195 | so does a removal, by units or basis points |
| `Solvency.DecommissionSurplus` | x/clp/keeper/msg_server.go:309-388 | closing a pool raises the surplus of its two assets by exactly what its providers were not paid plus its custody, and no other |
| `Closing.ClosesExactly` | x/clp/keeper/msg_server.go:309-388 | in a solvent state with units in step, a small pool none of whose providers is refused by the bank is closed if and only if every provider has units and the sums of their dues, each computable beforehand, fit in its two balances; what is left over is exactly the rest |
| `Closing.ClosingPaysDues` | x/clp/keeper/msg_server.go:309-388 | closing pays every provider exactly its dues in both assets and nobody else anything, only at an administrator's word and below the threshold |
| `Closing.SmallPoolCloses` | x/clp/keeper/msg_server.go:340-366 | such a pool without liabilities, with both balances plus the number of providers below 10^18 − 1, is closed if and only if every provider has units, and then, if it had units, with at most one unit a provider and one more left of either side |
| `Closing.ZeroUnitsKeepOpen` | x/clp/keeper/msg_server.go:340-366 | in any state one listed provider without units makes closing fail |
| `Closing.ZeroUnitsCannotRemove` | x/clp/keeper/msg_server.go:771-1038 | and neither removal message of such a provider succeeds, whatever it asks for |
| `Scenarios.DustAdd` | x/clp/keeper/executors.go:61-127 | in any state, a newcomer's add of one external unit to a pool with native depth and more external depth than units, if it succeeds, stores a provider without units |
| `Scenarios.DustKeepsOpen` | x/clp/keeper/msg_server.go:340-366 | after it nobody can close the pool |
| `Scenarios.DustedPoolCannotClose` | x/clp/keeper/calculations.go:45-53 | a run from an empty ledger: create a pool, add one external unit, remove all but one of the pool's units; the pool is small enough to be closed, and cannot be |
| `Scenarios.DustHaltsDistribution` | x/clp/keeper/provider_distribution.go:250-258 | the same run and a removal of half the last unit leave a provider and no units: the provider distribution after it panics, at every rate |
| `Scenarios.CrowdedPoolCannotClose` | x/clp/keeper/msg_server.go:342-346 | a run from an empty ledger: three providers with 3, 3 and 1 times 10^18 units, then a sale that takes the native depth below the threshold; every provider has units, the dues exceed the 560·10^18 external by 68, and the pool cannot be closed |
| `Runs.SurplusOverRuns` | x/clp/keeper/invariants.go:14-48 | over every run that strands no more reward than the native surplus it began with, the module stays solvent in every denomination; its surplus falls by exactly what was stranded, and rises only when a pool is closed |
| `Supply.HandleSupply` | x/clp/keeper/executors.go:13-232 | no message creates or destroys a coin of any denomination |
| `Supply.IssuedWithin` | x/clp/keeper/rewards.go:49-118 | a reward block leaves in circulation at most the amount it was given |
| `Supply.SupplyOverRuns` | x/clp/keeper/rewards.go:49-118 | over every run the supply changes by what the reward blocks issue and by nothing else |
| `Accounts.SignerMirrorsPools` | x/clp/keeper/executors.go:13-232 | a message other than a decommission changes only its signer's account, which gains exactly what the pools' records lose |
| `Accounts.DepositTakesItsAmounts` | x/clp/keeper/executors.go:13-127 | creating a pool or adding to one costs the signer exactly the message's two amounts |
| `Accounts.RemovalPaysItsPayout` | x/clp/keeper/executors.go:151-195 | a removal pays the provider exactly the computed native and external amounts |
| `Accounts.SwapHonoursItsTerms` | x/clp/keeper/msg_server.go:456-585 | a swap succeeds only between tradable assets neither of which is barred, costs exactly the amount sent and pays at least the minimum asked for |
| `Terms.SwapPays` | x/clp/keeper/msg_server.go:456-642 | every successful swap pays the exact shifted constant-product amount, less the fee of the asset sent, of the old depths to within one unit; through two pools the same of each hop; the pools move by exactly that and nothing else changes |
| `Terms.AddEarns` | x/clp/keeper/msg_server.go:644-769 | every successful add issues the units of `LiquidityAdds.PoolUnitsPriced` at the running rate and the two assets' own fees, or as many as native where a side is empty, and grows pool and provider by exactly them and the two amounts |
| `Terms.RemovalByUnitsPays` | x/clp/keeper/msg_server.go:771-878 | every successful withdrawal by units pays each side its depth times units over the pool's units, within the bound of `Withdrawals.PayoutNearShare`, and pool and provider lose exactly the units and the payments |
| `Terms.RemovalByBasisPointsPays` | x/clp/keeper/msg_server.go:880-1038 | the same by basis points of the provider's units, within the bound of `Withdrawals.BasisPointsNearShare`; the units left are the rest to within the claim's roundings and one |
| `Admission.CreatesExactly` | x/clp/keeper/msg_server.go:390-454 | a pool is created if and only if the native amount reaches the threshold, the external one is positive, the asset may be traded and has no pool, and the signer has both; it then has as many units as native, all its creator's |
| `Admission.AddsExactly` | x/clp/keeper/msg_server.go:644-769 | an add goes through if and only if the signer has both amounts, the pool can price them, and the part swapped first may be traded and is within the sale limit |
| `Admission.SwapsExactly` | x/clp/keeper/msg_server.go:456-642 | in a solvent state a swap goes through if and only if both assets may be traded, the sender has the amount and is not refused, a native sale is within the limit, each hop pays less than its pool holds, and the last at least the minimum |
| `Admission.RemovesUnitsExactly` | x/clp/keeper/msg_server.go:771-878 | in a solvent state a withdrawal by units goes through if and only if the provider has them and has had them unlocked, and the pool can pay both shares and keep some depth on each side |
| `Admission.RemovesBasisPointsExactly` | x/clp/keeper/msg_server.go:880-1038 | the same by basis points, with asymmetry refused |
| `UnitsCheck.AddLiquidityUnits` | x/clp/keeper/executors.go:61-127 | an add keeps every pool's units equal to its providers' if and only if both depths were positive or no units were outstanding |
| `UnitsCheck.CreatePoolUnits` | x/clp/keeper/msg_server.go:390-454 | creating a pool keeps units and providers in step |
| `UnitsCheck.RemovePaidUnits` | x/clp/keeper/executors.go:151-195 | a removal keeps them in step, whether the provider stays or is deleted |
| `UnitsCheck.DecommissionUnits` | x/clp/keeper/msg_server.go:309-388 | closing a pool leaves no provider behind and the others in step |
| `UnitsCheck.UnitsOverRuns` | x/clp/keeper/invariants.go:89-118 | over every run whose adds meet that condition, each pool's units are the sum of its providers' |
| `Depths.StepDeep` | x/clp/keeper/executors.go:166-169 | only a provider distribution can leave a side of a pool empty |
| `Depths.DistributionDeep` | x/clp/keeper/provider_distribution.go:36-62 | a distribution whose rounded rate times balance is below every pool's native depth leaves both sides of every pool non-empty |
| `Depths.UnitsWhileDeep` | x/clp/keeper/invariants.go:89-118 | over every run whose distributions are so, both depths stay positive and the units agree, with nothing asked of the adds |
| `Witnesses.DrainedPoolLosesUnits` | x/clp/keeper/calculations.go:130-145 | a run from an empty ledger that breaks the units invariant: create a pool, distribute all its native, add to both sides |
| `Distribution.ProviderAmountNear` | x/clp/keeper/provider_distribution.go:250-258 | a provider's amount is the grant times its part of the units, off by at most one unit and 10^-18 of the grant |
| `Distribution.AllotWithinCap` | x/clp/keeper/provider_distribution.go:201-237 | one pool's entries go to its holders in order, are tagged with it, and total at most the rounded grant |
| `Allotments.HoldersAre` | x/clp/keeper/liquidityprovider.go:125-140 | the holders a pool is shared among are its listed providers, each with its own units |
| `Allotments.EntriesNearlyAll` | x/clp/keeper/provider_distribution.go:201-237 | where units and providers agree, n providers of a pool are allotted at least the rate times its balance, less one unit and 10^-18 of it for each |
| `Distribution.EntriesExactly` | x/clp/keeper/provider_distribution.go:130-152 | collecting succeeds if and only if every granted pool with a provider has units, and otherwise panics |
| `Distribution.DistributesExactly` | x/clp/keeper/provider_distribution.go:15-62 | a provider distribution goes through if and only if every pool with a provider has units, whatever the rate, the refusals and the order of payment |
| `Payouts.AllotsSharesUpToCap` | x/clp/keeper/provider_distribution.go:201-237 | nobody is allotted more than its share, and together they are allotted the sum of their shares or the cap, whichever is less |
| `Distribution.EntriesWithinGrants` | x/clp/keeper/provider_distribution.go:130-152 | each pool is allotted at most its rounded rate times depth, hence at most the depth, and other pools nothing |
| `Payouts.TotalIsSumOfEntries` | x/clp/keeper/provider_distribution.go:201-237 | each provider's total is the sum of its entries |
| `Distribution.TotalsAgree` | x/clp/keeper/provider_distribution.go:201-237 | the providers' totals summed equal the pools' totals summed |
| `Distribution.PayEachSettles` | x/clp/keeper/provider_distribution.go:45-62 | the payment loop reaches the same accounts and totals for every order of the LP map, whichever recipients the bank refuses, when the module covers the total |
| `Payouts.TotalsNeverUnderflow` | x/clp/keeper/provider_distribution.go:55-57 | backing failed payments out never takes a pool's total below zero |
| `DistributionSolvency.AllotmentsCovered` | x/clp/keeper/provider_distribution.go:45-62 | a solvent module account covers everything allotted |
| `DistributionSolvency.DistributionOutcome` | x/clp/keeper/provider_distribution.go:36-62 | a distribution in a solvent state reaches one state whatever the order: every accepted provider gets its total, every pool gives up exactly what its providers were paid, and no removal fails |
| `DistributionSolvency.DistributionSurplus` | x/clp/keeper/provider_distribution.go:36-62 | a distribution keeps every surplus exactly |
| `Rewards.PoolRewardNear` | x/clp/keeper/rewards.go:206-211 | a pool's reward is its weighted depth's part of the amount, off by at most one unit and 10^-18 of the amount |
| `Rewards.TotalDepthIsSum` | x/clp/keeper/rewards.go:218-233 | the total depth is the sum over the pools of balance times own or default multiplier, in whatever order they are listed |
| `Rewards.RewardsByWeight` | x/clp/keeper/rewards.go:165-211 | every pool is granted the amount times its own weight over that sum, off by at most one unit and 10^-18 of the amount; at most that when the amount runs out first |
| `Rewards.BlockGrantsWithin` | x/clp/keeper/rewards.go:165-193 | the tuples go to distinct existing pools, are never empty, and total at most the amount |
| `Rewards.BlockGrantsNearlyAll` | x/clp/keeper/rewards.go:165-193 | with n pools and some depth, all but n units and n·10^-18 of the amount is handed out |
| `Rewards.MintedWithinSchedule` | x/clp/abci.go:22-41 | over any run of blocks, what is minted plus the accumulator never exceeds the accumulator at the start plus one block share per block in force |
| `Rewards.PerBlockIsFloor` | x/clp/keeper/rewards.go:23-26 | a block's share times the number of blocks is at most the allocation, and one more a block would exceed it |
| `Rewards.DistributesOnGrid` | x/clp/keeper/provider_distribution.go:288-291 | a period distributes exactly at its start and every mod-th block from it, every block without a mod |
| `Rewards.AccumulatorExactly` | x/clp/abci.go:22-41 | every block of a period saves floor(allocation / length); at the heights start + k·mod all that was saved is offered and the accumulator emptied, and at no other |
| `Rewards.SavesUp` | x/clp/abci.go:22-41 | over consecutive blocks with no such height nothing is minted and the accumulator grows by exactly that share a block |
| `Rewards.MintedWithinAllocation` | x/clp/abci.go:22-41 | a period entered with an empty accumulator never mints more than blocks × floor(allocation / length), hence never more than its allocation, for every mod and pool set |
| `RewardsSolvency.RewardsNeverOverpay` | x/clp/keeper/rewards.go:110-117 | after a distributing block's payments the module holds at least what it held before the mint, so the subtraction before the burn cannot fail |
| `RewardsSolvency.RewardsExactly` | x/clp/keeper/rewards.go:28-125 | a reward block goes through if and only if it pays no providers or every rewarded pool with a provider has units, and otherwise panics |
| `RewardsSolvency.RewardsSameInEveryOrder` | x/clp/keeper/rewards.go:98-118 | the state after a reward block is the same for every order of the LP map |
| `RewardsSolvency.RewardsOutcome` | x/clp/keeper/rewards.go:28-125 | the one state a reward block reaches: in a distributing period each accepted provider has its share, pools without providers their grant, and the module what it had; otherwise each pool has its grant and the module the mint |
| `RewardsSolvency.DepthRewardsSurplus` | x/clp/keeper/rewards.go:28-125 | rewards keep every surplus, except for what was credited to pools without providers |
| `RewardsSolvency.RewardsKeepSurplusExactly` | x/clp/keeper/rewards.go:70-117 | the native surplus is kept if and only if the period does not distribute or every rewarded pool has a provider |
| `Witnesses.UnownedRewardIsLost` | x/clp/keeper/rewards.go:71-79 | a run from an empty ledger that ends ten short: create a pool, remove all but one unit, remove half of that one, which pays nothing and deletes the provider, then reward the pool in a distributing block |
| `Unlocks.SpentTotal` | x/clp/keeper/rewards.go:235-257 | spending takes from the records exactly what it does not report as missing |
| `Unlocks.SpentMatured` | x/clp/keeper/rewards.go:235-257 | a removal spends only what was requested at least a lock period ago |
| `Unlocks.SpentExactly` | x/clp/keeper/rewards.go:235-261 | nothing is missing if and only if the matured records hold enough |
| `Unlocks.SpentInOrder` | x/clp/keeper/rewards.go:235-257 | records are spent in the order they were made: up to any record, the matured ones have lost what was asked for, or all they had |
| `Unlocks.SpentKeeps` | x/clp/keeper/rewards.go:235-257 | heights stay, and so does every record that has not matured |
| `Unlocks.PrunedExactly` | x/clp/keeper/rewards.go:285-316 | pruning drops exactly what was requested a lock and a cancel period ago or earlier |
| `UnlockSafety.RemovalAllowedExactly` | x/clp/keeper/rewards.go:235-316 | the records let a removal through if and only if there is no lock period, or enough was requested at least a lock period and less than a lock and a cancel period ago |
| `UnlockSafety.RequestsExactly` | x/clp/keeper/msg_server.go:272-307 | a request is taken if and only if it and what is still waiting fit in the provider's units; of every height what was waiting stays, the request joins at its own, and nothing else changes |
| `UnlockSafety.CancelsExactly` | x/clp/keeper/msg_server.go:48-77 | a cancellation goes through if and only if there is no lock period or that much is waiting, and takes off exactly that, or all there was |
| `UnlockSafety.RemovalSpends` | x/clp/keeper/executors.go:151-195 | a removal takes exactly the units removed off what is waiting, or all of it without a lock period, and leaves younger requests as they were |
| `UnlockSafety.RecordsBackedOverRuns` | x/clp/keeper/msg_server.go:272-292 | in every reachable state a provider's outstanding records total at most its units, across unlock, cancel, prune, add and remove |
| `UnlockSafety.RemovalsWaitOutTheLock` | x/clp/keeper/msg_server.go:771-854 | with a fixed lock period, what a provider removes by any height, plus what it still has waiting, is at most what it requested a lock period before plus what was waiting at the start |
| `UnlockSafety.RemovedAtMostRequested` | x/clp/keeper/msg_server.go:771-854 | hence a provider that starts with no records removes by height h at most what it requested by h minus the lock period |
| `Unlocks.SpentEmpties` | x/clp/keeper/rewards.go:244-257 | spending leaves an emptied record if and only if it asks for at least all of the first matured one |
| `UnlockSafety.RemovalKeepsEmptied` | x/clp/keeper/executors.go:188-193 | after a removal that leaves units, the stored records include an emptied one if and only if the units removed are at least the first matured live record |
| `UnlockSafety.CancelDropsEmptied` | x/clp/keeper/rewards.go:263-282 | after a cancellation they never do |
| `Witnesses.SpentRecordStays` | x/clp/keeper/rewards.go:235-283 | a run from an empty ledger after which a spent record is still stored: create, request five units, wait out the lock, remove five |
| `Protection.FuryValueNearest` | x/clp/keeper/calculations.go:312-315 | the value of native is price times amount rounded to the nearest whole |
| `Protection.DiscountNearest` | x/clp/keeper/calculations.go:602-606 | the fee discount is the fee on the amount rounded to the nearest whole |
| `Protection.CheckedSaleUpdates` | x/clp/keeper/liquidityprotection.go:29-82 | a sale that passes the block check always passes the update after it, at the same price |
| `Protection.UpdatedExactly` | x/clp/keeper/liquidityprotection.go:29-57 | a sale lowers the level by exactly its value, and panics if and only if that is more than the level; a purchase raises it by exactly its value up to the maximum |
| `Protection.RefillRecovers` | x/clp/abci.go:65-88 | left alone the level climbs one replenishment a block until it is full, and stays full |
| `RateLimit.FurySpotPriceNear` | x/clp/keeper/calculations.go:318-329 | the native price is the external depth over the native depth times one plus the running rate, up to the last decimals |
| `RateLimit.NativePriceExactly` | x/clp/keeper/liquidityprotection.go:61-75 | the price is one in fury and otherwise that of the asset's pool, and fails if and only if the pool is missing or has no native depth |
| `RateLimit.SaleRefusedExactly` | x/clp/keeper/msg_server.go:486-515 | in any state a swap is refused for the threshold if and only if it is a native sale whose value exceeds the level, the earlier guards passing |
| `RateLimit.AddRefusedExactly` | x/clp/keeper/msg_server.go:675-731 | an add is, if and only if the native it would sell first is worth more than the level |
| `RateLimit.StepLevels` | x/clp/keeper/liquidityprotection.go:29-57 | every step other than a setting leaves the level at exactly what it was, less what was sold, plus what was bought and replenished, cut at the maximum |
| `RateLimit.SwapBucket` | x/clp/keeper/msg_server.go:486-626 | a swap updates the bucket with the amount sent and with what the swapper's account gained, at the price before the swap |
| `RateLimit.ThresholdPanicUnreachable` | x/clp/keeper/liquidityprotection.go:39-41 | no swap or add, in any state, reaches the panic in the threshold update |
| `RateLimit.LevelWithinMax` | x/clp/keeper/liquidityprotection.go:29-57 | in every reachable state the level is within the maximum, administrators' levels being so, and the next refill cannot underflow |
| `RateLimit.SalesRateLimited` | x/clp/keeper/msg_server.go:486-731 | without administrative changes, the fee-discounted value of native sold over any run by swaps and asymmetric adds is at most the maximum plus floor(max / epoch length) a block plus the value of native bought |
| `Powers.PowerOfWhole` | x/clp/keeper/pmtp.go:50 | at a whole base the square-and-multiply power is exponentiation |
| `Powers.PowerWithin` | x/clp/keeper/pmtp.go:50 | for every base d of at least one, the n-th power lies between d^n (1 − h)^2n and d^n (1 + h)^2n, with h half a unit of the last decimal |
| `Powers.PowerClose` | x/clp/keeper/pmtp.go:50 | for every base between zero and one it is within 2n·h of d^n |
| `Pmtp.RateRecomputed` | x/clp/abci.go:114-138 | at every block of a window the rate is recomputed from the inter-policy rate, which changes only at its end |
| `Pmtp.PolicyOverRuns` | x/clp/abci.go:90-145 | over every interleaving of blocks, schedules, modifications and early ends: inside a window (EpochCounter − 1)·epochLength + BlockCounter = end − h with EpochCounter positive; outside, both counters are zero and the inter-policy rate is the running rate |
| `Pmtp.GenesisConsistent` | x/clp/genesis.go:19-31 | the genesis state satisfies all of that |
| `Pmtp.RateThroughWindow` | x/clp/keeper/pmtp.go:43-55 | from the block that opens a window to the last state of it, whatever comes between, the running rate is the rounded (1 + blockRate)^(h − start + 1) − 1 plus the rate before the window, hence the exact one up to a relative error of one last decimal a block (an absolute one for block rates in [−1, 0]), and the inter-policy rate stays that rate until the policy ends |
| `Pmtp.ScheduledWindow` | x/clp/keeper/msg_server.go:164-196 | a valid schedule is taken if and only if no window is open and it starts later; the window that opens is the one scheduled, and through it the block rate compounds on the running rate there was when it was scheduled |
| `Pmtp.RateNonNegativeOverRuns` | x/clp/keeper/pmtp.go:43-55 | block rates and settings that are not negative keep the running rate so for ever |
| `PolicyKeeper.PolicyKeeper.constructor` | x/clp/genesis.go:19-31 | the stored policy starts in the genesis state |
| `PolicyKeeper.PolicyKeeper.PolicyStart` | x/clp/keeper/pmtp.go:12-41 | when the epochs divide the window, the counters set hold exactly its length in blocks |
| `PolicyKeeper.PolicyKeeper.PolicyCalculations` | x/clp/keeper/pmtp.go:43-55 | the stored rate exceeds the inter-policy rate by the block rate compounded once for each block of the window so far, exactly up to one last decimal a block |
| `PolicyKeeper.PolicyKeeper.BeginBlocker` | x/clp/abci.go:90-145 | the counters hold exactly what is left of a window, are zero outside it, and the stored policy takes the specified step and stays consistent |
| `PolicyKeeper.PolicyKeeper.UpdatePmtpParams` | x/clp/keeper/msg_server.go:164-196 | a schedule is taken if and only if no window is open and it starts in the future, and is then the message's start, end and epoch length |
| `PolicyKeeper.PolicyKeeper.ModifyPmtpRates` | x/clp/keeper/msg_server.go:211-253 | rates change only outside a window, to exactly those given, and an early end leaves no policy executing |
| `UnlockRecords.PruneRecords` | x/clp/keeper/rewards.go:285-316 | keeps pointers to exactly the live records it was given |
| `UnlockRecords.UseRecords` | x/clp/keeper/rewards.go:235-257 | spends through the given pointers, leaving every record and the missing amount as specified |
| `UnlockRecords.TotalUnits` | x/clp/keeper/msg_server.go:281-284 | the sum of the outstanding records |
| `Keeper.Keeper.AddToPool` | x/clp/keeper/executors.go:61-127 | collects both coins, grows the pool, and creates or grows the provider |
| `Keeper.Keeper.RemoveFromPool` | x/clp/keeper/executors.go:151-195 | shrinks the pool, refuses to leave it empty, pays, and deletes the provider or stores it with the caller's spent records |
| `Keeper.Keeper.UseUnlockedLiquidity` | x/clp/keeper/rewards.go:235-283 | spends through the caller's records, fails if a lock period is set and units are missing, and stores the records that are left |
| `Keeper.Keeper.PruneUnlockRecords` | x/clp/keeper/rewards.go:285-316 | fresh records of the stored provider, exactly the live ones and none empty, stored again when any was dropped |
| `Keeper.Keeper.CreatePool` | x/clp/keeper/msg_server.go:390-454 | succeeds under exactly the condition of `Admission.CreatesExactly`; a success costs the signer exactly the two amounts, touches no other account, conserves every coin and the surplus, and leaves the new pool with as many units as native, in step with its provider |
| `Keeper.Keeper.AddLiquidity` | x/clp/keeper/msg_server.go:644-769 | the same for an add, on the terms of `Terms.AddEarns`, with units and providers kept in step if and only if both depths were positive or no units were outstanding |
| `Keeper.Keeper.Swap` | x/clp/keeper/msg_server.go:456-642 | a success costs exactly the amount sent, pays the exact amount at the running rate and the sent asset's fee to within one unit a hop and at least the minimum, touches no other account, conserves every coin and the surplus, and leaves the level within its maximum; it is refused for the threshold exactly when a native sale is worth more than the level, and never ends in the panic |
| `Keeper.Keeper.RemoveLiquidityUnits` | x/clp/keeper/msg_server.go:771-878 | ends in the specified state or error, records spent through shared pointers; a success pays each side its depth times units over the pool's units, within the stated roundings, takes exactly the units off pool and provider, touches no account but the signer's and conserves every coin and the surplus |
| `Keeper.Keeper.RemoveLiquidity` | x/clp/keeper/msg_server.go:880-1038 | the same by basis points of the provider's units, with asymmetry refused |
| `Keeper.Keeper.UnlockLiquidity` | x/clp/keeper/msg_server.go:272-307 | records a request if and only if it and what is still waiting fit in the provider's units, and what is waiting grows by exactly it |
| `Keeper.Keeper.CancelUnlockLiquidity` | x/clp/keeper/msg_server.go:48-77 | goes through if and only if there is no lock period or that much is waiting, and stores what is left |
| `Keeper.Keeper.DecommissionPool` | x/clp/keeper/msg_server.go:309-388 | pays every provider exactly its dues and nobody else, counting the pool down, and deletes the pool |
| `Keeper.Keeper.MustUpdateThreshold` | x/clp/keeper/liquidityprotection.go:29-57 | the level falls by exactly the value sold, or rises by exactly the value bought up to the maximum; a sale that passed the check, or a purchase below the maximum, never panics |
| `Keeper.Keeper.RefillThreshold` | x/clp/abci.go:65-88 | replenishes the level within the maximum, never lowering it, and fails only above the maximum or without an epoch length |
| `Keeper.Keeper.Deliver` | x/clp/handler.go:14-60 | a message is all or nothing; whatever its outcome no coin is made or lost, a solvent module stays solvent with its surplus unchanged unless a pool is closed, the ledger invariants are kept under the add condition, and no provider has more units waiting than it holds |
| `Guarantees.DeliverySound` | x/clp/keeper/invariants.go:14-118 | delivering any message keeps solvency, the units invariant and the protection level together, if an add meets its condition |
| `Guarantees.BlockSound` | x/clp/abci.go:15-88 | so does every block beginning and end that strands no more than the native surplus |
| `Payouts.Payouts.CollectProviderDistribution` | x/clp/keeper/provider_distribution.go:201-237 | fills both LP maps with one pool's entries and returns their total, within the cap |
| `EndBlocker.PartitionProviders` | x/clp/keeper/liquidityprovider.go:125-140 | maps every asset that has providers to them, in store order, and no other |
| `EndBlocker.CollectProviderDistributions` | x/clp/keeper/provider_distribution.go:130-152 | the three maps hold each provider's total, each provider's entries and each pool's total |
| `EndBlocker.Transfer` | x/clp/keeper/provider_distribution.go:45-62 | pays or backs out every provider exactly once, in an order the map chooses |
| `EndBlocker.RemoveFuryFromPools` | x/clp/keeper/provider_distribution.go:39-42 | takes each total from its pool if the pool holds it, in any order |
| `EndBlocker.ProviderDistributionPolicyRun` | x/clp/keeper/provider_distribution.go:15-62 | however the maps are walked, a solvent module reaches the one specified state, and the ledger invariants are kept |
| `RewardKeeper.CalcTotalDepth` | x/clp/keeper/rewards.go:218-233 | the sum of the pools' weighted balances |
| `RewardKeeper.CollectPoolRewardTuples` | x/clp/keeper/rewards.go:165-193 | the tuples as specified, and a mint that is their sum and at most the amount |
| `RewardKeeper.ShareOut` | x/clp/keeper/rewards.go:70-86 | every tuple ends in the providers' maps or in its pool, as the period and the pool's providers decide |
| `RewardKeeper.DistributeDepthRewards` | x/clp/keeper/rewards.go:28-125 | mint, share out, pay in any order and burn the rest, ending in the specified state, with the ledger invariants kept when no more is stranded than the native surplus |
| `RewardKeeper.EndBlockRewards` | x/clp/abci.go:22-41 | every block of a period saves floor(allocation / length), and exactly at start + k·mod all that was saved goes into a distribution; what is minted and saved never exceeds what was saved plus that share; the only failure is the panic above, which leaves the accumulator as it was |
| `InvariantChecks.BalanceModuleAccountCheck` | x/clp/keeper/invariants.go:14-48 | reports a breach if and only if the surplus of fury or of some pool's asset is not zero |
| `InvariantChecks.UnitsCheck` | x/clp/keeper/invariants.go:89-118 | reports a breach if and only if some pool's units differ from the sum of its providers' |

## Left out

- Pmtp.RateThroughWindow: the floating-point power by which a policy's block rate is derived from the governance rate is an arbitrary parameter of the block that opens the window; below a block rate of −1 only the rounded power is stated.
- LiquidityAdds.UnitsBetweenShares: an interval only; the exact units are stated by `LiquidityAdds.PoolUnitsPriced`.
- Closing.SmallPoolCloses: the bound on the balances is sufficient, not necessary; the exact condition for every pool is `Closing.ClosesExactly`.
- SwapRuns.ProductNearlyKept: where the fee does not outweigh the rate, no bound on the product is stated.
- Runs.SurplusOverRuns: a panic in a block's beginning or end, where no transaction undoes it, stops the chain; in a run it is a step that changes nothing, so the results about runs say nothing of a chain that has stopped. `Distribution.DistributesExactly`, `RewardsSolvency.RewardsExactly` and `Keeper.Keeper.RefillThreshold` say when it happens. The listings each event carries are assumed to be complete. Custody and liabilities do not change, because margin positions are not modelled.
- RateLimit.SalesRateLimited: values each trade at the price the code uses for it, and counts the native bought by an asymmetric add as the code does, by quoting the swap it stands for.
- Keeper.Keeper.Deliver: that a failed or panicking message is undone is the work of the transaction machinery the module runs in; the model states it as a snapshot taken before the handler.
- The running rate is taken to be non-negative in the pool arithmetic. `ModifyPmtpRates` accepts negative rates; `Pmtp.RateNonNegativeOverRuns` says when none arises.
- The removal queue and the pool-health checks of margin: queued units are taken as zero and margin as disabled for every pool.
- Asymmetric removals: the handler refuses a non-zero asymmetry, so the branches behind it are not modelled.
- `PolicyRun`'s stored swap prices and the reward-period statistics of a pool: nothing modelled reads them. The prices themselves are in `SpotPrices`.
- Choosing the reward period and the distribution period for a height, token-registry lookups and administrator roles: parameters of a step.
- Provider addresses are taken as well formed, so the filter on them keeps everything.
- 256-bit overflow of unsigned integers and bit-length limits of decimals, apart from the check in `RatToDec`.
- Events, logging, telemetry, encodings, pagination, queries, genesis import and export.
- The other modules of the repository, and its relayer, tools, scripts and contracts.
