# Verification of the Terra delta-neutral contracts

A Dafny model of the Terra side of Aperture: the delta-neutral position engine and its life
cycle, the cross-chain manager with its instruction format, and the Anchor Earn proxy.

Amounts are naturals, and a decimal is the natural number of its 10^-18 units. Every operation
that the 128-bit and 256-bit types check is checked in the model and rounds down as they do. A
contract call either commits or is undone as a whole, so a panic and a returned error are both an
`Err` of `Results.Result`.

| file | models |
|---|---|
| `Results`, `FixedPoint` | fallible results, 128-bit amounts and decimals, facts about floor division |
| `Terraswap` | the swap simulation, the search that inverts it, minting of LP tokens |
| `Spectrum` | the share accounting of the Spectrum farm |
| `Rebalance`, `RebalanceExecution` | the four chained searches, and what executing their messages does to the chain |
| `LongFarmTopUp`, `Pairing` | raising the mAsset balance from the farm, pairing uusd and mAsset into liquidity |
| `MirrorMath`, `SafeRatio` | nine-digit decimal arithmetic, keeping the collateral ratio in range |
| `DeltaNeutralInvest` | splitting a budget into collateral and a long swap |
| `Lifecycle`, `LifecycleRuns` | the position contract, its transactions, and what every run of them keeps |
| `LifecycleOutcomes` | what each kind of transaction sends and stores, message by message |
| `Bytes`, `Base64`, `Instruction` | big-endian integers, base 64, the instruction format |
| `TokenUtil`, `OutgoingTransfer` | accepting and forwarding assets, transfers out of the manager |
| `Positions` | which position a call acts on, with what, and that others are left alone |
| `Manager`, `CrossChain`, `HolderIndex` | the manager contract, its runs beside the token bridge, the paged index of positions |
| `AnchorEarnProxy` | the ledger of aUST per position |

Contracts whose handlers write storage are classes: `Lifecycle.PositionContract`,
`Manager.TerraManager` and `AnchorEarnProxy.EarnProxy`. Each method is proved equal to a function
on the value of the storage, and the properties of runs are proved about those functions.

What the code does differently from what its comments or a reader may expect, kept as it is:

- `compute_terraswap_offer_amount` never tests its initial upper bound, so an ask that nothing
  smaller attains yields the largest 128-bit amount (`Terraswap.UnattainableAsk`). In the search of
  an opening that amount overflows a sum, so that the opening aborts instead of trying less
  collateral (`DeltaNeutralInvest.FeasibleButAborts`).
- When one leg of a withdrawal rounds to zero its message is dropped and the other leg is still
  counted. `RebalanceExecution.DroppedLegOvershoots` is a state in which the prediction then fails,
  and `RebalanceExecution.NetLongExact` says exactly when it holds.
- Releasing collateral can underflow at tiny collateral prices; `SafeRatio.ReleaseFitsExactly` says
  at which, and `SafeRatio.UnderflowsAboveTenNanos` is one above 10^-8.
- Comments at the two LP searches speak of the leftmost amount. Rounding can make their tests
  non-monotone (`Rebalance.ProbeNotMonotone`), so the model proves a boundary: the amount found is
  enough and its predecessor is not. On the net-long side it is the least amount where one LP token
  is behind each share (`Rebalance.BoundaryIsLeast`). For the two swap-offer searches, whose tests
  are monotone, the model proves the extreme amount.
- A position opened while the oracle price is stale stores no CDP index, and nothing later does: the
  rebalance that would set up its CDP ends in a check that loads the index, so it never commits
  (`LifecycleRuns.PendingNeverOpens`).
- A CDP without debt is taken to have been liquidated: closing it leaves whatever collateral it has
  (`LifecycleOutcomes.ClosingSends`, `LifecycleOutcomes.Repayment`).
- An opening whose data is an empty byte string is written like one without data
  (`Instruction.EmptyDataConflated`).
- An asset list may name a native token twice; each entry is compared with the same sent amount, so
  that the call forwards more than it brought (`CrossChain.NamedTwiceOverdraws`).
  `CrossChain.CallSparesHoldings` says exactly which calls lower a holding. External transfers
  exclude it (`CrossChain.ExternalNamesOnce`), and so does a bank that refuses coins repeating a
  denomination (`CrossChain.BankSuffices`).

Assumptions about the surroundings, stated as preconditions where they are used:

- the Spectrum farm backs every share with at least one LP token, and a staked balance is the floor
  of the shares' worth (`Spectrum.Staked`); someone else holds LP tokens too (`PositionState.WellFormed`);
- hashes of signed messages do not collide (`CrossChain.Collisionless`), and managers on other
  chains list a transfer in one instruction and once in it (`CrossChain.ListedOnce`);
- storage iterates keys in byte order (`HolderIndex.IsRange`); JSON decoding undoes encoding
  (`Instruction.Json.Inverse`);
- the cw20 contracts and the fee collector that an external transfer pays do not use the token
  bridge between the query of its sequence number and the transfer (`OutgoingTransfer.Inert`);
- contracts do not start transactions (`LifecycleRuns.FromOutside`), and Mirror's terms do not
  change within one (`LifecycleRuns.Steady`).

Nothing was executed; everything stated here is checked by the verifier alone.

## Model

| member | source | states |
|---|---|---|
| `Terraswap.SwapReturnMono` | terra_contracts/contracts/delta_neutral_position/src/dex_util.rs:341-373 | offering more never returns less, through both roundings |
| `Terraswap.SwapReturnStep` | terra_contracts/contracts/delta_neutral_position/src/dex_util.rs:341-373 | one more unit offered returns at most k more when the ask pool is at most k times the offer pool |
| `Terraswap.SwapNothing` | terra_contracts/contracts/delta_neutral_position/src/dex_util.rs:272-291 | an offer of nothing returns nothing |
| `Terraswap.GrossReturnAtLeast` | terra_contracts/contracts/delta_neutral_position/src/dex_util.rs:272-291 | the gross return is the exact quotient to within one unit |
| `Terraswap.GrossReturnExact` | terra_contracts/contracts/delta_neutral_position/src/dex_util.rs:272-291 | the gross return is the one amount that the decimal quotient of the constant product allows, stated without division |
| `Terraswap.CommissionExact` | terra_contracts/contracts/delta_neutral_position/src/dex_util.rs:279-285 | what is left is the one amount between 997/1000 of the gross return and that plus one: the commission is 3/1000, rounded down |
| `Terraswap.SwapSimulated` | terra_contracts/contracts/delta_neutral_position/src/dex_util.rs:272-291 | a simulated swap fails only on an empty or unrepresentable pool, adds the whole offer, takes out what it returns, and returns the gross return less the commission |
| `Terraswap.ProductLoss` | terra_contracts/contracts/delta_neutral_position/src/dex_util.rs:272-291 | a swap loses less than (offer pool after) / 10^18 of the constant product, and none while that pool is at most 10^18 |
| `Terraswap.RoundTripCosts` | terra_contracts/contracts/delta_neutral_position/src/dex_util.rs:272-373 | selling x and buying at least x back costs at least what the sale returned, for all reserves |
| `Terraswap.ComputeOfferAmount` | terra_contracts/contracts/delta_neutral_position/src/dex_util.rs:341-373 | terminates with the least offer whose simulated return attains the ask, or the largest 128-bit amount when no smaller one does; fails when the ask is not below the pool, and otherwise only by dividing by zero on an empty offer pool |
| `Terraswap.LeastOfferOvershoot` | terra_contracts/contracts/delta_neutral_position/src/dex_util.rs:341-373 | the least offer returns the ask, exceeded by less than k when the ask pool is at most k times the offer pool |
| `Terraswap.LeastOfferWithinBudget` | terra_contracts/contracts/delta_neutral_position/src/dex_util.rs:341-373 | the least offer is within a budget if and only if spending the budget attains the ask |
| `Terraswap.UnattainableAsk` | terra_contracts/contracts/delta_neutral_position/src/dex_util.rs:357-372 | an ask below the pool that the commission puts out of reach is answered with the largest 128-bit amount |
| `Terraswap.IntegerSqrt` | terra_contracts/contracts/delta_neutral_position/src/dex_util.rs:414-431 | the first deposit of a pair mints the integer square root |
| `Terraswap.FirstMintIsLargest` | terra_contracts/contracts/delta_neutral_position/src/dex_util.rs:414-431 | the first deposit mints the largest amount whose square is within the product |
| `Terraswap.MintIsLargest` | terra_contracts/contracts/delta_neutral_position/src/dex_util.rs:414-431 | a later deposit mints the largest amount in proportion to both sides |
| `Spectrum.BurnsCeiling` | terra_contracts/contracts/delta_neutral_position/src/spectrum_util.rs:61-153 | unbonding w burns exactly the ceiling of w * shares / backing |
| `Spectrum.UnbondWithinBalance` | terra_contracts/contracts/delta_neutral_position/src/spectrum_util.rs:128-153 | unbonding up to the staked balance succeeds and leaves at most balance - w |
| `Spectrum.UnbondEverything` | terra_contracts/contracts/delta_neutral_position/src/spectrum_util.rs:128-153 | unbonding the whole balance burns all shares and leaves nothing |
| `Spectrum.UnbondMono` | terra_contracts/contracts/delta_neutral_position/src/spectrum_util.rs:128-153 | what is left is non-increasing in what is unbonded |
| `Spectrum.UnbondStep` | terra_contracts/contracts/delta_neutral_position/src/spectrum_util.rs:128-153 | unbonding one LP token more leaves less by at most two tokens and the worth of one share |
| `Spectrum.UnbondKeepsPrice` | terra_contracts/contracts/delta_neutral_position/src/spectrum_util.rs:128-153 | one unbond does not lower the LP value per share |
| `Spectrum.PriceNeverFalls` | terra_contracts/contracts/delta_neutral_position/src/spectrum_util.rs:128-153 | over any sequence of unbonds the LP value per remaining share never falls |
| `Spectrum.WorthByPrice` | terra_contracts/contracts/delta_neutral_position/src/spectrum_util.rs:73-81 | a share price that did not fall is worth at least as much for the same shares |
| `Rebalance.Search` | terra_contracts/contracts/delta_neutral_position/src/rebalance.rs:160-186 | the half-interval search terminates at a boundary of its test within the range it is given |
| `Rebalance.FindLongWithdrawal` | terra_contracts/contracts/delta_neutral_position/src/rebalance.rs:153-187 | the net-long LP search stays within the staked LP; selling everything after it is not net long, and with one LP less it would be; it is the least such amount where one LP token is behind each share |
| `Rebalance.ProbeNotMonotone` | terra_contracts/contracts/delta_neutral_position/src/rebalance.rs:160-187 | a position for which withdrawing one LP token is enough and withdrawing two is not, so that a boundary is all the first search can find |
| `Rebalance.OnePerShareLeft` | terra_contracts/contracts/delta_neutral_position/src/spectrum_util.rs:128-153 | unbonding from a farm with one LP token behind each share leaves exactly the rest |
| `Rebalance.LongProbeAntitone` | terra_contracts/contracts/delta_neutral_position/src/rebalance.rs:159-180 | on such a farm the long amount that the first search probes never rises with the withdrawal |
| `Rebalance.BoundaryIsLeast` | terra_contracts/contracts/delta_neutral_position/src/rebalance.rs:159-193 | on such a farm an amount suffices if and only if it is at least the boundary found |
| `Rebalance.EverythingSold` | terra_contracts/contracts/delta_neutral_position/src/rebalance.rs:153-187 | withdrawing all LP and selling everything is never net long |
| `Rebalance.LongProbeIsSellAll` | terra_contracts/contracts/delta_neutral_position/src/rebalance.rs:164-180 | what the first search predicts is what selling the whole balance does after the withdrawal |
| `Rebalance.FindSellOfferEnd` | terra_contracts/contracts/delta_neutral_position/src/rebalance.rs:223-245 | the sell search ends one past an offer that leaves the position long or neutral |
| `Rebalance.SellStep` | terra_contracts/contracts/delta_neutral_position/src/rebalance.rs:233-245 | selling one more unit lowers the long amount by at most one |
| `Rebalance.SellExact` | terra_contracts/contracts/delta_neutral_position/src/rebalance.rs:223-258 | a sell search that starts long or neutral, and whose end would not be long, lands exactly on the short amount, and nothing more can be sold |
| `Rebalance.WithdrawalConserves` | terra_contracts/contracts/delta_neutral_position/src/rebalance.rs:195-221 | a withdrawal moves both tokens from the pool to the position without loss and never empties the uusd side |
| `Rebalance.RedeemedExact` | terra_contracts/contracts/delta_neutral_position/src/rebalance.rs:195-206 | a withdrawal redeems its part of a reserve, with both roundings down |
| `Rebalance.WithdrawToSell` | terra_contracts/contracts/delta_neutral_position/src/rebalance.rs:191-221 | the long-side liquidation: balances, pool, LP and messages after it, with the withdraw message dropped when a redeemed amount is zero |
| `Rebalance.SellToNeutral` | terra_contracts/contracts/delta_neutral_position/src/rebalance.rs:223-258 | the swap offer after a long-side liquidation makes the predicted long amount equal the short amount |
| `Rebalance.RebalanceNetLong` | terra_contracts/contracts/delta_neutral_position/src/rebalance.rs:152-259 | a net-long plan is neutral to the unit whenever the withdrawal leaves the position long or neutral; no abort within the stated range |
| `Rebalance.RoundedShort` | terra_contracts/contracts/delta_neutral_position/src/rebalance.rs:153-221 | a withdrawal that itself rounds the position short leaves it short by less than (pool + balance) * (LP the last token cost / supply left + 10^-18) mAsset |
| `Rebalance.RoundedShortAtOnce` | terra_contracts/contracts/delta_neutral_position/src/rebalance.rs:153-221 | with nothing withdrawn it is short by at most pool / 10^18 mAsset |
| `Rebalance.FindShortWithdrawal` | terra_contracts/contracts/delta_neutral_position/src/rebalance.rs:261-312 | the net-short LP search stops within the staked LP whenever withdrawing all would suffice, at a boundary |
| `Rebalance.ShortProbeIsBuyAll` | terra_contracts/contracts/delta_neutral_position/src/rebalance.rs:271-305 | what the first search predicts is what spending the whole uusd balance does after the withdrawal |
| `Rebalance.BuyStep` | terra_contracts/contracts/delta_neutral_position/src/rebalance.rs:357-373 | buying more never lowers the long amount, and raises it by at most what the swap returns |
| `Rebalance.FindBuyOffer` | terra_contracts/contracts/delta_neutral_position/src/rebalance.rs:347-373 | the buy search ends at an affordable offer that suffices, its predecessor not |
| `Rebalance.BuyOvershoot` | terra_contracts/contracts/delta_neutral_position/src/rebalance.rs:347-373 | the least sufficient offer overshoots the short amount by less than k when the pool holds at most k times as much mAsset as uusd |
| `Rebalance.WithdrawToBuy` | terra_contracts/contracts/delta_neutral_position/src/rebalance.rs:316-345 | the short-side liquidation: balances, pool, LP and messages; more LP than is staked aborts |
| `Rebalance.UnbondTooMuch` | terra_contracts/contracts/delta_neutral_position/src/rebalance.rs:338-343 | unbonding one more LP than is staked fails |
| `Rebalance.LiquidateToBuy` | terra_contracts/contracts/delta_neutral_position/src/rebalance.rs:268-345 | the search and the liquidation of the short side together |
| `Rebalance.BuyToNeutral` | terra_contracts/contracts/delta_neutral_position/src/rebalance.rs:347-386 | the offer is the least that reaches long >= short, within the uusd then held |
| `Rebalance.ReadyToBuy` | terra_contracts/contracts/delta_neutral_position/src/rebalance.rs:316-373 | after a sufficient withdrawal, spending all uusd reaches the short amount |
| `Rebalance.WithdrawalKeepsBalance` | terra_contracts/contracts/delta_neutral_position/src/rebalance.rs:329-337 | a withdrawal keeps mAsset within k times uusd in the pool |
| `Rebalance.WithdrawalNeverRaisesLong` | terra_contracts/contracts/delta_neutral_position/src/rebalance.rs:316-345 | a withdrawal never raises the long amount above the one the state reports |
| `Rebalance.NetShortBuys` | terra_contracts/contracts/delta_neutral_position/src/rebalance.rs:374-386 | the swap of a net-short position is never for a zero amount |
| `Rebalance.RebalanceNetShort` | terra_contracts/contracts/delta_neutral_position/src/rebalance.rs:260-387 | a net-short plan is affordable and least, and exact when the pool holds no more mAsset than uusd |
| `Rebalance.AchieveDeltaNeutralFromState` | terra_contracts/contracts/delta_neutral_position/src/rebalance.rs:121-391 | dispatch on long against short; nothing is sent when they are equal |
| `RebalanceExecution.WithdrawalExecutes` | terra_contracts/contracts/delta_neutral_position/src/spectrum_util.rs:203-229 | executing unbond and withdraw succeeds if and only if both assets come back, and then leaves farm, pool and position as the searches assumed |
| `RebalanceExecution.NetLongExecutes` | terra_contracts/contracts/delta_neutral_position/src/rebalance.rs:152-259 | executing a net-long plan whose withdraw message is sent ends with the chain itself neutral to the unit |
| `RebalanceExecution.NetLongExact` | terra_contracts/contracts/delta_neutral_position/src/rebalance.rs:152-259 | a plan predicted to be neutral leaves the chain neutral if and only if its withdraw message is sent, or the swap is covered without it and the farm is worth as much as farm and withdrawn mAsset |
| `RebalanceExecution.DroppedExecutes` | terra_contracts/contracts/delta_neutral_position/src/rebalance.rs:207-213 | without the withdraw message a plan executes if and only if the balance covers the swap, and what it leaves |
| `RebalanceExecution.DroppedNeverLong` | terra_contracts/contracts/delta_neutral_position/src/rebalance.rs:207-213 | without the withdraw message the position never ends longer than predicted |
| `RebalanceExecution.NetShortExecutes` | terra_contracts/contracts/delta_neutral_position/src/rebalance.rs:260-387 | executing the plan of a net-short position succeeds if and only if both assets of the withdrawal come back; it spends no more uusd than held and ends between short and short + k - 1 |
| `RebalanceExecution.ReportedLong` | terra_contracts/contracts/delta_neutral_position/src/util.rs:106-136 | the long amount a state reports is at least the redeemable one, and at most one more in a pool of up to 10^18 mAsset |
| `RebalanceExecution.DroppedLegOvershoots` | terra_contracts/contracts/delta_neutral_position/src/rebalance.rs:207-213 | a state in which the dropped withdraw message leaves a position without the mAsset that was predicted |
| `LongFarmTopUp.RaiseUntilEnough` | terra_contracts/contracts/delta_neutral_position/src/util.rs:194-201 | the correction loop ends at the first amount from the estimate up that redeems enough under two floors, and always returns it when the amounts it can try are representable |
| `LongFarmTopUp.IncreaseMirrorAssetBalance` | terra_contracts/contracts/delta_neutral_position/src/util.rs:166-209 | nothing is sent when the balance suffices; otherwise the first sufficient LP amount is unbonded and withdrawn, without fail for a target within balance and farm |
| `LongFarmTopUp.StakeInRange` | terra_contracts/contracts/delta_neutral_position/src/util.rs:175-201 | a target within the farm stays representable when the stake leaves the steps below the supply |
| `LongFarmTopUp.TwoSteps` | terra_contracts/contracts/delta_neutral_position/src/util.rs:194-201 | two increments suffice when the LP supply is at most 10^18 |
| `LongFarmTopUp.EstimateSuffices` | terra_contracts/contracts/delta_neutral_position/src/util.rs:176-201 | 1 + ceil(supply / 10^18) increments above the estimate always redeem enough |
| `LongFarmTopUp.StaysWithinStake` | terra_contracts/contracts/delta_neutral_position/src/util.rs:175-209 | a top-up stays within the stake if and only if the whole stake redeems enough |
| `LongFarmTopUp.NetLongReachesNeutral` | terra_contracts/contracts/delta_neutral_position/src/rebalance.rs:152-259 | an executed net-long plan is neutral, in the sense the closing of a CDP needs, if and only if the condition of NetLongExact holds |
| `LongFarmTopUp.NeutralPositionCanClose` | terra_contracts/contracts/delta_neutral_position/src/contract.rs:618-647 | a neutral position can repay its whole short amount from its balance and its stake |
| `LongFarmTopUp.WholeFarmMayFallShort` | terra_contracts/contracts/delta_neutral_position/src/util.rs:175-201 | a farm whose every unit is needed can require more LP than is staked |
| `MirrorMath.ReverseError` | terra_contracts/contracts/delta_neutral_position/src/math.rs:7-9 | error bounds of the nine-digit reciprocal |
| `MirrorMath.DivisionError` | terra_contracts/contracts/delta_neutral_position/src/math.rs:11-13 | error bounds of the nine-digit quotient |
| `MirrorMath.MultiplicationError` | terra_contracts/contracts/delta_neutral_position/src/math.rs:15-17 | error bounds of the nine-digit product |
| `SafeRatio.RaisedOnlyRises` | terra_contracts/contracts/delta_neutral_position/src/contract.rs:318-334 | raising the range meets the requirement, keeps it wide, and lowers neither end |
| `SafeRatio.RaisedLeast` | terra_contracts/contracts/delta_neutral_position/src/contract.rs:318-334 | a wide range is raised no further than the requirement makes necessary |
| `SafeRatio.KeptExactly` | terra_contracts/contracts/delta_neutral_position/src/contract.rs:337-390 | a CDP is left alone if and only if its ratio is in the range, or above it with short proceeds locked |
| `SafeRatio.CoversIsRatio` | terra_contracts/contracts/delta_neutral_position/src/contract.rs:305-308 | covering a ratio is the recomputed ratio being at least that |
| `SafeRatio.BurnRestoresRatio` | terra_contracts/contracts/delta_neutral_position/src/contract.rs:337-366 | below the range, with prices of at least 10^-8, the amount to burn never underflows, fails only by overflow, and the recomputed ratio is at least the minimum |
| `SafeRatio.BurnExact` | terra_contracts/contracts/delta_neutral_position/src/contract.rs:337-366 | below the range the debt left is the one amount that the three roundings allow |
| `SafeRatio.BurnReachesMidpoint` | terra_contracts/contracts/delta_neutral_position/src/contract.rs:337-366 | the debt left is covered at the midpoint but for lost digits, and one unit more would not be: neither too little nor too much is burned |
| `SafeRatio.ReleaseFits` | terra_contracts/contracts/delta_neutral_position/src/contract.rs:367-387 | above the range the amount to release never underflows where the tokens kept for each uusd are worth at most the upper end |
| `SafeRatio.ReleaseFitsExactly` | terra_contracts/contracts/delta_neutral_position/src/contract.rs:367-387 | at a range and price no CDP underflows if and only if the tokens kept for each uusd are worth at most the upper end |
| `SafeRatio.HardestUnderflows` | terra_contracts/contracts/delta_neutral_position/src/contract.rs:376-383 | the CDP whose release underflows wherever that condition fails |
| `SafeRatio.UsualRanges` | terra_contracts/contracts/delta_neutral_position/src/contract.rs:367-387 | for every range of up to 170 the product in the condition is representable |
| `SafeRatio.NineDigitsSuffice` | terra_contracts/contracts/delta_neutral_position/src/contract.rs:367-387 | it is enough that the nine-digit collateral price is at least midpoint / (max - midpoint) |
| `SafeRatio.NineDigitsNotNeeded` | terra_contracts/contracts/delta_neutral_position/src/contract.rs:367-387 | a range and price that meet the exact condition and not the nine-digit one |
| `SafeRatio.CollateralAboveOne` | terra_contracts/contracts/delta_neutral_position/src/contract.rs:367-387 | the exact condition holds when aUST is worth at least 1 uusd and the range stays below 10^8 |
| `SafeRatio.ReleaseKeepsRatio` | terra_contracts/contracts/delta_neutral_position/src/contract.rs:367-387 | releasing keeps the recomputed ratio at the minimum or above for every obligation whose slack between midpoint and minimum pays for one token, one uusd and the lost digits |
| `SafeRatio.ReleaseExact` | terra_contracts/contracts/delta_neutral_position/src/contract.rs:367-387 | above the range the collateral kept is the one amount that the two roundings allow |
| `SafeRatio.ReleaseReachesMidpoint` | terra_contracts/contracts/delta_neutral_position/src/contract.rs:367-387 | the collateral kept is worth the midpoint times the obligation, from both sides, but for lost digits |
| `SafeRatio.ReleaseKeepsExactly` | terra_contracts/contracts/delta_neutral_position/src/contract.rs:367-387 | releasing keeps the recomputed ratio at the minimum or above if and only if the tokens kept for the obligation, rounded down, are worth it; the collateral there was does not matter |
| `SafeRatio.TenfoldObligation` | terra_contracts/contracts/delta_neutral_position/src/contract.rs:367-387 | an obligation of at least 10 * (1 + collateral price) uusd is large enough for any range |
| `SafeRatio.ObligationBoundReached` | terra_contracts/contracts/delta_neutral_position/src/contract.rs:367-387 | the bound is reached: 20 uusd are enough where 19 fall below the minimum |
| `SafeRatio.SmallObligationFallsShort` | terra_contracts/contracts/delta_neutral_position/src/contract.rs:367-387 | an obligation of 1 uusd is released far below the minimum ratio |
| `SafeRatio.TinyPriceUnderflows` | terra_contracts/contracts/delta_neutral_position/src/contract.rs:376-383 | a collateral price below nine-digit resolution makes the release underflow |
| `SafeRatio.UnderflowsAboveTenNanos` | terra_contracts/contracts/delta_neutral_position/src/contract.rs:376-383 | a collateral price above 10^-8 at which the release underflows |
| `DeltaNeutralInvest.LongSwapFor` | terra_contracts/contracts/delta_neutral_position/src/open.rs:102-135 | the long swap simulated for a collateral amount is the least that buys the minted mAsset back; there is none exactly when the mint is not below the pool, and no abort while the pool has uusd |
| `DeltaNeutralInvest.FeasibleBySpendingAll` | terra_contracts/contracts/delta_neutral_position/src/open.rs:136-141 | collateral is feasible if and only if spending the rest of the budget buys back the minted mAsset |
| `DeltaNeutralInvest.MintExact` | terra_contracts/contracts/delta_neutral_position/src/open.rs:102-115 | the mAsset minted is the one amount that the roundings of price, worth and reciprocal allow, stated without division |
| `DeltaNeutralInvest.MintSteps` | terra_contracts/contracts/delta_neutral_position/src/open.rs:102-115 | the amount minted always satisfies those roundings |
| `DeltaNeutralInvest.MintedAtTargetRatio` | terra_contracts/contracts/delta_neutral_position/src/open.rs:102-115 | for every market the amount minted is the posted aUST at the two prices and the collateral ratio: no more, and less by no more than what the roundings lose |
| `DeltaNeutralInvest.OpenedRatio` | terra_contracts/contracts/delta_neutral_position/src/open.rs:102-188 | the collateral of the CDP opened is worth at least the target ratio times its debt, but for the last nine digits of ratio and price |
| `DeltaNeutralInvest.OpensCovered` | terra_contracts/contracts/delta_neutral_position/src/open.rs:102-188 | a CDP opened at the midpoint covers the lower end of its range once the debt pays for one uusd and the lost digits |
| `DeltaNeutralInvest.TermsPassExactly` | terra_contracts/contracts/delta_neutral_position/src/open.rs:56-85 | the terms pass if and only if the asset is listed and the range is wide, meets the margin, and has a representable sum; the midpoint is rounded down |
| `DeltaNeutralInvest.IsFeasible` | terra_contracts/contracts/delta_neutral_position/src/open.rs:98-146 | the probe decides feasibility, and for positive collateral answers if and only if the mint is not below the pool or some offer that can be added to the collateral attains it |
| `DeltaNeutralInvest.SplitBudget` | terra_contracts/contracts/delta_neutral_position/src/open.rs:90-169 | collateral plus long swap stay within the budget; the collateral is feasible and its successor infeasible or the whole budget; a split is found if and only if every probe on the way there answers, and so does the amount found |
| `DeltaNeutralInvest.Invest` | terra_contracts/contracts/delta_neutral_position/src/open.rs:38-245 | a successful call had an asset not delisted and a range that meets the safety margin and the width; on such terms it succeeds if and only if every probe on the way of the search answers; the messages buy aUST with the collateral, post what that buys, mint against it at the target ratio, and buy mAsset with the rest |
| `DeltaNeutralInvest.PathVerdicts` | terra_contracts/contracts/delta_neutral_position/src/open.rs:90-147 | the path of the search answers when every amount below the budget does, and does not when its first probe does not |
| `DeltaNeutralInvest.DeepPoolAnswers` | terra_contracts/contracts/delta_neutral_position/src/open.rs:90-147 | every probe answers in a pool that holds 3/997 of the largest mint and reserves small beside the largest offer |
| `DeltaNeutralInvest.MintMono` | terra_contracts/contracts/delta_neutral_position/src/open.rs:102-115 | more collateral mints no less |
| `DeltaNeutralInvest.BeyondPoolAborts` | terra_contracts/contracts/delta_neutral_position/src/open.rs:136-141 | a mint that no offer attains for the commission makes the probe abort |
| `DeltaNeutralInvest.FeasibleButAborts` | terra_contracts/contracts/delta_neutral_position/src/open.rs:136-141 | an opening that aborts at its first probe although a smaller collateral is feasible |
| `DeltaNeutralInvest.OpensNeutral` | terra_contracts/contracts/delta_neutral_position/src/open.rs:149-186 | the long leg returns the minted mAsset, exceeded by less than k when the pool after the short holds at most k times as much mAsset as uusd; with k = 1 the sanity check passes |
| `DeltaNeutralInvest.OpeningCosts` | terra_contracts/contracts/delta_neutral_position/src/open.rs:115-135 | shorting raises no more uusd than buying back costs |
| `Pairing.PairingIsFair` | terra_contracts/contracts/delta_neutral_position/src/contract.rs:722-749 | pairing provides no more than is held and never lowers either reserve per LP token |
| `Pairing.PairExact` | terra_contracts/contracts/delta_neutral_position/src/contract.rs:722-749 | what is paired is the largest ratio of the pool that both balances match, of each reserve and in LP tokens, each rounded down, unless something is zero |
| `Pairing.ProvideThenWithdraw` | terra_contracts/contracts/delta_neutral_position/src/dex_util.rs:414-431 | redeeming what a provision minted returns no more of either asset than was provided |
| `Lifecycle.PositionContract.constructor` | terra_contracts/contracts/delta_neutral_position/src/contract.rs:40-49 | a new position contract stores nothing |
| `Lifecycle.PositionContract.Open` | terra_contracts/contracts/delta_neutral_position/src/contract.rs:392-479 | the whole state and the messages after an opening, on and off market |
| `Lifecycle.PositionContract.Close` | terra_contracts/contracts/delta_neutral_position/src/contract.rs:481-525 | the messages of a closing, with and without an active CDP |
| `Lifecycle.PositionContract.Rebalance` | terra_contracts/contracts/delta_neutral_position/src/contract.rs:197-297 | the whole state and the messages of a rebalance in each of its cases |
| `Lifecycle.PositionContract.AchieveSafeCollateralRatios` | terra_contracts/contracts/delta_neutral_position/src/contract.rs:299-390 | the range stored and the messages of restoring the ratio |
| `Lifecycle.PositionContract.CloseCdpAndCollectFees` | terra_contracts/contracts/delta_neutral_position/src/contract.rs:591-657 | the fee mark stored and the messages of closing the CDP and collecting the fee |
| `Lifecycle.PositionContract.CloseCdpAnd` | terra_contracts/contracts/delta_neutral_position/src/contract.rs:660-689 | collecting the fee, then disbursing or depositing |
| `Lifecycle.PositionContract.SendUusd` | terra_contracts/contracts/delta_neutral_position/src/contract.rs:527-567 | closing information is recorded when everything is sent; nothing is transferred when nothing is held |
| `Lifecycle.PositionContract.HandleInternal` | terra_contracts/contracts/delta_neutral_position/src/contract.rs:87-134 | each message to itself does what its handler specifies |
| `Lifecycle.PositionContract.Deliver` | terra_contracts/contracts/delta_neutral_position/src/contract.rs:51-136 | the effect of one message, its own or another contract's |
| `Lifecycle.PositionContract.Execute` | terra_contracts/contracts/delta_neutral_position/src/contract.rs:51-136 | each call does what its handler specifies |
| `Lifecycle.PositionContract.Transact` | terra_contracts/contracts/delta_neutral_position/src/contract.rs:51-136 | a call and all its messages run depth first, and commit or leave the state as it was |
| `Lifecycle.OnlyCalls` | terra_contracts/contracts/delta_neutral_position/src/contract.rs:87-134 | messages to itself that do not collect fees or send uusd lead only to calls of other contracts |
| `Lifecycle.NestsLess` | terra_contracts/contracts/delta_neutral_position/src/contract.rs:591-704 | messages to itself nest at most three deep, so every transaction ends |
| `LifecycleOutcomes.ClosingSends` | terra_contracts/contracts/delta_neutral_position/src/contract.rs:481-567 | a committed closing of an active CDP makes the position neutral, burns the debt that the CDP then reports, withdraws and redeems the collateral it reports after that, pays the fee on the gain and sends all uusd to the recipient; nothing else is sent or stored |
| `LifecycleOutcomes.ClosingWithoutCdpSends` | terra_contracts/contracts/delta_neutral_position/src/contract.rs:481-567 | a committed closing without an active CDP redeems the aUST at hand and sends all uusd to the recipient |
| `LifecycleOutcomes.FeeIsDue` | terra_contracts/contracts/delta_neutral_position/src/contract.rs:591-657 | the fee is the rate times the gain over the last fee value, rounded down, where the value counts collateral, uusd at hand, in the farm and locked |
| `LifecycleOutcomes.PreemptiveClosingSends` | terra_contracts/contracts/delta_neutral_position/src/contract.rs:205-238 | closing the CDP in a rebalance burns, withdraws and redeems just like that, deposits all uusd, and marks the position |
| `LifecycleOutcomes.StaleRebalanceSends` | terra_contracts/contracts/delta_neutral_position/src/contract.rs:197-297 | at a stale price a rebalance only makes the position neutral |
| `LifecycleOutcomes.RebalanceSends` | terra_contracts/contracts/delta_neutral_position/src/contract.rs:197-297 | any other rebalance raises the stored range to the requirement and burns or releases what the adjustment of the reported CDP says; it pairs and reinvests only if no short proceeds are locked |
| `LifecycleOutcomes.PendingRebalanceSends` | terra_contracts/contracts/delta_neutral_position/src/contract.rs:260-297 | a position without a CDP sends nothing in a rebalance that commits, and is marked if its asset is to be closed |
| `LifecycleOutcomes.OffMarketOpening` | terra_contracts/contracts/delta_neutral_position/src/contract.rs:392-479 | an opening at a stale price commits if and only if it is new, asked for, and large enough; it pays the service fee and deposits all the rest |
| `LifecycleOutcomes.FreshOpening` | terra_contracts/contracts/delta_neutral_position/src/contract.rs:392-479 | an opening at a fresh price commits if and only if it is new, large enough, on good terms, and ends with the CDP short by just the mAsset held |
| `LifecycleOutcomes.ReinvestsFromLeast` | terra_contracts/contracts/delta_neutral_position/src/contract.rs:108-134 | a reinvestment needs the least balance and good terms |
| `LifecycleOutcomes.PartRedeemed` | terra_contracts/contracts/delta_neutral_position/src/contract.rs:569-589 | the proportion of the collateral reported, rounded down, is withdrawn and redeemed alike |
| `LifecycleOutcomes.PartSent` | terra_contracts/contracts/delta_neutral_position/src/contract.rs:527-567 | the proportion of the uusd, rounded down, is sent; only sending all of it closes the position |
| `LifecycleRuns.StartsSettled` | terra_contracts/contracts/delta_neutral_position/src/contract.rs:40-49 | a new position contract satisfies the run invariant |
| `LifecycleRuns.DeliveryKeeps` | terra_contracts/contracts/delta_neutral_position/src/contract.rs:197-297 | every message of every transaction keeps the fee, closing and range invariant |
| `LifecycleRuns.TransactionKeeps` | terra_contracts/contracts/delta_neutral_position/src/contract.rs:51-136 | every committed transaction keeps it, and undoes nothing that was recorded |
| `LifecycleRuns.AlwaysSettled` | terra_contracts/contracts/delta_neutral_position/src/contract.rs:591-657 | on every run: at most one performance fee, of at most rate * (value - opening deposit); the range of an active CDP is at least 0.4 wide and only rises; opening, CDP and closing are written at most once |
| `LifecycleRuns.NeverRebalancedAgain` | terra_contracts/contracts/delta_neutral_position/src/contract.rs:200-204 | a closed or preemptively closed position is never rebalanced on any later run, and a closed one never closed again |
| `LifecycleRuns.ClosingEmpties` | terra_contracts/contracts/delta_neutral_position/src/contract.rs:481-567 | a closing that commits records it and leaves zero uusd |
| `LifecycleRuns.PendingNeverOpens` | terra_contracts/contracts/delta_neutral_position/src/contract.rs:260-291 | setting up the CDP of a position opened off market never commits, because the check that ends it loads an index nothing stored |
| `LifecycleRuns.PendingStaysPending` | terra_contracts/contracts/delta_neutral_position/src/contract.rs:455-471 | such a position has no CDP and pays no performance fee on any run |
| `LifecycleRuns.SafeMeets` | terra_contracts/contracts/delta_neutral_position/src/contract.rs:318-334 | restoring the ratio leaves a range that meets the margin and the width |
| `LifecycleRuns.ReinvestmentPassesGuards` | terra_contracts/contracts/delta_neutral_position/src/contract.rs:239-258 | in a rebalance of an active CDP the delisting and range guards of the reinvestment cannot fire |
| `Bytes.WriteThenRead` | terra_contracts/packages/aperture_common/src/byte_util.rs:17-47 | writing then reading a big-endian integer keeps it up to its width |
| `Bytes.ReadThenWrite` | terra_contracts/packages/aperture_common/src/byte_util.rs:17-47 | reading then writing gives the bytes back |
| `Bytes.OrderIsNumeric` | terra_contracts/packages/aperture_common/src/byte_util.rs:36-40 | among keys of one width, byte order is numeric order |
| `Bytes.U256Halves` | terra_contracts/packages/aperture_common/src/byte_util.rs:41-43 | the two 128-bit halves read are the 256-bit integer |
| `Bytes.U128Back` | terra_contracts/packages/aperture_common/src/byte_util.rs:36-40 | a 128-bit integer is read back from its bytes |
| `Bytes.U64Back` | terra_contracts/packages/aperture_common/src/byte_util.rs:31-35 | a 64-bit integer is read back from its bytes |
| `Bytes.U16Back` | terra_contracts/packages/aperture_common/src/byte_util.rs:21-25 | a 16-bit integer is read back from its bytes |
| `Base64.EncodeThenDecode` | terra_contracts/packages/aperture_common/src/instruction.rs:107-150 | decoding undoes encoding, for byte strings of any length (section 4 of RFC 4648) |
| `Base64.DecodeThenEncode` | terra_contracts/packages/aperture_common/src/instruction.rs:107-150 | only canonical text is decoded |
| `Base64.EncodeInjective` | terra_contracts/packages/aperture_common/src/instruction.rs:161-244 | different byte strings have different texts |
| `Base64.EncodesBits` | terra_contracts/packages/aperture_common/src/instruction.rs:161-244 | every three bytes are four digits of the same 24 bits, from the left |
| `Base64.DigitsInOrder` | terra_contracts/packages/aperture_common/src/instruction.rs:161-244 | the digits are upper case, lower case, figures, plus and slash, in that order |
| `Base64.TestVectors` | terra_contracts/packages/aperture_common/src/instruction.rs:161-244 | three test vectors of section 10 of RFC 4648 |
| `Instruction.Serialize` | terra_contracts/packages/aperture_common/src/instruction.rs:161-244 | the bytes written, and the one error, of each kind of instruction |
| `Instruction.Deserialize` | terra_contracts/packages/aperture_common/src/instruction.rs:79-159 | the instruction read or the failure, for every byte string |
| `Instruction.RoundTrip` | terra_contracts/packages/aperture_common/src/instruction.rs:79-244 | reading back what was written gives the instruction if and only if counts and lengths are below 2^32, data is not an empty byte string, and no opening poses as an execution |
| `Instruction.StrategyLayout` | terra_contracts/packages/aperture_common/src/instruction.rs:161-244 | a strategy instruction is version, type, position, chain, count, sequences, length, text and strategy, one after the other in big-endian bytes |
| `Instruction.DisbursementLayout` | terra_contracts/packages/aperture_common/src/instruction.rs:161-244 | where version, type, sequence, chain, recipient, token and least amount of a disbursement lie |
| `Instruction.OpeningReadIsWritten` | terra_contracts/packages/aperture_common/src/instruction.rs:79-150 | an opening is read from nothing but what writing it produces |
| `Instruction.RequestReadIsWritten` | terra_contracts/packages/aperture_common/src/instruction.rs:79-159 | a request for an action is read only from a text for that action, written like one |
| `Instruction.SerializeInjective` | terra_contracts/packages/aperture_common/src/instruction.rs:161-244 | no two instructions of any kinds are written alike |
| `Instruction.EmptyDataConflated` | terra_contracts/packages/aperture_common/src/instruction.rs:161-244 | without the condition on data two openings are written alike |
| `TokenUtil.ValidateAndAccept` | terra_contracts/packages/aperture_common/src/token_util.rs:35-76 | succeeds if and only if each native amount was sent and each cw20 amount is allowed; the messages pull the cw20 assets |
| `TokenUtil.ForwardAssetsDirect` | terra_contracts/packages/aperture_common/src/token_util.rs:6-33 | splits assets into coins and transfers, in order |
| `TokenUtil.SendAllPays` | terra_contracts/packages/aperture_common/src/token_util.rs:6-33 | the coins and transfers pay out exactly the assets, per asset |
| `TokenUtil.SendAllPaysTo` | terra_contracts/packages/aperture_common/src/token_util.rs:6-33 | they pay the recipient exactly the assets, and nobody else anything |
| `TokenUtil.NativeTotal` | terra_contracts/packages/aperture_common/src/token_util.rs:35-76 | an accepted list counts a native amount as often as it names it, while it was sent once |
| `TokenUtil.PullsTotal` | terra_contracts/packages/aperture_common/src/token_util.rs:35-76 | an accepted list pulls every cw20 amount that it names |
| `OutgoingTransfer.SplitFees` | terra_contracts/contracts/terra_manager/src/cross_chain.rs:62-80 | splits each asset into fee and rest, or fails when a fee exceeds its asset |
| `OutgoingTransfer.InitiateOutgoingTokenTransfer` | terra_contracts/contracts/terra_manager/src/cross_chain.rs:31-160 | the messages, or the failure, of a direct and of an external transfer |
| `OutgoingTransfer.SplitConserves` | terra_contracts/contracts/terra_manager/src/cross_chain.rs:62-80 | fees and rests make up the incoming amounts, for asset lists of any length |
| `OutgoingTransfer.TransferConserves` | terra_contracts/contracts/terra_manager/src/cross_chain.rs:31-160 | every successful transfer pays out exactly what came in, per asset |
| `OutgoingTransfer.PaysWhatWasSent` | terra_contracts/contracts/terra_manager/src/cross_chain.rs:31-160 | what a transfer pays of a native token is what the caller sent of it, times how often the list names it |
| `OutgoingTransfer.ExternalSpendsReceived` | terra_contracts/contracts/terra_manager/src/cross_chain.rs:31-160 | an external transfer pays no more of any native token than was sent, and exactly what it pulled of every cw20 token |
| `OutgoingTransfer.OneAssetBridged` | terra_contracts/contracts/terra_manager/src/cross_chain.rs:116-121 | an external transfer bridges the one asset with a positive amount, less its fee |
| `OutgoingTransfer.FeeExact` | terra_contracts/contracts/terra_manager/src/cross_chain.rs:65-66 | the fee is the rate times the amount, rounded down |
| `OutgoingTransfer.TerraTransferPays` | terra_contracts/contracts/terra_manager/src/cross_chain.rs:41-51 | a transfer on Terra goes out if and only if its assets are covered, and pays the recipient exactly those and nobody else anything |
| `OutgoingTransfer.ExternalTransferExactly` | terra_contracts/contracts/terra_manager/src/cross_chain.rs:52-157 | a transfer to another chain goes out if and only if its assets are covered, one of them alone is positive, the fee rate is below one, the addresses have 32 bytes and the chain is known |
| `OutgoingTransfer.ExternalTransferSends` | terra_contracts/contracts/terra_manager/src/cross_chain.rs:52-157 | it pulls its assets, pays the rounded fee to the collector, announces the disbursement under the next sequence number, and bridges all the rest to the manager of that chain |
| `OutgoingTransfer.ExternalPairs` | terra_contracts/contracts/terra_manager/src/cross_chain.rs:97-157 | the sequence number in the instruction is the one the token bridge then assigns |
| `OutgoingTransfer.AlwaysPaired` | terra_contracts/contracts/terra_manager/src/cross_chain.rs:97-157 | over any run, mixed with other users of the bridge, named and assigned sequence numbers agree and none is used twice |
| `Manager.TerraManager.constructor` | terra_contracts/contracts/terra_manager/src/contract.rs:26-54 | a new manager holds no positions and has completed no instruction |
| `Manager.TerraManager.CreatePosition` | terra_contracts/contracts/terra_manager/src/terra_chain.rs:58-96 | the id assigned, the holder, pair and location stored, and the messages |
| `Manager.TerraManager.SaveNewPositionInfoAndOpenIt` | terra_contracts/contracts/terra_manager/src/terra_chain.rs:98-123 | the location stored and the opening messages |
| `Manager.TerraManager.Execute` | terra_contracts/contracts/terra_manager/src/terra_chain.rs:125-155 | only the holder acts on a position, and not to open it again |
| `Manager.TerraManager.CreateExecuteStrategyMessages` | terra_contracts/contracts/terra_manager/src/terra_chain.rs:166-203 | the assets pulled and handed over, and the action asked for |
| `Manager.TerraManager.ProcessCrossChainInstruction` | terra_contracts/contracts/terra_manager/src/cross_chain.rs:478-592 | the mark stored and the messages of an instruction, or its failure |
| `Manager.TerraManager.Transact` | terra_contracts/contracts/terra_manager/src/contract.rs:57-88 | a failing call leaves storage as it was |
| `Manager.TransferReadsBack` | terra_contracts/contracts/terra_manager/src/cross_chain.rs:633-675 | a Terra token sent here by the bridge arrives less its fee, both cut to 128 bits |
| `Positions.InstructionActs` | terra_contracts/contracts/terra_manager/src/cross_chain.rs:478-592 | a processed instruction came from the registered manager of its chain, was new and for Terra; it makes one request, for its action, with the assets of the listed transfers, on the position of its own chain, to the manager of that position's strategy; no other location changes |
| `Positions.InstructionProceeds` | terra_contracts/contracts/terra_manager/src/cross_chain.rs:478-592 | an admissible instruction with its listed transfers is processed if somebody runs the strategy of its position |
| `Positions.BroughtIsListed` | terra_contracts/contracts/terra_manager/src/cross_chain.rs:524-616 | the assets counted are those of transfers from the instruction's chain under the listed sequences, one by one |
| `Positions.TransferAccepted` | terra_contracts/contracts/terra_manager/src/cross_chain.rs:601-641 | a payload brings an asset if and only if it is a transfer to this contract on Terra of a Terra token with a fee within its amount, field by field |
| `Positions.BridgedTokens` | terra_contracts/contracts/terra_manager/src/cross_chain.rs:641-675 | padded cw20 addresses and marked native denominations are read back |
| `Positions.AsksOnce` | terra_contracts/contracts/terra_manager/src/terra_chain.rs:166-203 | a strategy call makes one request, to the manager of the position's strategy, on that position with those assets, and fails only if a caller's assets are not covered |
| `Positions.PaysManager` | terra_contracts/contracts/terra_manager/src/terra_chain.rs:166-203 | the cw20 assets are paid to that manager and to nobody else |
| `Positions.CreateActs` | terra_contracts/contracts/terra_manager/src/terra_chain.rs:58-123 | creating a position gives the caller the next id, stores its strategy and asks that strategy to open it |
| `Positions.ActActs` | terra_contracts/contracts/terra_manager/src/terra_chain.rs:125-203 | a caller acts on a position if and only if it is the caller's own, somebody runs its strategy, the action is no opening and the assets are covered; only that position is acted on |
| `Positions.OthersLeaveIt` | terra_contracts/contracts/terra_manager/src/cross_chain.rs:561-592 | on every run the strategy of a position changes only by instructions from its own chain, so instructions from elsewhere never move a Terra position |
| `CrossChain.NoReplay` | terra_contracts/contracts/terra_manager/src/cross_chain.rs:500-508 | over every run, no two committed instructions have the same hash |
| `CrossChain.HandsOver` | terra_contracts/contracts/terra_manager/src/terra_chain.rs:166-203 | a strategy is handed exactly the assets it is told about, after those that a caller brings along are pulled |
| `CrossChain.HandsOverWhatCame` | terra_contracts/contracts/terra_manager/src/terra_chain.rs:166-203 | a caller's own call pays of a native token what was sent of it times how often the list names it, and of a cw20 token what it pulled |
| `CrossChain.ListedTransfersSigned` | terra_contracts/contracts/terra_manager/src/cross_chain.rs:531-546 | the transfers accepted carry the listed sequences and bring exactly the assets counted |
| `CrossChain.SubmitsDelivered` | terra_contracts/contracts/terra_manager/src/cross_chain.rs:891-908 | submissions that succeed, or were executed before, leave every transfer credited exactly once |
| `CrossChain.SubmitsSucceed` | terra_contracts/contracts/terra_manager/src/cross_chain.rs:891-908 | submissions go through if and only if each transfer was executed before or can be now |
| `CrossChain.InstructSound` | terra_contracts/contracts/terra_manager/src/cross_chain.rs:478-592 | processing an instruction keeps credited + left over by calls = held + forwarded, and forwards only transfers not forwarded before |
| `CrossChain.AlwaysFunded` | terra_contracts/contracts/terra_manager/src/cross_chain.rs:478-592 | over any interleaving of instructions, submissions by anyone, users' calls and outgoing transfers, each transfer is forwarded at most once, and holdings are credited minus forwarded plus what the calls left over; they are never negative if each committed call names a native token it sends at most once |
| `CrossChain.CallSparesHoldings` | terra_contracts/packages/aperture_common/src/token_util.rs:35-76 | a committed call lowers no holding if and only if it names each native token it sends at most once |
| `CrossChain.WholeIfNamedOnce` | terra_contracts/packages/aperture_common/src/token_util.rs:35-76 | what a call leaves over is nowhere negative if and only if it names each native token it sends at most once |
| `CrossChain.ExternalNamesOnce` | terra_contracts/contracts/terra_manager/src/cross_chain.rs:116-121 | an external transfer that is accepted names each native token it sends at most once |
| `CrossChain.BankSuffices` | terra_contracts/packages/aperture_common/src/token_util.rs:7-33 | coins of distinct denominations come from a list that names each native token at most once |
| `CrossChain.CarefulRuns` | terra_contracts/contracts/terra_manager/src/terra_chain.rs:166-203 | if users name each token they send once, external transfers aside, so does every call that commits on any run |
| `CrossChain.NamedTwiceOverdraws` | terra_contracts/packages/aperture_common/src/token_util.rs:35-76 | a call that sends 5 uusd and names them twice is accepted and leaves the manager 5 short |
| `CrossChain.SubmittedFirst` | terra_contracts/contracts/terra_manager/src/cross_chain.rs:548-561 | executing some transfer beforehand neither prevents an instruction from being processed nor lets it through |
| `CrossChain.StartsSound` | terra_contracts/contracts/terra_manager/src/contract.rs:26-54 | before any bridged asset arrives the cross-chain invariant holds |
| `HolderIndex.StartsIndexed` | terra_contracts/contracts/terra_manager/src/contract.rs:26-54 | a new manager is indexed |
| `HolderIndex.AlwaysIndexed` | terra_contracts/contracts/terra_manager/src/terra_chain.rs:72-79 | on every run the pair set is exactly the holder map below the next id, every position has a location, and no position changes hands |
| `HolderIndex.IdsOfExact` | terra_contracts/contracts/terra_manager/src/contract.rs:125-133 | the positions of a holder, each once, ascending |
| `HolderIndex.RangeIsIds` | terra_contracts/contracts/terra_manager/src/contract.rs:125-133 | storage iterates the keys of a holder in the numeric order of ids, after the exclusive bound |
| `HolderIndex.LoadPage` | terra_contracts/contracts/terra_manager/src/contract.rs:128-149 | loads ids and locations up to the limit, and fails on a missing location |
| `HolderIndex.GetPositionsByHolder` | terra_contracts/contracts/terra_manager/src/contract.rs:118-154 | the query answers with the next page of ids and their locations, default 10, at most 30 |
| `HolderIndex.PagesListAll` | terra_contracts/contracts/terra_manager/src/contract.rs:118-154 | with a limit of at least one the pages concatenate to each id of the holder once, in order |
| `HolderIndex.ZeroLimitListsNothing` | terra_contracts/contracts/terra_manager/src/contract.rs:128-138 | a limit of zero lists nothing |
| `AnchorEarnProxy.EarnProxy.DepositStable` | terra_contracts/contracts/anchor_earn_proxy/src/contract.rs:96-135 | the balance and the message after a deposit, or its failure |
| `AnchorEarnProxy.EarnProxy.Withdraw` | terra_contracts/contracts/anchor_earn_proxy/src/contract.rs:137-200 | the balance and the messages after a withdrawal, or its failure |
| `AnchorEarnProxy.EarnProxy.PerformAction` | terra_contracts/contracts/anchor_earn_proxy/src/contract.rs:41-73 | only the manager acts, and a failing call changes nothing |
| `AnchorEarnProxy.DepositExact` | terra_contracts/contracts/anchor_earn_proxy/src/contract.rs:96-135 | a deposit succeeds if and only if the uusd sent is the one asset listed and sums fit; it adds the aUST bought, rounded down, and deposits just what was sent |
| `AnchorEarnProxy.WithdrawExact` | terra_contracts/contracts/anchor_earn_proxy/src/contract.rs:137-200 | a withdrawal succeeds if and only if the proportion is positive and at most one, something is redeemed and amounts fit; it redeems the proportion and pays its value to the recipient, both rounded down |
| `AnchorEarnProxy.AlwaysCovered` | terra_contracts/contracts/anchor_earn_proxy/src/contract.rs:96-200 | over any run the balances add up to aUST minted minus redeemed |
| `AnchorEarnProxy.StepCovers` | terra_contracts/contracts/anchor_earn_proxy/src/contract.rs:96-200 | a call changes no balance but that of its position |
| `AnchorEarnProxy.Closes` | terra_contracts/contracts/anchor_earn_proxy/src/contract.rs:137-200 | closing succeeds if and only if something is held, pays its whole value and leaves nothing |
| `AnchorEarnProxy.DepositThenClose` | terra_contracts/contracts/anchor_earn_proxy/src/contract.rs:96-200 | a deposit d closed at a rate no lower pays more than d - rate - 1, and at the same rate at most d |
| `AnchorEarnProxy.CloseInSteps` | terra_contracts/contracts/anchor_earn_proxy/src/contract.rs:137-200 | closing in k steps pays no more than closing at once, and at most k - 1 less |

## Left out

- Search: the four loops of `rebalance.rs` share one method, which takes the probe as a function; each use passes the probe its own loop computes.
- RebalanceExecution.NetLongExecutes: covers the plans whose withdraw message is sent; the others are in `DroppedExecutes` and `NetLongExact`.
- SafeRatio.ReleaseFitsExactly: asks that the product it compares be representable in 128 bits, which `UsualRanges` proves for every range of up to 170; `ReleaseFits` itself needs no such bound.
- SafeRatio.ReleaseKeepsRatio: the bound on the obligation is reached by `ObligationBoundReached`; `ReleaseKeepsExactly` decides the smaller obligations one by one, since it depends on how their own amounts round.
- Lifecycle.PositionContract.Deliver: payments and deposits take just their amount, and any other call of another contract leaves an arbitrary uusd balance or fails; what rebalancing, investing, topping up and pairing compute is modelled in their own files and enters here as a number of messages.
- Lifecycle.Due: bounds the performance fee; the service fee of an off-market opening is a payment of its own and not counted.
- CrossChain.AlwaysFunded: counts what the bridge, callers and the manager itself move; plain transfers to the manager, which only add to its holdings, and the relayer's fee that the bridge pays to the submitter are not counted.
- Base64.Decode: accepts canonical text only, which is what encoding produces; what the library accepts beyond it is not modelled.
- Manager.BridgedInfo: address and text conversions are given functions, and a wrapped token of another chain, which the manager refuses, is not counted as a holding.
- The Astroport alternative when mAsset is sold for uusd: the swap modelled is the Terraswap one that the searches simulate.
- The bank module's refusal of coin lists that repeat a denomination; `CrossChain.BankSuffices` says what follows from it.
- Re-entrant calls: between two messages of a transaction only the uusd balance changes from outside; a transfer that a strategy sends through the manager is a step of its own in `CrossChain`.
- Claiming and swapping SPEC and MIR rewards, and the position value query: sums of external quotes.
- Signature checks on signed messages, address validation, JSON text, and Terra's transfer tax.
- Admin and configuration setters, allowlists and migration: each is settled by reading a branch; the manager's strategies and registered managers may change arbitrarily between calls.
- The delta-neutral position manager contract, the Solana programs, the Ethereum scripts, and the scripts directory.
