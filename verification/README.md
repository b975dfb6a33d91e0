# Clearstone accounting, modelled and proved

A Dafny model of the on-chain accounting of Clearstone: fixed-point and integer state machines in which
many parties act in any order, every division rounds, and nothing may be paid out twice. The project
states what these programs promise over whole runs and proves it, or gives the input on which the promise
fails and the exact condition under which it holds.

| file | what it models |
|---|---|
| Foundations.dfy | results, u64 helpers, sums over maps, facts about products and quotients |
| Number.dfy, CeilRounding.dfy | the 1e12-scaled `Number`; when a ceiled division covers the true quotient |
| Rewards.dfy, FarmLedger.dfy, RewardsLedger.dfy, RewardsTheorems.dfy, RewardsEscrow.dfy, RewardsStakes.dfy, RewardsProgram.dfy | farm rewards: transitions, an exact reference ledger, whole runs, the escrows, each staker's books, the account updated in place |
| TimeCurve.dfy | the AMM curve in exact reals |
| Market.dfy, MarketLiquidity.dfy, MarketTrades.dfy, MarketPricing.dfy, MarketTheorems.dfy, MarketExamples.dfy, MarketProgram.dfy | the PT/SY market: transitions, liquidity, trades, what each party pays and gets, mixed runs, an accepted trade, the account updated in place |
| Vault.dfy, VaultLedger.dfy, VaultSolvency.dfy, VaultMaturity.dfy, VaultTheorems.dfy, VaultBacking.dfy, VaultExamples.dfy, VaultExactness.dfy, VaultBooks.dfy, VaultProgram.dfy | the yield-stripping vault: transitions, claims, solvency before and after maturity, whole runs, every party's books, the stored backing, counterexamples, when exactly the vault is solvent, the accounts updated in place |
| Curator.dfy, CuratorShares.dfy, CuratorBooks.dfy, RollDelegation.dfy, RollTheorems.dfy, RollBooks.dfy, CuratorProgram.dfy | the curator's share vault and delegated rolls, with the books of every holder and allocation |
| Limits.dfy | the two window limiters |
| Allocator.dfy | the bump allocator |
| SyAdapter.dfy, AdapterBooks.dfy | the reference SY adapter and its books |

Each program comes in two layers. Transitions on values (`Strip`, `Unstake`, `TradePt`, ...) take a state and
return a new state or an error; the theorems are about runs of them, where a refused operation leaves the
state alone, as a failed transaction does. Classes with the accounts' own fields then carry the handlers as
methods that update those fields step by step, in the order of the source, and each is proved to reach the
state, or the error, of its transition.

The theorems come in three kinds. Safety over runs says that the system as a whole never pays out what it does
not have. The books say what every single party holds, as sums read off the operations of the run, so that no
operation can move a balance that is not its own. The acceptance theorems say exactly when an operation goes
through, in terms of the accounts before it.

What the proofs found, besides the promises that hold:

- The reciprocal of a rate can round up (at 1.5, say), and then strips leave dust: the vault's books can owe
  one SY more than it holds. The dust is at most 1e-12 SY per two SY stripped. Every run is solvent exactly
  when the strips are at rates whose reciprocal did not round up, and for each total stripped there is an
  exact bound on how far it may have (`VaultExactness.SolventIff`, `VaultExactness.SolventUpToIff`,
  `VaultExamples.DustOverdraft`).
- `collect_interest` credits a position without recomputing `sy_for_pt`. INVARIANTS.md (I-V1, I-V2) says the
  field is recomputed after that flow; the code does not do so. I-V2 is kept for every escrow balance exactly
  when the collection credits nothing new, and otherwise fails by at most the dust and 1e-12 SY per PT
  (`VaultBacking.CollectAlwaysKeepsIff`, `VaultTheorems.BackingOnRuns`). The model follows the code. The
  exchange-rate half of I-V1 holds in every state reached before maturity.
- The skim after maturity measures appreciation from the last seen rate. A vault that matures outside
  emergency mode is solvent for good; one that matures inside it need not be
  (`VaultTheorems.SolventForLife`, `VaultExamples.EmergencyMaturityOverdraft`), and wherever the last
  seen rate is below the all-time high by more than a rounding margin, stated exactly, one late update can
  leave its PT short (`VaultTheorems.LateSkimCoversIff`).
- The comment at programs/clearstone_core/src/state/market_two.rs:651 says a buyer is charged more asset, but
  a ceiled division loses remainders under about 1e-12 of the rate: at 2.999999999999 a buyer pays one SY for
  three asset. It cannot happen at rates up to 1.5, nor at any other rate that meets an exact condition
  (`MarketTrades.BuyersPayInFullIff`). At rates up to 0.5 the half-unit correction does the opposite: even an
  exact division is rounded up by one SY (`CeilRounding.CeilDivIs`).
- A trade never moves the stored implied rate (`MarketTheorems.StoredRateNeverMoves`).
- A farm added to a running state is paid from the last index update; that is its creation only under the
  exact condition of `RewardsTheorems.NewFarmPaidFromLastUpdate`.
- A harvest charges the performance fee on all net deposits since the last one
  (`CuratorShares.DepositsAreCharged`), and its shares can redeem for more than the fee unless shares
  outstanding are at most assets less the fee.
- The slippage floor of a roll saturates for very large positions (`RollTheorems.SlippageHonouredIff`).

Assumptions, each stated where it is used: `Number` multiplication and division round as
`(a * b + 1/2) / 1` and `(a * 1 + 1/2) / b` in units of 1e-12, the behaviour of spl-math's `PreciseNumber`,
whose source is not part of this model; `ln` and `exp` are any functions satisfying `TimeCurve.Lawful`; a
market has a positive rate scalar and a treasury cut of at most the whole fee. The hash function of a
delegation is an arbitrary function: a collision appears in the theorem instead of being assumed away.

## Model

| member | source | states |
|---|---|---|
| RewardsTheorems.NeverOverDistributed | periphery/clearstone_rewards/src/lib.rs:419-461 | Over any run of stakes, unstakes, claims, new farms and refills by any number of stakers, 1e12 times claimed plus everything claimable and pending never exceeds 1e12 times what the farm emitted, and falls short of it by less than one token a settlement plus the total stake in 1e-12 units per accrual |
| RewardsTheorems.LazyRefinesExact | periphery/clearstone_rewards/src/lib.rs:419-461 | The lazy index refines the ledger that splits each emission pro rata when it accrues: position by position, paid plus claimable plus pending is at most the exact share and below it by at most the recorded tolerance (one token a settlement, stake times 1e-12 an accrual) |
| RewardsTheorems.ExactSharesAreComplete | periphery/clearstone_rewards/src/lib.rs:419-437 | The reference ledger is not a weaker target: in every run its exact shares add up to exactly what was emitted |
| RewardsTheorems.EmissionBounded | periphery/clearstone_rewards/src/lib.rs:419-437 | When the clock does not go back, a farm emits at most its rate for the seconds between updates, and nothing after its expiry |
| RewardsTheorems.NewFarmPaidFromLastUpdate | periphery/clearstone_rewards/src/lib.rs:59-91 | Because `add_farm` does not advance the indexes, a new farm's first update pays for the seconds since its creation and also for those since the last update before it; it pays for its own time alone exactly when its rate is zero, an update fell on its creation, or it had expired by the last update |
| RewardsTheorems.NewFarmPaidBeforeCreation | periphery/clearstone_rewards/src/lib.rs:59-91 | A run from a new farm state on which a farm created two seconds before an update emits for ten |
| RewardsTheorems.UnstakeAlwaysPayable | periphery/clearstone_rewards/src/lib.rs:152-198 | In every run `total_staked` is the sum of the stakes, the saturating subtraction never saturates, and the LP escrow is never short for an unstake |
| RewardsStakes.StakeIsOwnBooks | periphery/clearstone_rewards/src/lib.rs:96-198 | Over any run from a new farm state a staker's stake is the sum of that staker's accepted stakes less the accepted unstakes, read off the operations, and the LP escrow is its initial balance plus everyone's stakes less everyone's unstakes |
| RewardsStakes.StakeAcceptedIff | periphery/clearstone_rewards/src/lib.rs:96-148 | A stake is accepted exactly when it is positive, the account has room for every farm, no farm's credit and neither total exceeds u64 |
| RewardsStakes.UnstakeAcceptedIff | periphery/clearstone_rewards/src/lib.rs:152-198 | After any run from a new farm state an unstake is accepted exactly up to the staker's own stakes less unstakes, given room for every farm and credits within u64 |
| RewardsStakes.ClaimAcceptedIff | periphery/clearstone_rewards/src/lib.rs:214-266 | A claim is accepted exactly when the account has room, the credits fit, the mint has a farm, and its escrow holds the positive amount due |
| RewardsStakes.ReallocMakesRoom | periphery/clearstone_rewards/src/lib.rs:387-399 | A reallocated account has room for every farm, and nothing else about it or any other account changes |
| RewardsEscrow.EscrowBooks | periphery/clearstone_rewards/src/lib.rs:59-307 | From a new farm state, over any run: no two farms ever share a mint, and for every mint the escrow balance plus what its farm has paid is the initial balance plus the accepted refills |
| RewardsEscrow.RefillsPayEveryClaim | periphery/clearstone_rewards/src/lib.rs:214-307 | After any run from a new farm state: if each mint was given, at first and by refills, what its farm has emitted by now, then at that time all stakers can claim from all farms in any order and any number of times, and no claim finds its escrow short |
| RewardsLedger.StepHolds | periphery/clearstone_rewards/src/lib.rs:96-266 | Every handler, accepted or refused, keeps the invariant: faithful positions, conserved emissions, complete exact shares, `total_staked` equal to the sum of stakes and covered by the escrow |
| FarmLedger.AccrueKeeps | periphery/clearstone_rewards/src/lib.rs:419-437 | One index update of one farm moves the lazy and the exact ledger together: the invariant of the farm holds with the emission split over all positions |
| FarmLedger.SettleKeeps | periphery/clearstone_rewards/src/lib.rs:441-461 | Settling a position turns pending reward into credit, loses less than one token, and keeps the farm's invariant |
| RewardsProgram.FarmState.UpdateIndexes | periphery/clearstone_rewards/src/lib.rs:419-437 | The in-place loop over the farms computes exactly the specified indexes and clock, also when nothing is staked |
| RewardsProgram.FarmState.SettleUser | periphery/clearstone_rewards/src/lib.rs:441-461 | The in-place loops that add missing trackers and credit each farm compute the specified position, or abort on a position with too many trackers |
| RewardsProgram.FarmState.StakeLp | periphery/clearstone_rewards/src/lib.rs:96-148 | The whole state after a stake, in which the stake, the total and the escrow have each grown by the amount; on each error the unchanged state and which error |
| RewardsProgram.FarmState.UnstakeLp | periphery/clearstone_rewards/src/lib.rs:152-198 | The whole state after an unstake, in which the stake and the escrow have each shrunk by the amount; on each error the unchanged state and which error |
| RewardsProgram.FarmState.ClaimFarmEmission | periphery/clearstone_rewards/src/lib.rs:214-266 | The whole state after a claim, and on each error the unchanged state and which error |
| RewardsProgram.FarmState.AddFarm | periphery/clearstone_rewards/src/lib.rs:59-91 | Refused exactly when a farm already has the mint; the farms keep distinct mints, and the pool invariant is kept with an empty history for the new farm |
| RewardsProgram.FarmState.RefillFarm | periphery/clearstone_rewards/src/lib.rs:276-307 | Accepted exactly for a positive amount and a known mint; that mint's balance rises by the amount, no other balance moves, and the pool invariant is kept with the same history |
| Numbers.FloorDivExact | libraries/precise_number/src/lib.rs:85-109 | The half-unit correction of a division never shows once the result is floored: floor(a / b) is the exact integer quotient |
| Numbers.FloorMulNatural | libraries/precise_number/src/lib.rs:79-109 | A number times a natural, floored, is the exact quotient of the integer product by 1e12 |
| Numbers.FromRatioIsFloor | libraries/precise_number/src/lib.rs:53-60 | `from_ratio` of two naturals is the exact ratio rounded down to twelve decimals |
| Numbers.CeilDivSlack | libraries/precise_number/src/lib.rs:111-117 | A division then a ceiling undershoots the true quotient by less than 1e-12 of a unit |
| CeilRounding.CeilDivIs | libraries/precise_number/src/lib.rs:85-117 | What a ceiled division yields: the whole quotient, or one more exactly when the remainder, scaled by 1e12 and half a unit up, reaches the divisor; at divisors up to 0.5 that is always, even when it divides evenly |
| CeilRounding.CeilDivCoversIff | libraries/precise_number/src/lib.rs:85-117 | The exact condition: a ceiled division covers the true quotient a / b exactly when b divides a or the remainder, scaled by 1e12 and half a unit up, reaches b |
| CeilRounding.CeilUndershoots | libraries/precise_number/src/lib.rs:85-117 | A whole amount on which it does not: three divided by 2.999999999999 has the ceiling one |
| CeilRounding.CoveringIff | libraries/precise_number/src/lib.rs:85-117 | A rate covers every whole amount exactly when gcd(1e12, rate) * 1e12 + 5e11 is at least the rate; a rate that fails does so on an amount below itself |
| TimeCurve.LawsSatisfiable | libraries/time_curve/src/math.rs:14-16 | The laws assumed of `ln` and `exp` (inverse, increasing, exp(0) = 1) hold of a concrete pair of functions |
| TimeCurve.AnchorRoundTrip | libraries/time_curve/src/math.rs:101-114 | With time remaining, `ln_implied_rate` reads back from the anchor found for a rate exactly that rate, whatever the reserves |
| TimeCurve.AnchoredCurve | libraries/time_curve/src/math.rs:214-228 | At its own reserves the curve reads e^(rate t) at every moment before expiry |
| TimeCurve.RatesConverge | libraries/time_curve/src/math.rs:23-32 | A positive implied rate and fee rate are e^rate a year before expiry, fall strictly with every second after that, and are one at expiry |
| TimeCurve.ScalarProduct | libraries/time_curve/src/math.rs:80-98 | The rate scalar times the seconds remaining is the root times the seconds of a year |
| TimeCurve.LogitMonotone | libraries/time_curve/src/math.rs:14-16 | The logit rises with the share of PT |
| TimeCurve.TradeAgainstImplied | libraries/time_curve/src/math.rs:259-303 | A priced trade pays a fee that is not negative, at an exchange rate above one and never better for the trader than the implied rate before it |
| TimeCurve.TradePriceSolvesCurve | libraries/time_curve/src/math.rs:259-303 | A trade is priced where the curve reads the reserves after the PT has moved: there the odds of PT are the exponential of the scaled distance from the anchor |
| TimeCurve.TradeFee | libraries/time_curve/src/math.rs:233-303 | A seller is charged (fee rate - 1) of what the PT fetch, a buyer (fee rate - 1) / fee rate of the price, and in a flash swap either side (fee rate - 1) of the matching YT |
| TimeCurve.PricedIff | libraries/time_curve/src/math.rs:259-303 | A trade is priced exactly when it leaves PT in the reserve, takes less asset than there is, the fee rate is at least one, and the odds of PT it leaves are above those at which PT is worth one asset |
| TimeCurve.AddLiquidityBounds | libraries/time_curve/src/math.rs:131-172 | Adding liquidity takes at most each intent, and on each side at least the share of the reserve the minted LP stands for |
| TimeCurve.AddLiquidityFair | libraries/time_curve/src/math.rs:131-172 | A depositor gets the most LP tokens both intents cover, k tokens exactly when both intents cover the share of k, and on neither side pays the share of one more token and one unit |
| TimeCurve.ShareBounds | libraries/time_curve/src/math.rs:180-199 | A withdrawn amount is the exact share of the reserve rounded down, both bounds |
| MarketLiquidity.LiquidityRunKeeps | programs/clearstone_core/src/state/market_two.rs:582-634 | Over any run of adds and removes at any times, neither virtual reserve per virtual LP token falls |
| MarketLiquidity.LiquidityRunNetOut | programs/clearstone_core/src/state/market_two.rs:582-634 | A run that returns the LP supply to its start leaves both real reserves at least as large; otherwise the net PT or SY out is at most the starting share of the net LP burned |
| MarketLiquidity.RoundTripNeverProfits | programs/clearstone_core/src/state/market_two.rs:1101-1140 | Removing exactly the minted LP straight after the add returns at most what went in on each side, with no tolerance |
| MarketLiquidity.ClampNeverBitesIff | programs/clearstone_core/src/state/market_two.rs:618-634 | No removal of any size is ever clamped exactly when, on both sides, lp (V - 1) < (reserve + 1) V for the virtual constant V |
| MarketLiquidity.CoveredForGood | programs/clearstone_core/src/state/market_two.rs:610-634 | If each real reserve is at least the LP supply, it stays so through any run of adds and removes, and every removal is paid in full |
| MarketTrades.TradeKeepsValue | programs/clearstone_core/src/state/market_two.rs:443-523 | An accepted trade leaves the implied rate alone and does not lower the pool value rate * SY + PT / e^(r t), save that a purchase of PT at a rate that is not covering may lower it by at most rate * 1e-12 |
| MarketTrades.BuyerPays | programs/clearstone_core/src/state/market_two.rs:648-702 | A buyer never receives SY, and what is paid is worth at least the asset owed, floored away from the buyer, exactly so when the ceiling covers that amount and up to 1e-12 SY when it does not |
| MarketTrades.BuyerPaysInFullIff | programs/clearstone_core/src/state/market_two.rs:648-670 | The SY a buyer pays is worth the asset units owed exactly when the remainder of that amount at the SY rate is zero or not too small |
| MarketTrades.BuyersPayInFullIff | programs/clearstone_core/src/state/market_two.rs:648-670 | Buyers are charged at least the asset owed on every purchase exactly at the covering rates, every rate up to 1.5 among them |
| MarketTrades.BuyerCanUnderpay | programs/clearstone_core/src/state/market_two.rs:648-670 | At 2.999999999999 asset per SY a buyer who owes three asset pays a single SY |
| MarketTrades.SellerPaid | programs/clearstone_core/src/state/market_two.rs:648-702 | The SY a seller receives is worth at most the asset due |
| MarketTrades.TreasuryWithinFee | programs/clearstone_core/src/state/market_two.rs:476-480 | The treasury's cut is worth at most the fee, so the rest of the fee stays in the pool |
| MarketTrades.AppliedTrade | programs/clearstone_core/src/state/market_two.rs:494-523 | An accepted trade moves the two balances by the quoted amounts and the treasury cut, with opposite signs, meets the slippage bound, and changes nothing else, the stored rate included |
| MarketPricing.TraderPays | programs/clearstone_core/src/state/market_two.rs:443-523 | An accepted trade moves the PT asked for and SY worth what the curve offers after the fee of its side, bounded on both sides: against the trader by at most one SY and less than one asset; the treasury gets its part of that fee, both bounds |
| MarketPricing.TradeAcceptedIff | programs/clearstone_core/src/instructions/market_two/trade_pt.rs:195-260 | A trade is accepted exactly when it is quoted, SY moves the other way and meets the slippage bound, the reserves hold what leaves them, and the SY left is worth one asset |
| MarketPricing.QuoteGivenIff | programs/clearstone_core/src/state/market_two.rs:443-488 | With time left and a reserve worth one asset, a quote is given exactly when the trade leaves PT, takes less asset than there is, the fee rate is at least one, and PT stays worth less than one asset |
| MarketPricing.DepositAcceptedIff | programs/clearstone_core/src/instructions/market_two/deposit_liquidity.rs:138-233 | A deposit is accepted exactly when the market has not expired, both intents cover the share of the least LP asked for, and the new supply is within the window and the maximum |
| MarketPricing.WithdrawAcceptedIff | programs/clearstone_core/src/instructions/market_two/withdraw_liquidity.rs:136-223 | A withdrawal is accepted exactly when the supply covers it, the supply left is within the window, and on both sides the share and the real reserve cover the least asked for |
| MarketPricing.WithdrawerGets | programs/clearstone_core/src/state/market_two.rs:610-634 | An accepted withdrawal pays k of a side exactly when the share of the virtual reserve and the real reserve both cover k |
| MarketExamples.SomeTradeAccepted | programs/clearstone_core/src/instructions/market_two/trade_pt.rs:195-260 | The assumptions of the trading theorems can be met together: a concrete sale against a concrete market is accepted |
| MarketTheorems.StoredRateNeverMoves | programs/clearstone_core/src/state/market_two.rs:510-522 | No run of trades, adds and removes, at any times and SY rates, moves `last_ln_implied_rate`: the anchor is recomputed from the new balances and the old rate |
| MarketTheorems.TradesKeepValue | programs/clearstone_core/src/state/market_two.rs:443-523 | Any run of trades at one moment and one SY rate lowers the pool value by at most rate * 1e-12 a trade, and by nothing at a covering rate |
| MarketTheorems.TradesNeverLose | programs/clearstone_core/src/state/market_two.rs:443-523 | At a covering rate, every rate up to 1.5 among them, no run of trades at one moment lowers the pool value at all |
| MarketTheorems.NetZeroTradesTakeNothing | programs/clearstone_core/src/state/market_two.rs:443-523 | Trades at one moment that together move no PT never take out a single SY: any number of them at a covering rate, fewer than 1e12 at others |
| MarketTheorems.PoolWorthKept | programs/clearstone_core/src/state/market_two.rs:443-634 | Any run mixing trades, adds and removes at one moment keeps the pool value per virtual LP token up to 1e-18 SY an operation |
| MarketTheorems.PoolWorthNeverFalls | programs/clearstone_core/src/state/market_two.rs:443-634 | At a covering rate no such mixed run lowers it at all |
| MarketTheorems.ClosedRunTakesNothing | programs/clearstone_core/src/state/market_two.rs:443-634 | So a mixed run that returns the LP supply and the PT reserve to their start takes out no SY: of any length at a covering rate, of fewer than 1e18 operations per virtual LP token at others |
| MarketProgram.MarketFinancials.AddLiquidity | programs/clearstone_core/src/state/market_two.rs:582-608 | The in-place add: new balances, the most LP the intents cover, and on each side an amount within the intent, at least the share minted and less than the share of one token more and one unit |
| MarketProgram.MarketFinancials.RmLiquidity | programs/clearstone_core/src/state/market_two.rs:610-634 | The in-place removal with its clamp, accepted exactly when the LP amount is within the supply |
| MarketProgram.MarketFinancials.ApplyTradePt | programs/clearstone_core/src/state/market_two.rs:494-523 | The in-place trade: balances first, then anchor and rate, or an abort on an underflow |
| MarketProgram.LiquidityNetBalanceLimits.VerifyLimits | programs/clearstone_core/src/state/market_two.rs:769-811 | The new window or the error; on acceptance the balance after the change is within the band of the new window, and a change refused by the limit is outside the division-free bounds of the window it falls in |
| MarketProgram.MarketTwo.HandleDeposit | programs/clearstone_core/src/instructions/market_two/deposit_liquidity.rs:138-233 | The order add, minimum, window limit, mint, supply maximum; the new account or the first error; the depositor gets the most LP the intents cover for no more than its rounded share, no reserve per LP token falls and the supply ends within the window's limits |
| MarketProgram.MarketTwo.HandleWithdraw | programs/clearstone_core/src/instructions/market_two/withdraw_liquidity.rs:136-223 | Window limit before removal, minimums after it; the new account or the first error; no reserve per LP token falls and the LP supply ends within the window's limits |
| MarketProgram.MarketTwo.HandleTradePt | programs/clearstone_core/src/instructions/market_two/trade_pt.rs:195-260 | Quote, apply, sign and slippage checks in that order; the balances after an accepted trade, and the SY paid is what the curve offers after the fee of its side, bounded on both sides |
| LiquidityLimits.AcceptedIff | programs/clearstone_core/src/state/market_two.rs:769-811 | A change is accepted exactly when the balance after it satisfies bounds a caller can check without dividing, flooring or saturating: ten thousand times the fall is below (limit + 1) times the opening balance, and likewise for a rise |
| LiquidityLimits.SupplyStaysInBand | programs/clearstone_core/src/state/market_two.rs:769-811 | Through any run of adds, removes and trades the LP supply stays within the limits of the balance the current window opened with, however it is split up |
| LiquidityLimits.BandBoundsDrawdown | programs/clearstone_core/src/state/market_two.rs:798-808 | Within the band the supply has fallen by less than the limit plus one basis point |
| ClaimLimits.AtMostTwicePerInterval | programs/clearstone_core/src/state/vault.rs:498-518 | In any run of claims in time order, every interval no longer than the window accepts at most twice the maximum |
| ClaimLimits.TwiceIsReached | programs/clearstone_core/src/state/vault.rs:498-518 | Twice the maximum is reached, for every maximum and window: the bound is exact |
| ClaimLimits.ClaimAcceptedIff | programs/clearstone_core/src/state/vault.rs:498-518 | After any run in time order a claim is accepted exactly when it fits the maximum together with what was accepted since the window opened, or alone once the window has run out |
| ClaimLimits.ClaimLimitsAccount.VerifyClaimLimits | programs/clearstone_core/src/state/vault.rs:499-518 | The in-place check: the new window and total, or the error |
| VaultTheorems.SolventBeforeMaturity | programs/clearstone_core/src/state/vault.rs:332-391 | In every run before maturity, rates rising and falling, escrow covers treasury, credited interest and every YT's claim at the rate it was last credited at, up to 1e-12 SY per two SY stripped; YT and PT supply agree; staged interest is what the vault records as uncollected |
| VaultExactness.SolventIff | programs/clearstone_core/src/state/vault.rs:124-128 | For every set of rates: all runs before maturity whose strips are at these rates, with the SY rate moving freely in between, keep escrow >= treasury + uncollected exactly when rate * (1/rate as computed) is at most one for each of them |
| VaultExactness.SolventUpToIff | programs/clearstone_core/src/state/vault.rs:124-128 | The same for the runs that strip at most 1e12 * k SY in all: they are solvent exactly when k times the excess of each rate's reciprocal is below 1e12 |
| VaultLedger.StripDustFreeIff | programs/clearstone_core/src/state/yield_token_position.rs:202-220 | Strips at a rate leave no dust, whatever the amount, exactly when rate * (1/rate as computed) is at most one |
| VaultExamples.DustOverdraft | programs/clearstone_core/src/state/yield_token_position.rs:202-220 | Escrow >= treasury + uncollected can fail: one strip at 1.5 and a credit at a far higher rate owe one SY more than the vault holds |
| VaultLedger.EarnPaidByClaim | programs/clearstone_core/src/state/yield_token_position.rs:67-92 | Interest credited to a position at a new rate is paid out of its claim, whatever rates it has seen |
| VaultLedger.MoveUp | programs/clearstone_core/src/instructions/vault/deposit_yt.rs:183-214 | YT moved to a position credited at a higher rate claims no more than before, exactly as much when the rates agree |
| VaultLedger.MergedBound | programs/clearstone_core/src/instructions/vault/merge.rs:261-299 | The SY a merge pays is worth at most the PT burned, and at most the claim of as much YT |
| VaultSolvency.StepLive | programs/clearstone_core/src/instructions/vault/common.rs:15-26 | Before maturity every handler, accepted or refused, keeps the solvency invariant, built from the update and the earn step |
| VaultTheorems.FreshBacking | programs/clearstone_core/src/state/vault.rs:348-350 | After a strip, merge, stage, deposit or withdrawal of YT, `sy_for_pt` fits within the free escrow exactly when treasury and credited interest do |
| VaultExamples.CollectLeavesBackingStale | programs/clearstone_core/src/instructions/vault/collect_interest.rs:202-217 | `collect_interest` does not recompute `sy_for_pt`: a run from a new vault reaches a state where total SY >= treasury + uncollected + `sy_for_pt`, and collecting nothing there breaks it |
| VaultBacking.CollectKeepsIff | programs/clearstone_core/src/instructions/vault/collect_interest.rs:202-217 | An accepted collection keeps that inequality exactly when the interest it newly credits fits what the escrow had left over |
| VaultBacking.CollectAlwaysKeepsIff | programs/clearstone_core/src/instructions/vault/collect_interest.rs:202-217 | It is kept for every escrow balance and amount exactly when a guard on the accounts before the call holds: emergency mode, no YT, never credited, index not below the final rate, or a credit that rounds to nothing |
| VaultBacking.BalanceHoldsOnQuietRuns | programs/clearstone_core/src/state/vault.rs:126-128 | So from a new vault, at rates whose reciprocal was not rounded up, `sy_balance_invariant` holds throughout every run before maturity in which no collection credits anything new |
| VaultTheorems.BackingOnRuns | programs/clearstone_core/src/state/vault.rs:124-128 | In every state a new vault reaches before maturity, `sy_for_pt` is worth no more than the PT at the last seen rate, and `sy_balance_invariant` holds up to the dust and 1e-12 SY per PT |
| VaultMaturity.UpdateKeepsValue | programs/clearstone_core/src/state/vault.rs:357-391 | No update, skim included, lets active_sy * rate fall below active_sy * min(old rate, new rate), and none overdraws the escrow |
| VaultMaturity.RisingRunKeepsBacking | programs/clearstone_core/src/state/vault.rs:357-391 | A fully backed PT supply stays fully backed after any rising-rate run of updates and skims |
| VaultMaturity.SkimKeepsAthBackingIff | programs/clearstone_core/src/state/vault.rs:281-302 | A skim keeps PT backed at the all-time high, for every balance, exactly when the last seen rate was the all-time high |
| VaultExamples.EmergencyMaturityOverdraft | programs/clearstone_core/src/state/vault.rs:281-302 | A run from a new vault, in emergency mode as it matures, on which one merge and one credit after maturity leave treasury and interest owed more SY than the vault holds |
| VaultMaturity.MaturityFunded | programs/clearstone_core/src/state/yield_token_position.rs:67-92 | A vault that reaches maturity outside emergency mode can fund all late interest and all PT, up to 1e-12 SY per PT |
| VaultMaturity.StepMature | programs/clearstone_core/src/state/vault.rs:357-391 | After maturity every handler keeps late interest and PT funded at the last seen rate |
| VaultTheorems.LateDustBounded | programs/clearstone_core/src/state/yield_token_position.rs:154-162 | Scaling late interest to the current rate adds dust at most once a position, so the dust after maturity is bounded by what late credits were outstanding |
| VaultTheorems.SolventForLife | programs/clearstone_core/src/state/vault.rs:357-391 | So a vault that matures outside emergency mode stays solvent through every later run: treasury, interest and PT at the last seen rate are covered up to that bounded dust |
| VaultTheorems.LateSkimCoversIff | programs/clearstone_core/src/state/vault.rs:281-302 | At any last seen rate, all-time high and new high: the first update after maturity leaves the PT of every live vault covered, up to the dust and 1e-12 SY per PT, exactly when 1/ATH as computed times the last seen rate, plus 1e-12 of the new rate, reaches one. That always holds outside emergency mode; where it fails, some live vault is short |
| VaultTheorems.RatesOverRuns | programs/clearstone_core/src/state/vault.rs:357-391 | Over any run the all-time high never falls, and over any run after maturity the final rate is frozen |
| VaultTheorems.CreatorTakesOnlyItsOwn | programs/clearstone_core/src/instructions/vault/admin/treasury/collect_treasury_interest.rs:88-129 | However the creator combines the two kinds of collection, what leaves the escrow is exactly what leaves the treasury and the vault's own staged interest; the SY free for PT and every user are untouched |
| VaultBooks.BooksAgree | programs/clearstone_core/src/state/vault.rs:332-391 | From a new vault over any run, read off the operations: a user's YT is own deposits less own withdrawals and staged interest is own credits less own collections; all YT and PT are strips at floor(sy * rate) less merges; the escrow is strips less payouts; the treasury gains only by skims at a new high after maturity, of the exact appreciation |
| VaultBooks.CreditWorth | programs/clearstone_core/src/state/yield_token_position.rs:67-92 | What a position is credited: the drop of its YT's worth in SY, short by less than one SY, and after maturity the same value at the current rate, short by less than one SY and 1e-12 of the interest |
| VaultBooks.MergePaysShare | programs/clearstone_core/src/instructions/vault/merge.rs:261-299 | A merge pays its share of the PT backing from both sides: at most the share, and short by less than one SY and 1e-12 SY a token |
| VaultBooks.BackingExactIff | programs/clearstone_core/src/state/vault.rs:332-350 | The PT backing reaches k exactly when the PT are worth k at the rate and the active SY covers k |
| VaultBooks.StripAcceptedIff | programs/clearstone_core/src/instructions/vault/strip.rs:250-283 | A strip is accepted exactly while the vault is active, at a positive rate no lower than any before, up to the supply maximum |
| VaultBooks.MergeAcceptedIff | programs/clearstone_core/src/instructions/vault/merge.rs:273-299 | A merge is accepted exactly at a positive rate no lower than any before, when the PT exist, the vault holds as much YT while active, and the escrow covers the payout |
| VaultBooks.UserOpsAcceptedIff | programs/clearstone_core/src/instructions/vault/deposit_yt.rs:183-214 | Staging, depositing and withdrawing YT are each accepted exactly under their own guards; only the withdrawal does without the rate check |
| VaultBooks.CollectAcceptedIff | programs/clearstone_core/src/instructions/vault/collect_interest.rs:202-217 | Interest is collected exactly up to what was staged before the call, as far as the books and the escrow reach |
| VaultTheorems.SplitStagingNeverGains | programs/clearstone_core/src/state/yield_token_position.rs:202-220 | Staging over n rising rates never earns more than staging once, and loses at most one SY per extra step |
| VaultProgram.VaultAccount.UpdateFromSyState | programs/clearstone_core/src/state/vault.rs:357-391 | The in-place update equals its specification: skim, rates, frozen final rate, recomputed backing |
| VaultProgram.YieldTokenPosition.EarnAll | programs/clearstone_core/src/state/yield_token_position.rs:67-117 | The in-place credit of a position and its vault, including the abort while the final rate is zero |
| VaultProgram.UpdateVaultYield | programs/clearstone_core/src/instructions/vault/common.rs:15-26 | Update then credit the vault's own position, in that order, on the two accounts |
| VaultProgram.HandleStrip | programs/clearstone_core/src/instructions/vault/strip.rs:250-283 | The accounts after a strip and the PT and YT minted, or the error |
| VaultProgram.HandleMerge | programs/clearstone_core/src/instructions/vault/merge.rs:273-299 | The accounts after a merge and the SY paid, or the error |
| VaultProgram.HandleStageYield | programs/clearstone_core/src/instructions/vault/stage_yield.rs:109-132 | The three accounts after staging, or the error |
| VaultProgram.HandleDepositYt | programs/clearstone_core/src/instructions/vault/deposit_yt.rs:183-214 | The three accounts after a deposit of YT, in which exactly the amount has moved from the vault's position to the user's, or the error |
| VaultProgram.HandleWithdrawYt | programs/clearstone_core/src/instructions/vault/withdraw_yt.rs:184-202 | The three accounts after a withdrawal of YT, which emergency mode does not refuse and which moves exactly the amount back, or the error |
| VaultProgram.HandleCollectInterest | programs/clearstone_core/src/instructions/vault/collect_interest.rs:202-217 | The accounts after interest is collected, or the error |
| CuratorShares.SharesAddUp | periphery/clearstone_curator/src/lib.rs:92-219 | From an opened vault, through any run of deposits, withdrawals, harvests and revaluations, `total_shares` is the sum of the positions |
| CuratorBooks.RunBooked | periphery/clearstone_curator/src/lib.rs:92-219 | Over any run a holder's shares are those minted to that holder less those that holder asked to burn, read off the operations, the curator's under harvests excepted; total shares, assets and escrow are deposits less withdrawals likewise |
| CuratorBooks.PartialWithdrawalKeepsRest | periphery/clearstone_curator/src/lib.rs:146-219 | Who withdraws part keeps exactly the other shares, and they are worth no less than before |
| CuratorBooks.SharesExactIff | periphery/clearstone_curator/src/lib.rs:92-137 | Within u64 a deposit mints k shares exactly when it covers their price |
| CuratorBooks.AssetsExactIff | periphery/clearstone_curator/src/lib.rs:146-219 | Within u64 a withdrawal pays k exactly when the shares are worth k |
| CuratorBooks.WithdrawAcceptedIff | periphery/clearstone_curator/src/lib.rs:146-219 | A withdrawal is accepted exactly up to the shares held, as far as assets, escrow and the 128-bit product allow |
| CuratorBooks.DepositAcceptedIff | periphery/clearstone_curator/src/lib.rs:92-137 | A deposit is accepted exactly when it is positive and no total or product overflows |
| CuratorBooks.HarvestMints | periphery/clearstone_curator/src/lib.rs:640-693 | A harvest mints k shares to outstanding ones exactly when k times the assets less the fee is covered by the supply times the fee, and one share for each unit of fee when there are none |
| CuratorBooks.FeeExactIff | periphery/clearstone_curator/src/lib.rs:648-651 | Within u64 the fee reaches k exactly when the gain since the last harvest covers it; a loss is free |
| CuratorShares.HarvestOnlyAdds | periphery/clearstone_curator/src/lib.rs:640-693 | So the branch of a harvest that overwrites the curator's position only ever adds to it; no other position changes |
| CuratorShares.DealingKeepsPrice | periphery/clearstone_curator/src/lib.rs:92-219 | Over any run of deposits and withdrawals (assets + VA) / (shares + VS) never falls, truncation to 64 bits included |
| CuratorShares.HoldingNeverLoses | periphery/clearstone_curator/src/lib.rs:146-219 | What a holder's shares redeem for never falls while others deposit and withdraw |
| CuratorShares.RoundTripNeverProfits | periphery/clearstone_curator/src/lib.rs:92-219 | Withdrawing the shares straight after depositing returns at most the deposit |
| CuratorShares.LastWithdrawalIff | periphery/clearstone_curator/src/lib.rs:146-219 | The last holder can take everything out, the escrow permitting, exactly when shares (V - 1) < (assets + 1) V; otherwise the withdrawal is refused for insufficient assets |
| CuratorShares.DealingKeepsBacked | periphery/clearstone_curator/src/lib.rs:92-219 | If total assets are at least total shares, any run of deposits and withdrawals keeps it so |
| CuratorShares.EveryoneCanLeave | periphery/clearstone_curator/src/lib.rs:146-219 | With assets at least shares and all of them in the escrow, the holders can all withdraw everything, in any order, and nobody is refused |
| CuratorShares.FeeSharesRedeemWithinFee | periphery/clearstone_curator/src/lib.rs:653-663 | Shares minted by a harvest redeem for at most the fee whenever shares outstanding are at most assets less the fee |
| CuratorShares.FeeValueIff | periphery/clearstone_curator/src/lib.rs:653-663 | Before rounding, the minted shares are worth at most the fee exactly under that condition |
| CuratorShares.HarvestCanOverpay | periphery/clearstone_curator/src/lib.rs:640-693 | Without it the shares can redeem for more: a run from a new vault reaches a state in which a harvest of a fee of 10 000 gives the curator shares that are withdrawn at once for 18 198 |
| CuratorShares.HarvestDilutesWithinFee | periphery/clearstone_curator/src/lib.rs:640-693 | Under the same condition the other holders' joint claim drops by at most the fee, and the vault stays backed |
| CuratorShares.DepositsAreCharged | periphery/clearstone_curator/src/lib.rs:648-651 | With nothing earned since the last harvest, after any run of deposits and withdrawals the net assets put in are charged the performance fee as if they were gain; the charge is zero exactly when net * fee_bps is below 10 000 |
| CuratorProgram.CuratorVault.Deposit | periphery/clearstone_curator/src/lib.rs:92-137 | The whole vault after a deposit, in which position and supply have grown by the shares returned and assets by the amount, or the error; price and sum of shares kept |
| CuratorProgram.CuratorVault.Withdraw | periphery/clearstone_curator/src/lib.rs:146-219 | The whole vault after a withdrawal, in which position and supply have shrunk by exactly the shares asked and the rest is worth no less, or the error in the order of the checks; price and sum of shares kept |
| CuratorProgram.CuratorVault.HarvestFees | periphery/clearstone_curator/src/lib.rs:640-693 | The whole vault after a harvest, its three branches, or an overflow; sum of shares kept |
| CuratorProgram.CuratorVault.SetAllocations | periphery/clearstone_curator/src/lib.rs:224-250 | Accepted exactly when, whatever the assets, the targets the weights make of them never add up to more; on refusal nothing changes |
| CuratorProgram.CuratorVault.ReallocateToMarket | periphery/clearstone_curator/src/lib.rs:264-411 | One allocation grows: total deployed rises by exactly the amount, the signed terms stay, and allocations within their caps stay within; or the first error and no change |
| CuratorProgram.CuratorVault.ReallocateFromMarket | periphery/clearstone_curator/src/lib.rs:425-540 | One allocation shrinks: total deployed falls by the amount or by all that was recorded, the signed terms and caps stay; or the first error and no change |
| CuratorProgram.CuratorVault.CrankRollDelegated | periphery/clearstone_curator/src/lib.rs:731-903 | The checks of a roll in order; on acceptance the old market had matured, both allocations are the markets passed, at least the slippage floor came back and all of it is recorded on the new allocation, terms and caps stay, and the delegation still passes |
| RollTheorems.PreimageSameList | periphery/clearstone_curator/src/roll_delegation.rs:79-94 | The bytes hashed for two allocation lists agree exactly when the lists agree, in order, on market, weight and cap |
| RollTheorems.ValidatesIff | periphery/clearstone_curator/src/roll_delegation.rs:223-244 | A delegation passes exactly when it names the vault, has not expired, and the lists agree, or else their commitments are a hash collision |
| RollTheorems.CreatedDelegation | periphery/clearstone_curator/src/roll_delegation.rs:166-205 | For every slot and lifetime, a saturating expiry included: a delegation is accepted exactly within the slippage and lifetime bounds, and passes from its slot until it expires |
| RollTheorems.DelegationOutlivesRolls | periphery/clearstone_curator/src/roll_delegation.rs:223-244 | A delegation that passes before any run of rolls and reallocations passes after it, until it expires |
| RollTheorems.RunKeepsTerms | periphery/clearstone_curator/src/lib.rs:731-903 | Rolls and reallocations never change the signed terms, and keep every allocation that starts within its cap within it |
| RollTheorems.RollChangesDeployed | periphery/clearstone_curator/src/lib.rs:813-872 | An accepted roll returns at least the slippage floor, the allocation rolled into respects its cap, and the total deployed changes by exactly what left and what came back, the same allocation on both sides included |
| RollBooks.RollAcceptedIff | periphery/clearstone_curator/src/lib.rs:731-872 | A roll is accepted exactly when the delegation passes, both indexes name the markets passed, the old market has matured, the LP held covers the positive amount deployed, the least return meets the floor and the return meets it, and the new allocation's cap holds it |
| RollBooks.SignedRollAcceptedIff | periphery/clearstone_curator/src/lib.rs:731-872 | Over an unchanged list, with return and cap in order, a roll is accepted exactly when the delegation has not expired, the market has matured and the LP covers a positive amount |
| RollBooks.NoMarketLeftEarly | periphery/clearstone_curator/src/lib.rs:773-778 | In any run of rolls and reallocations no accepted roll leaves a market before its expiry |
| RollBooks.RunBooked | periphery/clearstone_curator/src/lib.rs:264-903 | Over any run each allocation holds what it held plus what was deployed and rolled into it, less what was reported out and rolled away, read off the operations |
| RollBooks.ReallocationsAcceptedIff | periphery/clearstone_curator/src/lib.rs:264-540 | A reallocation is accepted exactly when the index names the market, and inwards when the amount is positive and within the cap |
| RollTheorems.RollsKeepValue | periphery/clearstone_curator/src/lib.rs:731-903 | After n accepted rolls under slippage at most s, the total deployed is at least what it was times (1 - s/10000)^n, less n |
| RollTheorems.SlippageHonouredIff | periphery/clearstone_curator/src/roll_delegation.rs:248-252 | The floor is the exact slippage bound exactly while deployed times (10000 - slippage) stays below the saturation point of u64 rounded up to a multiple of 10000 |
| RollTheorems.SaturatedRollAccepted | periphery/clearstone_curator/src/lib.rs:731-903 | Beyond it, a roll that returns a ten-thousandth of a position is accepted under a delegation that signed ten percent |
| CuratorProgram.CommitBytes | periphery/clearstone_curator/src/roll_delegation.rs:79-85 | Filling the 42-byte buffer slice by slice yields market, weight and cap in little-endian order |
| CuratorProgram.RollDelegation.Create | periphery/clearstone_curator/src/roll_delegation.rs:166-205 | Accepted exactly within the bounds; the delegation written then passes for the vault's allocations at exactly the slots before its expiry; on each error no field changes |
| Allocator.BlocksDisjoint | programs/clearstone_core/src/allocator.rs:107-124 | From a fresh heap, whatever is requested, all blocks are aligned, inside the heap, off the position word and pairwise disjoint |
| Allocator.LeastAligned | programs/clearstone_core/src/allocator.rs:117-118 | The mask, defined bit by bit, gives the least aligned address from the cursor on |
| Allocator.SucceedsIff | programs/clearstone_core/src/allocator.rs:107-124 | A call succeeds exactly when the least aligned block ends within the heap, always when size + align - 1 bytes remain; a failed call changes nothing |
| Allocator.BumpAllocator.Alloc | programs/clearstone_core/src/allocator.rs:107-124 | The in-place allocation: the block, the new position word, and the invariant of the word |
| SyAdapter.SolventAtConstantRate | reference_adapters/generic_exchange_rate_sy/src/lib.rs:72-166 | While the rate is not poked, every run of mints, redemptions, deposits and withdrawals keeps base_vault * 1e12 >= sy_supply * rate, and SY in wallets and pool adds up to the supply |
| SyAdapter.AlwaysRedeemable | reference_adapters/generic_exchange_rate_sy/src/lib.rs:121-166 | So at any point of such a run any holder can redeem any SY held and take back any SY deposited, in any order |
| AdapterBooks.RunBooked | reference_adapters/generic_exchange_rate_sy/src/lib.rs:72-245 | Over any run, pokes included, read off the operations: a wallet holds what was minted at floor(base / rate) and withdrawn less what was redeemed and deposited, a position deposits less withdrawals, the vault the base paid in less floor(sy * rate) paid out, and the supply mints less redemptions |
| AdapterBooks.MintAcceptedIff | reference_adapters/generic_exchange_rate_sy/src/lib.rs:72-117 | A mint is accepted exactly at a positive rate while base and supply fit u64 |
| AdapterBooks.RedeemAcceptedIff | reference_adapters/generic_exchange_rate_sy/src/lib.rs:121-166 | A redemption is accepted exactly at a positive rate, up to the holding, as far as the vault pays it |
| AdapterBooks.PoolAcceptedIff | reference_adapters/generic_exchange_rate_sy/src/lib.rs:182-245 | Deposits are accepted exactly up to what is held and withdrawals up to what is deposited |
| SyAdapter.RoundTripNeverProfits | reference_adapters/generic_exchange_rate_sy/src/lib.rs:72-166 | redeem(mint(x)) <= x |
| SyAdapter.SyOutExact | reference_adapters/generic_exchange_rate_sy/src/lib.rs:92 | Minted SY is the exact integer quotient: the half-unit rounding does not show |
| SyAdapter.BaseOutExact | reference_adapters/generic_exchange_rate_sy/src/lib.rs:141 | Redeemed base is the exact integer quotient |
| SyAdapter.LargestPoke | reference_adapters/generic_exchange_rate_sy/src/lib.rs:272-281 | After any run at a constant rate, a poke leaves every amount of SY up to the supply payable exactly when the new rate is at most ((base + 1) * 1e12 - 1) / supply, which the old rate never exceeds |
| SyAdapter.SolventWithinPokes | reference_adapters/generic_exchange_rate_sy/src/lib.rs:272-281 | Through any run, pokes included, the vault covers the supply and every holding can be redeemed or taken back, as long as each poke is to a rate at which the vault is worth the supply of that moment |
| SyAdapter.PokeCanOverdraw | reference_adapters/generic_exchange_rate_sy/src/lib.rs:272-281 | One mint and one poke can leave the supply not fully redeemable |
| SyAdapterProgram.SyMarketAccount.MintSy | reference_adapters/generic_exchange_rate_sy/src/lib.rs:72-117 | The accounts after a mint or the error; solvency kept |
| SyAdapterProgram.SyMarketAccount.RedeemSy | reference_adapters/generic_exchange_rate_sy/src/lib.rs:121-166 | The accounts after a redemption or the error; solvency kept |
| SyAdapterProgram.SyMarketAccount.DepositSy | reference_adapters/generic_exchange_rate_sy/src/lib.rs:182-208 | The accounts after a deposit of SY or the error, an amount of zero included |
| SyAdapterProgram.SyMarketAccount.WithdrawSy | reference_adapters/generic_exchange_rate_sy/src/lib.rs:212-245 | The accounts after a withdrawal of SY or the error, an amount of zero included |

## Left out

- f64 rounding and the bodies of `ln` and `exp`: the generic curve code is modelled at exact reals. Where the f64 code would compute with a NaN or an infinity (no time remaining, a virtual SY reserve worth less than one asset unit, a PT share of one or more) the model rejects the trade, as the library's assertions or the handler's sign check do.
- Overflows of u64, u128 and 256-bit arithmetic in the vault, the market and `Number`: the model's vault accepts every transaction the program accepts; saturation of the virtual reserves near the top of u64 is not modelled.
- Emission indexes and emission tracking of the core vault; only the division by the final rate that can abort a credit is kept.
- `decommission_farm`: removing a farm shifts the per-position trackers matched by index, so the theorems are over runs without it.
- VaultExactness.SolventIff: takes amounts as naturals; at a rate of small excess the failing run strips more than u64 holds, and VaultExactness.SolventUpToIff states the exact condition for each total.
- MarketTrades.BuyersPayInFullIff: quantifies over amounts of any size; a failing amount lies below the rate, so it fits u64 at every rate below 1.8e7 asset per SY.
- RollTheorems.RollsKeepValue: requires deployed amounts and caps times 10000 to fit u64; beyond that the saturating floor gives less, as RollTheorems.SlippageHonouredIff states.
- CuratorShares.LastWithdrawalIff: requires assets plus the virtual amount, and shares, to fit u64; beyond that the 128-bit product may abort.
- MarketTheorems.PoolWorthKept: is at one timestamp and one SY rate; between timestamps the price of PT moves by design and the value with it.
- Market initialisation, flash swaps, the YT trades built from them, and `lp_price_in_asset`.
- `mark_to_market` beyond a change of the recorded assets to any value: caps are not claimed to hold after it, and `set_allocations` may overwrite what is recorded as deployed.
- Market, SY and token calls made from the curator: their results are environment values that only the program's own checks constrain.
- The claim-limit check in front of `collect_interest`, status flags and minimum operation sizes: each only refuses more transactions; the claim limit is proved on its own in `ClaimLimits`.
- The adapter's base vault is taken to be the market's own pool account.
- Accounts, addresses, signatures, token programs, events, the reentrancy latch, the Kamino adapter, the router, the solver callback and the TypeScript code.
