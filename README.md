# Price-insurance formula engine in Dafny

This project models the pricing and risk engine of a price-insurance product for a traded asset. Given an open price, a claim (strike) price, a margin, a hedge ratio and a table of historical volatility samples, the engine computes:

- the stop-loss price;
- the insurer's implied risk and the capital it puts beside the user's margin;
- the leverage, the claim payout and the futures quantity;
- the refund price and the expiry time;
- the admissible range of claim prices.

The original is the TypeScript class `InsuranceFormula` and the constant tables it reads. The class only holds configuration that its constructor copies in and never changes. So it becomes an immutable `Config` value (`InsuranceFormula.Config`, with `InsuranceFormula.Initial` as the constructor's values), and every method becomes a pure function of that value and its inputs. The source computes with Big.js decimals on purpose. The model uses exact `real` arithmetic throughout.

Files:

- `constants.dfy` (module `Constants`): the two payout tables (`Q_CLAIM_CONFIG_HOUR`, `Q_CLAIM_CONFIG_DAY`), `RISK_CONFIG`, `REFUND_RATIO`, `RATIO_DIFFERENT_PRICE_CLAIM`, `MIN_PERIOD`, `MAX_PERIOD`, and facts about them.
- `sequences.dfy` (module `Sequences`): the list operations the engine applies, namely an ascending numeric sort and an order-preserving filter.
- `insurance_formula.dfy` (module `InsuranceFormula`): the engine.

Three points about the code that a reader might expect otherwise:

- The gap helper `_filterRatioDifferentPriceClaim` reads like a cap on the scaled ratio. The code returns the larger of the configured gap and the scaled ratio, so the gap acts as a floor, and `FilterRatioDifferentPriceClaim` models that.
- The stop price only divides by the open price, so `PStop` requires `pOpen != 0`, and negative open prices are allowed.
- The capital allocation switches formula at the risk ceiling. Under exact arithmetic both branches give exactly the margin there, so the capital is continuous at the ceiling, and `SystemCapital`'s contract states both branches.

## Model

| member | source | states |
|---|---|---|
| Constants.TablesShape | src/constants.ts:1-76 | both tables have 9 rows, keys 0.02 + 0.01·i rising strictly from 0.02 to 0.1, and x = 0 in every row |
| Constants.TablesIdentical | src/constants.ts:1-76 | the hour and day tables are equal |
| Constants.ScalarConstants | src/constants.ts:78-84 | RISK_CONFIG, REFUND_RATIO and RATIO_DIFFERENT_PRICE_CLAIM lie in (0,1), and 1 ≤ MIN_PERIOD ≤ MAX_PERIOD |
| Sequences.Sort | src/InsuranceFormula.ts:180-182 | the result is sorted ascending and is a permutation (same multiset) of the input |
| Sequences.Filter | src/InsuranceFormula.ts:183-185 | the result holds exactly the input's elements that pass the predicate, and is no longer than the input |
| Sequences.FilterCount | src/InsuranceFormula.ts:170-172 | every passing element keeps its multiplicity, and every failing one is dropped |
| Sequences.FilterConcat | src/InsuranceFormula.ts:170-172 | filtering distributes over concatenation, so kept elements stay in their original order |
| Sequences.FilterAllPass | src/InsuranceFormula.ts:170-172 | filtering leaves a list unchanged if and only if every element passes |
| Sequences.FilterIdempotent | src/InsuranceFormula.ts:170-172 | filtering twice equals filtering once |
| Sequences.FilterSorted | src/InsuranceFormula.ts:183-185 | filtering a sorted list gives a sorted list |
| InsuranceFormula.RatioPredict | src/InsuranceFormula.ts:55-58 | ratio × p_open = \|p_claim − p_open\|; for p_open > 0 the ratio is ≥ 0, and it is 0 iff p_claim = p_open |
| InsuranceFormula.DiffStop | src/InsuranceFormula.ts:60-69 | total, and the result is one of 1.5, 1.48, 1.45, 1; each value holds exactly on its band: r ≤ 0.04, 0.04 < r ≤ 0.1, 0.1 < r < 0.5, r ≥ 0.5 |
| InsuranceFormula.DiffStopMonotone | src/InsuranceFormula.ts:60-69 | the tier is non-increasing in the ratio |
| InsuranceFormula.DiffStopBoundaries | src/InsuranceFormula.ts:60-69 | 0.04 ↦ 1.5, 0.1 ↦ 1.48, 0.5 ↦ 1, 0 ↦ 1.5 |
| InsuranceFormula.DiffClaim | src/InsuranceFormula.ts:225-228 | the result is 0.25 or 0.2, and it is 0.25 iff r ≤ 0.04 |
| InsuranceFormula.DiffClaimFollowsDiffStop | src/InsuranceFormula.ts:60-69 | the 0.25 discount goes with exactly the 1.5 stop tier |
| InsuranceFormula.PStop | src/InsuranceFormula.ts:71-86 | bullish move: p_open − (p_claim − p_open)·diffStop, which is < p_open; otherwise p_open + (p_open − p_claim)·diffStop, which is ≥ p_open; the stop distance is the move times the tier; the stop equals the open price iff the claim does |
| InsuranceFormula.PStopExample | src/__tests__/index.test.ts:131-135 | (64493.9, 70000) ↦ 56344.872 exactly |
| InsuranceFormula.SystemRisk | src/InsuranceFormula.ts:36-42 | risk × (r·diffStop) = day_change_token for r ≠ 0; the risk is 0 iff the token change is 0 |
| InsuranceFormula.SystemCapital | src/InsuranceFormula.ts:44-53 | risk > ceiling (strict): capital × risk = margin × ceiling, which is below the margin for a positive margin and ceiling; otherwise capital = margin·(1 + ceiling − risk), which is ≥ the margin |
| InsuranceFormula.SystemCapitalIgnoresPrices | src/InsuranceFormula.ts:44-53 | the capital does not depend on the p_stop and p_open arguments |
| InsuranceFormula.SystemCapitalPositive | src/InsuranceFormula.ts:44-53 | a positive margin and ceiling give a positive capital |
| InsuranceFormula.Leverage | src/InsuranceFormula.ts:88-92 | L ≤ 1/(r·diffStop) < L + 1, and L ≥ 0 for r > 0 |
| InsuranceFormula.StopDistanceLeverage | src/InsuranceFormula.ts:137 | L ≤ p_open/\|p_open − p_stop\| < L + 1 |
| InsuranceFormula.StopDistanceLeverageAgrees | src/InsuranceFormula.ts:135-139 | for p_open > 0 and a real move, the stop-distance leverage equals the ratio-form leverage |
| InsuranceFormula.NearestRowIndex | src/InsuranceFormula.ts:111-117 | the reduction picks a row of least \|row.hedge − hedge\|, and every earlier row is strictly farther (ties go to the earliest) |
| InsuranceFormula.NearestRowIndexUnique | src/InsuranceFormula.ts:111-117 | those two properties single out the reduction's result |
| InsuranceFormula.KeySelectsItsRow | src/InsuranceFormula.ts:111-117 | with strictly rising keys, an input equal to a key selects that key's row |
| InsuranceFormula.HedgeFiveHundredthsSelectsFourthRow | src/constants.ts:1-76 | hedge 0.05 selects row index 3 (the 4th row) in both tables |
| InsuranceFormula.QClaimTable | src/InsuranceFormula.ts:111 | the selected table has 9 rows (so the seedless reduction never throws), all with x = 0 |
| InsuranceFormula.QClaim | src/InsuranceFormula.ts:94-124 | with the shipped tables, payout = r·(margin + capital)·L·(1 − diffClaim) + margin, for any hedge and period unit; QClaimAtLeastMargin and QClaimExample state its bound and its tested value |
| InsuranceFormula.QClaimIgnoresPeriodUnit | src/InsuranceFormula.ts:111 | the period unit cannot change the payout |
| InsuranceFormula.QClaimAtLeastMargin | src/InsuranceFormula.ts:94-124 | for p_open > 0, a real move, a positive margin and a positive ceiling, the payout is ≥ the margin |
| InsuranceFormula.QClaimExample | src/__tests__/index.test.ts:137-148 | (margin 3.75, open 562, claim 580, hedge 0.05, HOUR, token 0.022) ↦ exactly 45801/5620 |
| InsuranceFormula.QuantityFuture | src/InsuranceFormula.ts:135-150 | for p_open > 0, quantity × p_open = (margin + capital) × the ratio-form leverage |
| InsuranceFormula.PRefund | src/InsuranceFormula.ts:126-129 | the refund price lies \|p_open·refund_ratio\| from p_open; for positive p_open and refund_ratio it exceeds p_open iff the move is bullish |
| InsuranceFormula.Hedge | src/InsuranceFormula.ts:131-133 | quotient × divisor = dividend, for a non-zero divisor |
| InsuranceFormula.Expired | src/InsuranceFormula.ts:152-166 | now + period·86 400 000 ms for DAY and now + period·3 600 000 ms for HOUR; no value for any other unit |
| InsuranceFormula.ExpiredRelations | src/InsuranceFormula.ts:152-166 | n days expire together with 24·n hours; a longer period never expires earlier; a positive period expires after now |
| InsuranceFormula.AvailablePeriod | src/InsuranceFormula.ts:168-176 | for BEAR: exactly the samples with ratio < 1, each with its multiplicity; for other sides: the list unchanged |
| InsuranceFormula.AvailablePeriodIdempotent | src/InsuranceFormula.ts:168-176 | applying it twice equals applying it once |
| InsuranceFormula.AvailablePeriodKeepsOrder | src/InsuranceFormula.ts:168-176 | it distributes over concatenation, so the original order is kept |
| InsuranceFormula.Ratios | src/InsuranceFormula.ts:180-181 | the i-th element is the i-th sample's ratio |
| InsuranceFormula.SortListAvg | src/InsuranceFormula.ts:180-183 | the result is sorted ascending and holds exactly the sample ratios that are ≥ the threshold, each as many times as samples carry it |
| InsuranceFormula.SortListAvgNonEmpty | src/InsuranceFormula.ts:180-183 | if some sample reaches the threshold, the cut list is non-empty |
| InsuranceFormula.SortListAvgEnds | src/InsuranceFormula.ts:180-183 | the cut list's first element is the least, and its last the greatest, sample ratio ≥ the threshold |
| InsuranceFormula.FilterRatioDifferentPriceClaim | src/InsuranceFormula.ts:220-223 | the result is ≥ both the configured gap and avg·time, and equals one of them (their maximum) |
| InsuranceFormula.GapMonotone | src/InsuranceFormula.ts:220-223 | for time ≥ 0, a larger ratio never gives a smaller gap |
| InsuranceFormula.SkewTime | src/InsuranceFormula.ts:188-215 | BUY on BULL and SELL on BEAR give 0.5; BUY on BEAR and SELL on BULL give 0.75; any other signal gives 1 |
| InsuranceFormula.BoundsMonotone | src/InsuranceFormula.ts:190-213 | for p_market ≥ 0, a wider gap moves a bull bound up and a bear bound down |
| InsuranceFormula.BullRange | src/InsuranceFormula.ts:189-191 | bounds are (1 + gap)·p_market from the cut list's first and last elements; on a sorted list these are its least and its greatest element |
| InsuranceFormula.BullRangeOrdered | src/InsuranceFormula.ts:189-191 | on a sorted list, min ≤ max and min ≥ (1 + configured gap)·p_market |
| InsuranceFormula.BearRange | src/InsuranceFormula.ts:192-196 | max comes from the first element, on a sorted list the least; min is 0 when no element is < 1, and otherwise comes from an element < 1, on a sorted list the greatest one |
| InsuranceFormula.BearRangeMaxBound | src/InsuranceFormula.ts:195 | max ≤ (1 − configured gap)·p_market |
| InsuranceFormula.BearRangeOrdered | src/InsuranceFormula.ts:192-196 | on a sorted list with an element < 1, min ≤ max |
| InsuranceFormula.DistancePClaim | src/InsuranceFormula.ts:178-218 | a side other than BULL or BEAR gives {0, 0} |
| InsuranceFormula.DistancePClaimBull | src/InsuranceFormula.ts:178-218 | BULL: min ≤ max, and both are ≥ (1 + configured gap)·p_market |
| InsuranceFormula.DistancePClaimBear | src/InsuranceFormula.ts:178-218 | BEAR: max ≤ (1 − configured gap)·p_market; min = 0 when no sample lies in [threshold, 1); otherwise min ≤ max and min ≤ (1 − configured gap)·p_market |
| InsuranceFormula.SortListAvgExtremes | src/InsuranceFormula.ts:180-185 | the cut list's least, greatest and greatest-below-1 elements are exactly the least, greatest and greatest-below-1 sample ratios ≥ the threshold |
| InsuranceFormula.QualifyingExtremesExist | src/InsuranceFormula.ts:180-185 | a sample at or above the threshold makes the least and greatest qualifying ratios exist, and one in [threshold, 1) makes the greatest of those exist |
| InsuranceFormula.DistancePClaimBullValues | src/InsuranceFormula.ts:188-191 | BULL: min = (1 + max(gap, lo·t))·p_market and max = (1 + max(gap, hi·t))·p_market, with lo and hi the least and greatest qualifying ratios and t the signal's skew |
| InsuranceFormula.DistancePClaimBearValues | src/InsuranceFormula.ts:192-196 | BEAR: max = (1 − max(gap, lo·t))·p_market and min = (1 − max(gap, hb·t))·p_market, with lo the least qualifying ratio, hb the greatest one below 1 and t the signal's skew |

## Left out

- Binary floating point is not modelled: every `.toNumber()` and `Number(...)` conversion, the plain-number operations in `calculateLeverage` (`1 / percent_p_expired`), `calculatePRefund` (`1 ± refund_ratio`) and `calculateQuantityFuture` (`Math.floor`, `Math.abs`), and Big.js's rounding of quotients to a fixed number of decimal places. The model uses exact reals, which the source's choice of a decimal library intends. The two test values agree with the exact rationals to every printed digit.
- Sort order: JavaScript's default `.sort()` compares numbers as strings. That agrees with numeric order only for plain decimals in [0, 10). `Sequences.Sort` is a numeric ascending sort, and the model assumes the samples are in that range. String comparison is not modelled.
- Clock and parsing: `calculateExpired` reads the wall clock and calls `parseInt`. `Expired` takes `now` and an integer `period` as parameters. A `period` that does not parse is not modelled.
- Exceptions: Big.js throws on division by zero and on `Big(undefined)`. These become preconditions, not error results:
  - a zero open price;
  - a zero move: Big.js throws when the system risk is divided by a zero stop ratio.
  - a zero hedge divisor;
  - a zero system risk above a negative ceiling;
  - an empty cut list on the BULL or BEAR side.
- The `./types` module is not part of this model. Side, signal and period unit are the model's own datatypes, each with a catch-all case (`OtherSide`, `OtherSignal`, `OtherUnit`) for values that are neither listed option. Their string values are not modelled.
- `QClaim` and `QuantityFuture` accept `hedge` and the stop/open prices in the same positions as the source. Where the source does not read a parameter, the model does not read it either.
- Constants that the engine never reads (`MIN_MARGIN`, `MAX_MARGIN`, `MIN_Q_COVER`, `MAX_Q_COVER`, `MIN_HEDGE_MARGIN_PER_Q_COVER`, `MAX_HEDGE_MARGIN_PER_Q_COVER`, `MIN_RATIO_CLAIM`, `FUTURE_DIFF_STOP`, `LIST_UNIT`) are not modelled. Neither are the fields `min_period` and `max_period`, which are set but never read.
- The test file's console output and its commented-out expectations are not modelled. Its two live expectations are `PStopExample` and `QClaimExample`.
- Leverage: `calculateLeverage` computes in plain numbers and returns Infinity for a zero ratio. `Leverage` excludes a zero ratio, and `calculateQClaim` throws on one before it reaches the leverage.
- StopDistanceLeverage: the division at src/InsuranceFormula.ts:137 is in plain numbers and gives Infinity for a zero move. `StopDistanceLeverage` excludes a zero move, and `calculateQuantityFuture` throws on one at the next step, when the capital is computed.
- DistancePClaim: its own contract states only the case of a side other than BULL or BEAR. The BULL and BEAR bound values are in `DistancePClaimBullValues` and `DistancePClaimBearValues`, and their order in `DistancePClaimBull` and `DistancePClaimBear`.
