# Factor portfolio simulator — Dafny model

This project models the core of a monthly factor-portfolio simulator. The
simulator walks month by month from a start period to an end period. Periods
are integers `yyyymm`. Each month is one of two kinds:

- a REBALANCE month. The month distance from the start is a multiple of the
  rebalance frequency. The universe is joined with the return, size and
  factor tables, and each instrument is put into one of six buckets (small/big
  by size, S/M/L by factor). Each instrument is weighted by `|size|` divided by
  its bucket's total.
- a CARRY month. The previous month's holdings are kept. Instruments without a
  return this month are dropped, and the weights are renormalised within each
  bucket.

Either way, the month then reports each bucket's contribution (the sum of
`weight * return`, the `DW` column). It then compounds every weight by
`1 + return` and renormalises within each bucket. That table is carried into
the next month.

The project has three modules:

- `Calendar` (`calendar.dfy`): period arithmetic and the rebalance test.
  `AddMonthToYm` is the source's carry/borrow loop, proved equal to the
  closed form `AddMonths`. `IsRebalanceTiming` is proved equal to the source's
  `diff % frequency == 0`.
- `Portfolio` (`portfolio.dfy`): the weight engine. A holdings table is a
  sequence of `Holding(code, bucket, weight)` rows in row order. Weights are
  `real`. It defines the per-bucket sum-and-divide, the rebalance, the carry,
  the contribution report and the drift.
- `Simulation` (`simulation.dfy`): the driver loop. `Step` is one pass of the
  loop body, and `RunFrom`/`Run` is the whole loop as a function. `Simulate`
  is the imperative `while` loop, proved to produce exactly `Run`'s reports
  and final table. The data readers are replaced by a `Provider`, a function
  from a period to that period's data.

## Model

| member | source | states |
|---|---|---|
| Calendar.AddMonths | src/main.py:10-25 | the shifted period has a month in 1..12 and its month index (`yyyy * 12 + mm`) is the original's plus `n`, for any `n` |
| Calendar.AddMonthToYm | src/main.py:10-25 | the carry/borrow loop terminates and returns `AddMonths(target, addMonths)` for every input, including negative shifts and month parts 0 or 13..99 |
| Calendar.DiffMonths | src/main.py:28-31 | adding the difference to `fromYm` lands on `toYm` whenever `toYm` has a calendar month |
| Calendar.DiffAfterAdd | src/main.py:28-31 | round trip: the difference between `p` and `AddMonths(p, n)` is `n` |
| Calendar.AddMonthsTwice | src/main.py:10-25 | shifting by `m` and then by `n` is shifting by `m + n` |
| Calendar.NextMonthIsLater | src/main.py:198 | advancing the loop clock by one month gives a strictly larger integer, so the driver loop terminates |
| Calendar.NextMonthDistance | src/main.py:102 | from a month up to a later end month, one step shortens the distance by one, and passes the end only when it started on it |
| Calendar.RebalanceTimingIsModulo | src/main.py:34-40 | the rebalance predicate holds exactly when `DiffMonths(start, current) % frequency == 0`, for any non-zero frequency |
| Calendar.MultipleOfIsModulo | src/main.py:40 | counting down by `Abs(f)` from `Abs(d)` reaches 0 exactly when `d % f == 0` (negative `d` and `f` included) |
| Calendar.AnchorIsRebalance | src/main.py:34-40 | the start period is always a rebalance period |
| Calendar.RebalanceAfter | src/main.py:34-40 | `k` months after the start rebalances exactly when `k % frequency == 0` |
| Calendar.RebalancePeriodic | src/main.py:34-40 | rebalance timing repeats every `frequency` months |
| Portfolio.Normalize | src/main.py:189-195 | codes and buckets stay in place, each weight becomes its share of its bucket's total, and every non-empty bucket then sums to 1 |
| Portfolio.NormalizeIdempotent | src/main.py:171-177 | renormalising a table whose buckets already sum to 1 returns the same table |
| Portfolio.NormalizeKeepsSummedBucket | src/main.py:171-177 | renormalising leaves every row of a bucket that already sums to 1 exactly as it was, whatever happens to the other buckets |
| Portfolio.NormalizeTwice | src/main.py:189-195 | normalising twice is normalising once |
| Portfolio.NormalizeKeepsValid | src/main.py:189-195 | normalising distinct-code, positive-weight rows gives a valid state with the same codes |
| Portfolio.SharesKeepRatios | src/main.py:152-158 | within a bucket, normalising keeps the ratio between any two weights |
| Portfolio.JoinedCodes | src/main.py:120-137 | the inner joins plus `dropna` keep exactly the universe codes that have a return, a size and a factor and without repeats |
| Portfolio.ProxiesFacts | src/main.py:149-151 | the market-value rows of a rebalance period have distinct codes and positive weights, and cover exactly the joined instruments |
| Portfolio.Rebalance | src/main.py:120-158 | a rebalance gives a valid state (distinct codes, positive weights, every bucket summing to 1) over joined, labelled instruments |
| Portfolio.RebalanceHoldings | src/main.py:148-158 | a rebalance holds exactly the joined instruments, each in its quantile bucket, and its weight is its market value divided by its bucket's positive total |
| Portfolio.Survivors | src/main.py:165-170 | the left merge plus `dropna` keeps a holding, unchanged, exactly when its code has a return |
| Portfolio.Carry | src/main.py:162-177 | a carry gives a valid state in which every row has a return |
| Portfolio.CarryHoldings | src/main.py:165-177 | a carry holds exactly the held codes that have a return, each in the bucket it was held in |
| Portfolio.CarryKeepsPricedBucket | src/main.py:165-177 | a bucket none of whose held instruments lacks a return keeps exactly its rows, weights included, through a carry, even when other buckets lose instruments |
| Portfolio.SurvivorsGroupSum | src/main.py:165-170 | dropping rows only outside bucket `b` keeps the bucket's total |
| Portfolio.CarryWithoutGaps | src/main.py:165-177 | when every held instrument has a return, a carry leaves the state unchanged |
| Portfolio.DriftPositive | src/main.py:185-187 | compounding by `1 + return` keeps every weight positive when returns are above -100%, so no bucket total becomes 0 |
| Portfolio.DriftGroupSum | src/main.py:180-187 | a bucket's compounded total is its old total plus its `DW` sum |
| Portfolio.Contribution | src/main.py:180-183 | the report has one entry for each of the six buckets |
| Portfolio.ContributionOfEmptyBucket | src/main.py:183 | a bucket that holds no row is still reported, with contribution 0 |
| Portfolio.EmptyGroupReturn | src/main.py:180-183 | a bucket with no rows has a `DW` sum of 0 |
| Portfolio.ContributionIsBucketReturn | src/main.py:180-187 | for a normalised table, `1 +` a held bucket's reported contribution equals that bucket's compounded total |
| Portfolio.DriftStep | src/main.py:185-195 | compounding then renormalising keeps the state valid |
| Portfolio.DriftStepLaw | src/main.py:185-195 | drift law: codes and buckets stay in place, `1 + R > 0`, and each new weight is `w * (1 + r) / (1 + R)`, where `R` is the bucket's contribution |
| Portfolio.DriftLaw | src/main.py:185-195 | the drift law for one row of a normalised positive table |
| Simulation.Step | src/main.py:104-195 | one loop pass reports its period and whether it rebalanced, and leaves a valid table |
| Simulation.StepHoldings | src/main.py:105-177 | the report covers all six buckets; a rebalance month holds exactly the joined instruments; a carry month holds exactly the held instruments with a return, each in its old bucket |
| Simulation.RunFrom | src/main.py:101-198 | the loop from any month keeps the table valid, and reports at least one month when it starts no later than the end |
| Simulation.Run | src/main.py:101-102 | nothing is reported and no table exists when `fromYm > toYm`; otherwise the run ends with a valid table |
| Simulation.Simulate | src/main.py:101-198 | the `while` loop's reports and final table are exactly `Run`'s |
| Simulation.LoopStep | src/main.py:102-198 | one loop iteration moves one month's report from the rest of the run onto the reports already produced |
| Simulation.RunFromLength | src/main.py:102 | from a calendar month, the loop runs `DiffMonths(current, toYm) + 1` times up to the end month, and not at all past it |
| Simulation.RunFromVisits | src/main.py:101-198 | report `k` is for the month `k` months after the first month, and is flagged with the rebalance predicate of that month |
| Simulation.RunShape | src/main.py:101-109 | a run reports `DiffMonths(fromYm, toYm) + 1` months in order, none when `fromYm > toYm`; month `k` rebalances exactly when `k % frequency == 0` |
| Simulation.MonthlyScenario | src/main.py:101-109 | January to March with frequency 1: three reports, for months 1, 2 and 3, all rebalances |
| Simulation.QuarterlyScenario | src/main.py:101-109 | January to April with frequency 3: four reports; January and April rebalance, February and March carry |

## Left out

- The data readers (`read_universe`, `read_future_return`, `read_factor`, lines 43-87) are random generators. They are replaced by the `Provider` input.
- The click command-line parsing and the console `print`s are left out. What is printed is modelled by `Report`: the period, the rebalance flag, and the per-bucket `DW` sums.
- A factor name that clashes with another column makes the rebalance crash in the source, and the model does not capture this. With `size`, the factor merge at lines 130-134 renames the two columns to `size_x`/`size_y`, so the lookup of `size` at line 139 raises `KeyError`. With `DRTNF1`, the lookup at lines 142-143 fails the same way. The model reads the size and the factor from separate maps, so on that input it rebalances normally.
- The quantile split (`pd.qcut`, lines 136-147) is not modelled. The bucket of each instrument is an input map, and it is required to label every joined instrument.
- The `STOCK_FLG` join key is always empty in the source, so joins are keyed on the instrument code alone. The extra `size`, factor and `DRTNF1` columns are read from the period's maps rather than carried as table columns.
- Floating point is modelled as exact `real` arithmetic. Rounding, and sums that are only approximately 1, are not modelled.
- A bucket whose total weight is 0 would give NaN weights in the source. The model rules it out instead, by requiring non-zero sizes and returns above -100% (`DataOk`).
- A frequency of 0 makes the source's `%` raise `ZeroDivisionError`, so the model requires `frequency != 0`. A negative frequency is accepted, because the code does not validate the frequency.
- The code does not validate the order of the end points. With an end period before the start period the loop does not run, and `Run` gives no reports.
- A carry month without a previous table cannot happen, because the start month always rebalances. `Step` therefore requires a table on carry months.
- Simulation.RunShape: the visit count `DiffMonths + 1` is stated for start and end periods whose month part is 1..12. For other month parts the source's clock still advances and the loop still terminates (`Calendar.NextMonthIsLater`), but the count differs.
- Calendar.IsRebalanceTiming: divisibility is defined by counting down in steps of the frequency, and `Calendar.RebalanceTimingIsModulo` proves it equal to the source's remainder test.
- Simulation.MonthlyScenario and Simulation.QuarterlyScenario are stated for every year rather than only for 2020.
