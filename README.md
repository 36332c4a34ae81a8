# Rental-delay analytics of the Getaround dashboard, in Dafny

This project models the analytics core of the Getaround rental-delay
dashboard (`Streamlit_dashboard/app.py`): the computations that turn the
rental-delay table into the figures the dashboard shows. It has two parts.

- **Late-return analysis** (module `DelayAnalysis`). It keeps the rentals whose
  checkout delay and buffer before the next rental are both recorded. Among
  them it takes the late returns (delay > 0). Among those it takes the
  conflicts (delay larger than the buffer). It counts all three and computes
  the two shares shown beside the counts. It also models the interquartile
  outlier filter applied to the late returns, with the quartiles as inputs.
- **Threshold impact calculator** (module `ThresholdImpact`), `calculate_scope_data`.
  It keeps the rentals that follow a previous rental and have a recorded
  buffer and delay. It restricts them to a scope: all cars, or connected
  check-ins only. For a minimum buffer `threshold` it then counts:
  - the rentals the threshold would affect (buffer < threshold);
  - the conflicts it would have avoided ("saved");
  - the revenue at risk, estimated from the mean daily price of each
    check-in category;
  - the share of revenue at risk, the percentage of affected rentals saved,
    and an efficiency score.

Layout:

- `masks.dfy` (module `Masks`) holds `Select`, the data frame's `df[mask]`
  over a sequence of rows, and the lemmas about it: partition, commutation,
  monotonicity. A `.shape[0]` count is the length of a selection.
- `rentals.dfy` (module `Rentals`) holds the row type and the row-wise tests.
  A missing cell is `None`. Every ordering comparison (`<`, `>`) that
  involves a missing cell is false, as with a missing value in a data frame.
- `delay_analysis.dfy` and `threshold_impact.dfy` hold the two parts.
- `scenarios.dfy` holds worked examples on one- and zero-row tables.

The calculator is split into two layers. `CountScope` gives the row counts.
`Measure` gives the revenue figures and ratios from those counts, the two
prices and the value credited per saved rental, and `Report` picks the six
figures the dashboard shows. `CalculateScopeData` composes them, with the
scope's value: 120.7 for all cars, 132 for connected cars
only. The lemmas about the real-valued figures are stated on `Measure`. They
need only the relations between the counts that `CountsConsistent` proves for
every table, scope and threshold.

`DelayAnalysis.ShareDelays` takes the three counts and requires them to be
nested. `CountDelays` guarantees this for every table.

Modelling choices that follow the code:

- The scope is the string the dashboard passes. `"Toutes les voitures"` keeps
  all cars; any other string keeps connected check-ins only. It is not a
  two-valued enumeration.
- The threshold is not validated. A zero or negative threshold affects no
  rental with a non-negative buffer. It does not raise an error.
- `CalculateScopeData` takes the raw table and applies the module-level filter
  of lines 303-307 before the body of lines 321-362. In `app.py` that filter
  runs once at module level and `calculate_scope_data` reads the filtered
  global `df_valid`; the computed figures are the same.
- The two shares of the late-return analysis are not guarded. The model
  returns `Failure(ZeroDivisionError)` where the dashboard would raise.

## Model

| member | source | states |
|---|---|---|
| Masks.Select | Streamlit_dashboard/app.py:143-144 | A boolean-mask selection keeps exactly the rows on which the mask holds, each as many times as it occurs in the table, in their original order. It has at most as many rows as the table. |
| Masks.SelectPartition | Streamlit_dashboard/app.py:330-331 | A mask and its negation (`== "connect"` and `!= "connect"`) split a table: their two counts add up to the table's row count. |
| Masks.SelectCommutes | Streamlit_dashboard/app.py:343-346 | Filtering by one mask and then another selects the same rows in either order. |
| Masks.SelectMonotone | Streamlit_dashboard/app.py:335 | A mask that holds wherever another holds never selects fewer rows. |
| DelayAnalysis.ValidRentals | Streamlit_dashboard/app.py:137-140 | The valid rentals are exactly the rows with both a delay and a buffer recorded, each with its multiplicity in the table. |
| DelayAnalysis.DelayedRentals | Streamlit_dashboard/app.py:143 | The late returns are exactly the valid rentals with a delay strictly above zero, each with its multiplicity in the table. |
| DelayAnalysis.Conflicts | Streamlit_dashboard/app.py:149-152 | The conflicts are exactly the late returns whose delay exceeds their buffer, each with its multiplicity in the table. Every conflict has a recorded delay above zero and above its recorded buffer. |
| DelayAnalysis.CountDelays | Streamlit_dashboard/app.py:137-153 | Conflicts are at most the late returns, which are at most the valid rentals, which are at most the table's rows. |
| DelayAnalysis.PieSlicesPartition | Streamlit_dashboard/app.py:184-197 | The pie-chart complements count real rows. `total_rentals - total_delayed` is the number of valid rentals not late. `total_delayed - total_conflicts` is the number of late returns without a conflict. |
| DelayAnalysis.ShareDelays | Streamlit_dashboard/app.py:142-154 | The unguarded divisions fail exactly when no valid rental was late. Otherwise the delay share is in (0, 1], the conflict share is in [0, 1], and each share times its denominator gives back its numerator. |
| DelayAnalysis.FilterOutliersIqr | Streamlit_dashboard/app.py:211-217 | For given quartiles, the result is the rows whose value lies between Q1 - 1.5 IQR and Q3 + 1.5 IQR (bounds included), in original order and each with its multiplicity in the table. Rows with a missing value are dropped. |
| DelayAnalysis.InterquartileRowsKept | Streamlit_dashboard/app.py:214-217 | With Q1 <= Q3 the filter keeps every row whose value lies between the quartiles. |
| ThresholdImpact.CompleteRentals | Streamlit_dashboard/app.py:303-307 | The rows the calculator works on are exactly the rows that follow a previous rental and have a recorded buffer and delay, each with its multiplicity in the table. |
| ThresholdImpact.ScopeRentals | Streamlit_dashboard/app.py:322-327 | The all-cars label keeps every complete row. Any other label keeps exactly the connected check-ins, each with its multiplicity. |
| ThresholdImpact.Affected | Streamlit_dashboard/app.py:335 | The affected rentals are exactly the scope's rentals whose buffer is below the threshold, each with its multiplicity. |
| ThresholdImpact.Saved | Streamlit_dashboard/app.py:343-346 | The saved rentals are exactly the scope's rentals whose delay exceeds their buffer (the conflict cases) and whose buffer is below the threshold, each with its multiplicity. |
| ThresholdImpact.ConflictCases | Streamlit_dashboard/app.py:343-345 | The conflict cases are exactly the scope's rentals whose delay exceeds their buffer, each with its multiplicity. |
| ThresholdImpact.CountScope | Streamlit_dashboard/app.py:329-347 | (By definition, the seven counts are the lengths of the scope's selections `Affected`, `ConflictCases` and `Saved`.) No count exceeds the table's rows or the scope's rentals. The affected rentals of each category are at most the affected total, and no category has more rentals than the scope. |
| ThresholdImpact.Measure | Streamlit_dashboard/app.py:332-352 | (By definition, revenue is the price-weighted count of `Revenue`; `CalculateScopeData` passes the scope's `ScopeValue` of lines 324/327 as the value per saved rental.) The guards of lines 340, 348 and 352: the revenue share is 0 without positive revenue, the saved percentage is 0 without affected rentals, and the efficiency is 0 without revenue at risk. Without affected rentals there is no revenue at risk, and without saved rentals no benefit. |
| ThresholdImpact.Report | Streamlit_dashboard/app.py:354-362 | From counts that satisfy the relations of every table, the report carries the affected and saved counts. No more rentals are saved than affected, nothing affected gives an all-zero report, and with non-negative prices and value both percentages lie in [0, 100] and the loss and efficiency are non-negative. |
| ThresholdImpact.CalculateScopeData | Streamlit_dashboard/app.py:321-362 | For any prices, no more rentals are saved than affected. A threshold that affects no rental gives an all-zero report. With non-negative prices both percentages lie in [0, 100], and the revenue loss and efficiency are non-negative. |
| ThresholdImpact.SavedWithinAffected | Streamlit_dashboard/app.py:335-347 | Every saved rental is an affected rental. `saved_count <= affected_total <= total_rentals`. |
| ThresholdImpact.CheckinPartition | Streamlit_dashboard/app.py:329-338 | `total_connect + total_non_connect == total_rentals` and `affected_connect + affected_non_connect == affected_total`. |
| ThresholdImpact.AffectedCategoriesWithinScope | Streamlit_dashboard/app.py:330-337 | In each check-in category, affected rentals are at most the scope's rentals. |
| ThresholdImpact.CountsConsistent | Streamlit_dashboard/app.py:329-347 | The counts of every scope and threshold satisfy the partition and subset relations together. |
| ThresholdImpact.ConnectScopeHasOnlyConnect | Streamlit_dashboard/app.py:322-337 | For any scope label other than all cars, every kept row is complete and connected. So `total_non_connect == 0`, `affected_non_connect == 0`, and the connected counts equal the totals. |
| ThresholdImpact.RevenueShareGuarded | Streamlit_dashboard/app.py:332-340 | The revenue share is 0 when the scope's revenue is not positive. Otherwise, times the scope's revenue, it gives back the revenue at risk. |
| ThresholdImpact.SavedPctGuarded | Streamlit_dashboard/app.py:346-348 | The saved percentage is 0 when no rental is affected. Otherwise, times the affected count, it gives back 100 times the saved count. |
| ThresholdImpact.EfficiencyGuarded | Streamlit_dashboard/app.py:350-352 | The estimated benefit is the saved count times the value per saved rental. The efficiency is 0 when no revenue is at risk. Otherwise, times the revenue at risk, it gives back 100 times the benefit. |
| ThresholdImpact.MetricBounds | Streamlit_dashboard/app.py:332-352 | With non-negative prices, `0 <= affected_revenue <= total_revenue`, `0 <= revenue_share <= 1`, `0 <= saved_pct <= 100`, and the benefit and efficiency are non-negative. |
| ThresholdImpact.RevenueMonotone | Streamlit_dashboard/app.py:332-339 | With non-negative prices, the revenue proxy never decreases when either category count grows. |
| ThresholdImpact.ThresholdMonotone | Streamlit_dashboard/app.py:335-347 | Raising the threshold never decreases the affected count (in total and per category) or the saved count. With non-negative prices it never decreases the revenue at risk. |
| ThresholdImpact.ScopesNested | Streamlit_dashboard/app.py:321-366 | The connected-only scope's rentals and affected rentals number the all-cars scope's connected ones. It saves no more rentals than the all-cars scope. |
| ThresholdImpact.SavedAreDelayConflicts | Streamlit_dashboard/app.py:343-346 | With non-negative buffers, a saved rental is exactly a conflict of the late-return analysis (lines 149-152) that is complete, in scope, and has a buffer below the threshold. |
| Scenarios.EmptyTableReport | Streamlit_dashboard/app.py:321-362 | An empty table gives an all-zero report for every scope, threshold and price. |
| Scenarios.ThirtyMinutesSavesTheConflict | Streamlit_dashboard/app.py:321-362 | Setup: one phone check-in with a 20-minute buffer and 25 minutes late, threshold 30, all cars. Result: 1 affected, 1 saved, 100 % saved, 100 % of revenue at risk, 100 at risk, efficiency 120.7. |
| Scenarios.TenMinutesAffectsNothing | Streamlit_dashboard/app.py:335-352 | The same rental under a 10-minute threshold gives an all-zero report. |
| Scenarios.ConnectScopeDropsMobileRental | Streamlit_dashboard/app.py:325-331 | The connected-only scope drops a phone check-in whatever its buffer and delay. Every count is zero. |

## Left out

- Loading the two datasets from remote CSV/Excel files and reading the style sheet (lines 16-20, 39-48): I/O and foreign library calls.
- Every widget, chart and markdown block, including the revenue-by-connect pie (lines 83-127) and the plots of the results (lines 373-405): presentation only.
- The quartiles in the outlier filter (lines 212-213) are taken as inputs. Computing them interpolates over floats.
- The mean, median and maximum delay statistics (lines 238-240) are not modelled. They are float statistics shown as text.
- The two mean daily prices (lines 298-300) are taken as inputs. Computing them is a group-by mean over the pricing table.
- The display rounding of the report (lines 357-360) is not modelled. The report holds the unrounded values.
- Floating point: delays, buffers and prices are exact reals, and 120.7 is exact. Float rounding and NaN prices are not modelled.
- Columns of the rental table that the core never reads (rental and car identifiers, rental state) are not modelled.
- The prediction API (`API/app.py`) and the training script (`MLflow/train.py`) are not part of this model. They are an HTTP endpoint around an external model and a library training pipeline.
