# Sunspot dashboard: the data pipeline in Dafny

The sunspot dashboard reads the SIDC international sunspot number tables.
The daily file has 8 columns and the monthly file has 7. The dashboard
filters the table to a user-chosen window of years, months and (for daily
data) days, then derives the series behind three charts:

- a **counts chart**: the filtered table plus a trailing moving average of
  `Mean_Obs` (`rolling(W).mean()`);
- a **yearly bar chart**: `groupby(['Year']).mean()`, with one bar per year
  present, in ascending order;
- a **variability scatter**: every decimal date is folded modulo a cycle
  period, and only rows with a positive `Mean_Obs` are kept.

This project models that pipeline as pure functions on `seq<Record>` with
exact `real` arithmetic, and proves what each step promises.

Modules:

- `Frame` (frame.dfy) holds the table. It has the `Granularity` variant
  (`Days | Months`) with each variant's column layout, the `Record` row type
  (`day` is present only in the daily layout) and the `obs_periods` argument
  as `Option<Granularity>`, where `None` means the caller omitted it. It also
  models pandas boolean masks (`Mask`, `Select`), and `Staged` applies masks
  one statement at a time.
- `Sunspot` (sunspot.dfy) is `clean_sunspot_data`, written as the program
  writes it: one mask per statement. A lemma shows this equals a single
  conjunctive pass.
- `Rolling` is the trailing moving average. `RollingMean` is the reference
  definition. `RollingMeanOnline` is the sliding running-total algorithm,
  proved equal to it.
- `Yearly` is the group-by-year mean over every numeric column.
- `Cycle` has the cycle period `years + months/12 + days/365.25` and
  Python's float `%`, modelled as `x - floor(x/p)*p`, which takes the sign of
  the divisor.
- `Dashboard` has the data steps of the three callbacks: `CountsView`,
  `YearlyView` and `VariabilityView`.
- `Series` (sums, means, the subsequence relation) and `Wrappers` (`Option`)
  are helpers.

Behaviour of the program that the model keeps as it is:

- The variability callback calls `clean_sunspot_data` without `obs_periods`
  (sunspot_dashboard.py:289). So the day range never applies to the scatter
  plot, even for daily data. `VariabilityIgnoresDayRange` and
  `VariabilityKeepsOutOfRangeDay` state this.
- `rolling(0).mean()` gives an undefined value (NaN) at every position. The
  minimum number of observations defaults to the window size (0), and every
  window is empty. The smoothing slider's minimum and default are both 0
  (sunspot_dashboard.py:44). So by default the smoothed trace is empty,
  rather than equal to the raw series.
- A cycle period of zero is not rejected by the code. pandas would produce
  NaN dates. The sliders keep the period at 8 years or more, so the model
  only requires the period to be non-zero.
- The error-bar value is one global standard deviation, not a per-row or
  per-year one (sunspot_dashboard.py:175, 240). It is kept that way, and the
  model proves that every row carries the same value.

## Model

| member | source | states |
|---|---|---|
| Frame.Columns | sunspot.py:20-27 | the daily layout has 8 columns and includes Day; the monthly layout has 7 columns and no Day; both have Year, Month and Mean_Obs |
| Frame.Schema | sunspot.py:20-27 | the daily file is read exactly when obs_periods is Days; any other value, an omitted argument included, reads the monthly file |
| Frame.Select | sunspot.py:48-56 | a combined mask keeps exactly the rows that pass every mask: each kept row passes, each passing row is kept exactly as many times as it occurs in the input, no other row occurs, and the result is a subsequence of the input with the rows unchanged |
| Frame.Staged | sunspot.py:48-56 | re-indexing the table one mask per statement keeps every row that passes all the masks exactly as many times as it occurs in the input, and no other row |
| Frame.StagedIsSelect | sunspot.py:48-56 | re-indexing the table one mask per statement gives the same rows, in the same order, as one pass with all masks combined |
| Frame.SelectIdempotent | sunspot.py:48-56 | selecting again with the same masks changes nothing |
| Frame.SelectThenSelect | sunspot.py:48-52 | filtering by masks a and then by masks b is one filter by a followed by b |
| Sunspot.Clean | sunspot.py:31-58 | every kept row has its Year and Month in their closed ranges, and also its Day when the granularity is Days; every input row meeting all active ranges is kept, exactly as many times as it occurs in the input, and no other row occurs; the result is an order-preserving subsequence with rows unchanged |
| Sunspot.WindowIsMasks | sunspot.py:48-56 | passing the six (or four) masks is exactly lying in the year, month and, for Days only, day ranges |
| Sunspot.CleanIsOnePass | sunspot.py:48-56 | the filter equals one conjunctive pass; a row is dropped only if its year, its month, or (for Days) its day is out of range |
| Sunspot.CleanIdempotent | sunspot.py:48-56 | filtering an already filtered table with the same ranges returns it unchanged |
| Sunspot.CleanIgnoresDays | sunspot.py:54-56 | unless the granularity is Days, the day range has no effect on the result |
| Sunspot.CleanInvertedRange | sunspot.py:48-56 | a range with lo > hi in any active dimension yields the empty table, not an error |
| Sunspot.CleanKeepsWindow | sunspot.py:48-56 | a table entirely inside the window comes back unchanged |
| Sunspot.CleanConforms | sunspot.py:48-58 | filtering keeps the column layout: Day is present on every row exactly when the table is daily |
| Rolling.RollingMean | sunspot_dashboard.py:166 | the smoothed series is as long as the raw series; entry i is defined exactly when 0 < W <= i + 1; each defined entry times W is the total of the W raw values ending at i |
| Rolling.RollingMeanOnline | sunspot_dashboard.py:166 | the running-total sliding window gives, at every position, the mean of the W values ending there, or undefined when fewer than W are available |
| Rolling.RollingShape | sunspot_dashboard.py:165-166 | for W >= 1 the smoothed series has as many entries as the raw series; entries before W-1 are undefined; entry i is the mean of values i-W+1 to i |
| Rolling.RollingZeroWindow | sunspot_dashboard.py:44-45 | with the slider's default window 0, every smoothed entry is undefined |
| Rolling.RollingUnitWindow | sunspot_dashboard.py:166 | with W = 1 the smoothed series equals the raw series |
| Rolling.RollingNoLookAhead | sunspot_dashboard.py:166 | the average is trailing: appending later observations does not change any earlier entry |
| Rolling.RollingWithin | sunspot_dashboard.py:166 | every defined smoothed value lies within any bounds that hold for the raw values |
| Rolling.RollingExample | sunspot_dashboard.py:166 | raw 1,2,3,4,5 with W = 3 smooths to undefined, undefined, 2, 3, 4 |
| Series.MeanWithin | sunspot_dashboard.py:237 | an arithmetic mean is never below the smallest or above the largest value averaged |
| Yearly.Insert | sunspot_dashboard.py:237 | adding a key to a strictly ascending key list keeps it strictly ascending and adds exactly that key |
| Yearly.GroupKeys | sunspot_dashboard.py:237 | the group keys are the table's years, each once, in strictly ascending order |
| Yearly.Group | sunspot_dashboard.py:237 | a year's group is a subsequence of the table holding only rows of that year, each row of that year exactly as many times as it occurs in the table, and is non-empty for a year present in the table |
| Yearly.YearlyMeans | sunspot_dashboard.py:237 | one row per distinct year, strictly ascending; a year has a row exactly when it occurs in the input; each row holds, for every numeric column, the arithmetic mean over that year's rows |
| Yearly.YearlyMeanWithin | sunspot_dashboard.py:237 | each yearly mean lies within any bounds that hold for that year's rows |
| Yearly.YearlyExample | sunspot_dashboard.py:237 | years 2000, 2000, 2001 with counts 1, 3, 5 give exactly two rows: 2000 with 2 and 2001 with 5 |
| Cycle.CyclePeriod | sunspot_dashboard.py:292 | 5844 times the period is 5844 years + 487 months + 16 days, i.e. years + months/12 + days/365.25 exactly; with non-negative months and days the period is at least the whole years |
| Cycle.CyclePeriodInSliderRange | sunspot_dashboard.py:85-89 | under the sliders' bounds the period years + months/12 + days/365.25 lies in [8, 15), so it is positive |
| Cycle.PyMod | sunspot_dashboard.py:293 | Python's float % differs from x by a whole number of periods; it lies in [0, p) for positive p and in (p, 0] for negative p |
| Cycle.PyModUnique | sunspot_dashboard.py:293 | for positive p, the % result is the only value in [0, p) that is congruent to x |
| Cycle.PyModPeriodic | sunspot_dashboard.py:292-293 | dates a whole number of cycles apart fold onto the same point |
| Cycle.FoldExample | sunspot_dashboard.py:292-293 | decimal date 13.5 with an 11-year cycle folds to 2.5 |
| Cycle.FoldDates | sunspot_dashboard.py:293 | folding changes only Decimal_Date; each folded date is congruent to the original and, for a positive period, lies in [0, period) |
| Dashboard.CountsView | sunspot_dashboard.py:161-175 | the first trace is exactly the filtered table, because smoothing works on a copy; the smoothed copy has the same length; its Rolling_Avg is the moving average of Mean_Obs; with error bars every smoothed row carries the same single spread value, and no other column changes |
| Dashboard.CountsUnitWindow | sunspot_dashboard.py:165-166 | with a window of 1, every smoothed value is the raw Mean_Obs of the same row |
| Dashboard.YearlyView | sunspot_dashboard.py:235-240 | the bars are the yearly means of the filtered table; with error bars every bar carries the same single spread value, and no other column changes |
| Dashboard.YearlyViewYears | sunspot_dashboard.py:236-237 | bars are in strictly ascending year order, each inside the year range, one for each year that survives the filter and none for other years |
| Dashboard.VariabilityView | sunspot_dashboard.py:288-296 | the points are a subsequence of the folded table, filtered without the day range; each has a positive Mean_Obs; every folded row with a positive Mean_Obs is kept, exactly as many times as it occurs in the folded table, and no other row occurs |
| Dashboard.VariabilitySound | sunspot_dashboard.py:289-296 | every point lies in the year and month ranges, has a positive Mean_Obs, and under the sliders' bounds has its folded date in [0, period) |
| Dashboard.VariabilityComplete | sunspot_dashboard.py:289-296 | every table row in the year and month ranges with a positive Mean_Obs appears with its date folded, whatever its day |
| Dashboard.VariabilityIgnoresDayRange | sunspot_dashboard.py:289 | the day range has no effect on the scatter points, whatever the granularity |
| Dashboard.VariabilityKeepsOutOfRangeDay | sunspot_dashboard.py:162-296 | a daily row whose day is outside the day range is dropped from the counts chart but kept on the scatter plot |

## Left out

- File reading and header renaming (`pd.read_csv`, sunspot.py:20-27) are I/O. Each callback's table is a parameter. Only the choice of layout is modelled (`Columns`, `Schema`, `Conforms`). The loader's errors for a missing file, a wrong column count or a non-numeric cell are not modelled.
- Dash layout, sliders, dropdowns, callback wiring, figure building and trace styling (sunspot_dashboard.py:13-93, 168-206, 242-250, 299-303) are presentation. Slider bounds appear only where a property depends on them.
- `display_sun_image` (sunspot_dashboard.py:101-129) is a constant URL table with no data logic.
- `app.run_server` (sunspot_dashboard.py:306-312) is server plumbing.
- The value of the error-bar spread (`std()` at sunspot_dashboard.py:175 and 240) needs a square root and floating point. The callers pass it in as `spread`. The model proves only that the value is applied uniformly.
- IEEE floating point: means, the cycle period and `%` use exact `real` arithmetic. pandas' compensated summation in rolling means is not modelled either.
- NaN in the input columns is not modelled. Undefined rolling entries are `None`.
- Cycle.FoldDates: requires a non-zero period. pandas would give NaN dates for a zero period, but the sliders never produce one.
- Sunspot.Clean: requires every row to have a Day when the day filter is active. The program raises an attribute error on a table without a Day column; the model does not represent that error.
- Only the numeric columns that are plotted or averaged are aggregated: Month, Decimal_Date, Mean_Obs, Standard_Deviation and Observations. The yearly means of Day and of the provisional indicator are left out to keep `YearRow` small; they are computed the same way as the other columns, so nothing new would be proved about them.
