# Dashboard Regioni: the per-region data pipeline

This project models the data logic of a Dash dashboard of Italy's regional
COVID-19 figures (`app.py`). The dashboard reads the Civil Protection
dataset, which has one row per region and day. It builds a dropdown from
the distinct region names. For the selected region, every chart callback
takes that region's rows and runs `calculate_data` on a copy. The result
has twelve derived columns:

- 7-day means of intensive care, new positives, new deaths and
  hospitalised patients;
- daily increments of the cumulative deaths, people tested and swabs;
- the share of positives among the day's swabs and among the day's people
  tested, and their 3-day means;
- new positives normalised to a reference of 9000 swabs (`REF_TAMP`).

The logo callback maps a region to the path of its image.

Modules:

- `Series`: pandas column arithmetic. A column is `seq<Option<real>>`, and
  `None` stands for a missing value (NaN, or the infinity a division by
  zero yields). It covers `diff().fillna(x)`, `rolling(w).mean()` with the
  default `min_periods = w`, element-wise division and scaling, and the
  running total that undoes the differencing.
- `Table`: the rows, the region filter
  `df.loc[df['denominazione_regione'] == regione]`, and the region list
  `drop_duplicates().tolist()`.
- `Pipeline`: `calculate_data` in two forms.
  - `Calculate` is a pure specification, with one function per derived
    column.
  - `RegionFrame.CalculateData` updates a frame object in place, and is
    proved to add exactly those columns.
  - Lemmas state what each column holds in terms of the raw counts.
- `Dashboard`: the dropdown loop, the frame each chart callback builds,
  and the logo path with its inverse.

## Model

| member | source | states |
|---|---|---|
| Series.Diff | app.py:64 | row 0 keeps the raw value; row i > 0 is `x[i] - x[i-1]` when both entries are present, and otherwise the raw entry (what `fillna` puts back) |
| Series.SumOfDiffPrefix | app.py:64 | on a complete column, the increments up to row i add up to the cumulative value at row i |
| Series.DiffThenCumSum | app.py:64 | the running total of the increments gives back the cumulative column, so differencing loses nothing |
| Series.CumSumThenDiff | app.py:64 | differencing the running total of complete daily figures gives back those figures, the other half of the round trip |
| Series.RollingMean | app.py:73-77 | a trailing mean of width w is present exactly when rows `i-w+1..i` exist and are all present, and is then their sum over w |
| Series.RollingMeanDefined | app.py:73-77 | the same presence condition, stated row by row over the window |
| Series.RollingMeanOfConstant | app.py:76-77 | a constant column has that constant as its mean from row w-1 on, and no mean before |
| Series.RollingMeanWithinWindow | app.py:73-77 | a present mean lies between the smallest and largest entries of its window |
| Series.RollingMeanSlide | app.py:73-77 | moving one row on, the mean gains (entering - leaving) / w |
| Series.RollingMeanMissingSpreads | app.py:76-77 | a missing entry makes every mean whose window covers it missing |
| Series.Ratio | app.py:69-70 | the quotient is present exactly when both operands are present and the denominator is non-zero, and then times the denominator it gives the numerator |
| Series.RollingMeanOfScale | app.py:76-77 | scaling a column by a constant commutes with the rolling mean: the mean of `c * k` is `k` times the mean of `c`, missing exactly where it is |
| Table.FilterRegion | app.py:180 | the result holds exactly the rows of the selected region, and no more rows than the dataset |
| Table.FilterRegionAppend | app.py:180 | the filter distributes over concatenation, so it keeps the dataset's order and never reorders |
| Table.FilterRegionSingle | app.py:180 | one row is kept when it is of the region and dropped otherwise |
| Table.FilterRegionKeepsAll | app.py:180 | a dataset holding only the selected region comes back whole |
| Table.DropDuplicates | app.py:19 | no value repeats, and the values present are exactly those of the input |
| Table.DropDuplicatesKeepsFirstSeenOrder | app.py:19 | the values come out in the order of their first occurrence |
| Table.Regions | app.py:19 | the region list has no repeats, holds every row's region and only names that occur in the data, in the order of their first occurrence |
| Table.FilterRegionEmptyIffUnlisted | app.py:180 | a region has no rows exactly when it is not in the region list |
| Pipeline.Calculate | app.py:61-81 | every derived column has exactly one entry per row |
| Pipeline.RegionFrame.CalculateData | app.py:61-81 | the frame gains the twelve columns of `Calculate` on its rows, every other column is kept, and the rows are not touched |
| Pipeline.DiffOfCounts | app.py:64 | differencing a complete count column gives the day's increment (row 0: the count itself) |
| Pipeline.DiffColumnsAreDailyIncrements | app.py:64-68 | `nuovi_decessi`, `delta_casi_testati` and `incr_tamponi` are the daily increments of deaths, people tested and swabs |
| Pipeline.NewDeathsExample | app.py:64 | cumulative deaths `[5, 5, 7, 7, 10]` give new deaths `[5, 0, 2, 0, 3]` |
| Pipeline.PercentOfCounts | app.py:69-70 | `num / diff(cum) * 100` on a row is missing when the increment is 0, and otherwise that quotient |
| Pipeline.PercentPositive | app.py:69-70 | each positive percentage is `100 * nuovi_positivi` over that day's swabs (people tested), and is missing on a day with none |
| Pipeline.NormalisedCases | app.py:80 | `nuovi_casi_norm` is `nuovi_positivi * 9000 / incr_tamponi` (REF_TAMP, app.py:14); it is missing exactly when the swab percentage is, and otherwise is 90 times it |
| Pipeline.CountAverage | app.py:73 | the 7-day mean of a complete count column (here `nuovi_positivi`; the same holds for lines 63 and 75) starts on the seventh row, and is the sum of the last seven counts over seven |
| Pipeline.CountAverages | app.py:63 | the above for intensive care (line 63), new positives (line 73) and hospitalised patients (line 75) |
| Pipeline.IncrementAverage | app.py:74 | the 7-day mean of daily increments telescopes to (c[i] - c[i-7]) / 7, or c[6] / 7 on the seventh row |
| Pipeline.NewDeathsAverage | app.py:74 | `nuovi_decessi_avg` is the growth of cumulative deaths over the last seven rows over seven, and is missing on the first six rows |
| Pipeline.PercentAverage | app.py:76-77 | the 3-day mean of a percentage is present exactly from the third row on, on rows whose window has a non-zero increment on each day |
| Pipeline.PercentAverages | app.py:76-77 | the above for `perc_positivi_tamponi_avg` and `perc_positivi_test_avg` |
| Pipeline.PercentAverageIsScaledRatioAverage | app.py:76-77 | each percentage's 3-day mean is 100 times the 3-day mean of the plain ratio of positives to the day's swabs (people tested) |
| Pipeline.TenPercentDay | app.py:69 | a day with 100 positives over 1000 new swabs has a positive percentage of 10 |
| Pipeline.ConstantPositivityExample | app.py:69-76 | 100 positives a day over 1000 new swabs a day give 10 on every row, and a 3-day mean of 10 from the third row on |
| Pipeline.ZeroSwabDay | app.py:69-80 | a day without new swabs has no percentage and no normalised count, and nor does any 3-day mean covering it |
| Dashboard.GetDropdownData | app.py:84-88 | one option per region, in the list's order, whose label and value are both the region name |
| Dashboard.DropdownOffersEachRegionOnce | app.py:84-88 | built from the region list, the dropdown offers every region with a row, each exactly once |
| Dashboard.RegionFrameFor | app.py:180-181 | a chart callback's frame is a fresh object holding the selected region's rows plus the derived columns of those rows |
| Dashboard.UnlistedRegionHasEmptyColumns | app.py:180-181 | a region not in the list gets no rows and all-empty derived columns |
| Dashboard.UpdateLogo | app.py:318-320 | the logo path starts with `assets/img/`, ends with `.png`, and has the region name in between |
| Dashboard.LogoRegion | app.py:319 | reads the region back from a logo-shaped path, and the name has the path's length minus the fixed parts |
| Dashboard.LogoRegionOfUpdateLogo | app.py:319 | the region can be read back from its logo path |
| Dashboard.UpdateLogoOfLogoRegion | app.py:319 | every logo-shaped path is the logo of the region read from it |
| Dashboard.UpdateLogoInjective | app.py:319 | different regions get different logo paths |

## Left out

- Download of the CSV and its reload before each chart (app.py:17, 56-58). These are network I/O plus reassignment of a module global. The dataset is a parameter of `Dashboard.RegionFrameFor`.
- The region list is a parameter of `Dashboard.GetDropdownData`. The source computes it once, at start-up, from the first download. That later reloads never refresh it is not modelled.
- The Dash application, layout, callback wiring, server start, chart figures, `chart_config` and `slider_button`. They are presentation only, with no logic to verify.
- `date.today()` in a chart's axis range (app.py:13, 225). It depends on the wall clock.
- Floating point. Values are exact reals, so no rounding is modelled. NaN, `+inf` and `-inf` are one "missing" value. In particular, `x / 0` with x non-zero is an infinity in pandas but missing here.
- Each rolling window is computed on its own. Any effect of pandas' running-sum implementation, for example of an infinity that has already left the window, is not modelled.
- The raw CSV columns are complete integer counts. `Series.Diff` does model `fillna` on columns with gaps. Only the columns `calculate_data` reads are kept in `Table.Row`; the other CSV columns are dropped.
- pandas index labels. The filtered frame keeps the dataset's labels, but `diff` and `rolling` work by position, so rows are positional here.
- Pipeline.RegionFrame.CalculateData computes the twelve columns in source order, reading earlier ones back, but in a local map. It then stores them into the frame in one assignment. The intermediate frames between two assignments are not observable and are not modelled.
- The names of the derived columns form a closed enumeration (`Pipeline.ColumnName`, with the pandas label in `Label`). A frame holds no other derived columns.
