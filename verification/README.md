# Automobile sales dashboard — model of the selection and aggregation core

This project models, in Dafny, the decision logic of the Dash automobile sales
dashboard in `dashApp.py`:

- `toggle_year_dropdown`: the year selector is disabled unless the report
  type is "Yearly Statistics".
- `update_graphs`: three outcomes.
  - "Recession Period Statistics" gives four views computed from the rows
    with `Recession == 1`.
  - "Yearly Statistics" with a year gives four views. Two cover the whole
    table. Two cover the rows of that year and have the year in their titles.
  - Anything else gives the placeholder message.
- The pandas work behind each view: filter by a row predicate, then
  `groupby` one or two columns, then take the per-group mean or sum of a
  numeric column.

The sales table is a `seq<Record>` already in memory. Numbers are exact
`real`s. A view is plain data: a title, a chart kind (line, bar, pie,
scatter), the grouping columns, the aggregations and the table rows. There
are no Plotly objects.

Modules:

- `KeyOrder` (`key_order.dfy`): the order pandas sorts group keys in.
  Integer columns sort numerically. String columns sort the way Python
  compares `str` values, code point by code point. Pairs of columns sort
  lexicographically. The module proves this is a strict total order, and
  `Insert` keeps a key list strictly ascending.
- `Records` (`records.dfy`): the row datatype, the grouping columns, the
  numeric fields, `data[mask]` filtering and column totals.
- `GroupBy` (`group_by.dfy`): `groupby(...).agg(...).reset_index()`. It
  emits the sorted distinct keys, one row per key. Each row holds the mean
  or sum over that key's group, and every group is non-empty.
- `Decimal` (`decimal.dfy`): `str(year)` as used in the f-string titles,
  with a parser that reads it back.
- `Dashboard` (`dashboard.dfy`): the two callbacks and the view-level
  properties.
- `SampleReports` (`sample_reports.dfy`): worked reports over a three-row
  table.

Two behaviours of the code worth knowing:

- Ordering. Month rows and vehicle-type rows come out in pandas' sorted
  order, which for these columns is string order. Calendar order is not
  implemented. `SampleReports.YearlyMonthSample` shows the effect: February's
  row comes before January's.
- Year check. The yearly branch runs only when `year` is truthy in Python.
  That excludes a missing year and also the year `0`.

Both callbacks are stateless functions of the two dropdown values.

## Model

| member | source | states |
|---|---|---|
| Dashboard.YearSelectorDisabledIffYearIgnored | dashApp.py:56-57 | The year selector is disabled exactly when the report does not depend on the year. This includes when nothing is selected. For "Yearly Statistics", some two years give different reports. |
| Dashboard.NothingSelected | dashApp.py:130-131 | With no report type selected, the year selector is disabled and the output is the placeholder message, whatever the year. |
| Dashboard.UpdateGraphs | dashApp.py:65-131 | The output is a report exactly when the type is "Recession Period Statistics", or "Yearly Statistics" with a truthy year. Otherwise it is the placeholder message. A report always has four views. |
| Dashboard.RecessionViews | dashApp.py:70-97 | The recession report has four views in the fixed order line, bar, pie, scatter. |
| Dashboard.YearlyViews | dashApp.py:103-128 | The yearly report has four views in the fixed order line, line, bar, pie. |
| Dashboard.RecessionIgnoresYear | dashApp.py:66-97 | The recession report is the same for every year value, including a stale one. |
| Dashboard.RecessionReportDependsOnlyOnRecessionRows | dashApp.py:67 | Two tables with the same recession rows give the same recession report. |
| Dashboard.RemovingNonRecessionRowsKeepsReport | dashApp.py:67-87 | Deleting every row with `Recession != 1` leaves the recession report unchanged. |
| Dashboard.AddingNonRecessionRowsKeepsReport | dashApp.py:67-87 | Appending rows with `Recession != 1` leaves the recession report unchanged. |
| Dashboard.RecessionValuesComeFromRecessionRows | dashApp.py:67-90 | Every value in a recession view aggregates a non-empty group. Every row in that group is a table row with `Recession == 1`. |
| Dashboard.RecessionPieConservesExpenditure | dashApp.py:82 | The recession pie's per-vehicle-type sums add up to the total advertising expenditure of the recession rows. |
| Dashboard.YearlyOverviewIgnoresYear | dashApp.py:103-110 | Yearly views 1 and 2 are identical for every selected year. View 1 is the per-year mean over the whole table. |
| Dashboard.YearlyDetailDependsOnlyOnThatYear | dashApp.py:100-121 | Two tables with the same rows for the selected year give the same yearly views 3 and 4. |
| Dashboard.YearlyDetailValuesComeFromThatYear | dashApp.py:100-121 | Every value in yearly views 3 and 4 aggregates a non-empty group. Every row in that group has the selected year. |
| Dashboard.YearlyTitlesEmbedYear | dashApp.py:116-121 | The titles of yearly views 3 and 4 end with the selected year's decimal text, and parsing that text gives back the year. |
| Dashboard.YearlyPieConservesExpenditure | dashApp.py:119 | The yearly pie's per-vehicle-type sums add up to the total advertising expenditure of the selected year's rows. |
| Dashboard.PieSharesNonNegative | dashApp.py:82-84 | If no advertising expenditure is negative, then no pie share is negative, in either report. |
| GroupBy.GroupAggregate | dashApp.py:103 | A group-by table has at most as many rows as its input. An empty input gives an empty table. |
| GroupBy.GroupAggregateKeys | dashApp.py:70 | The table's keys are strictly ascending, so no key repeats. They are exactly the keys present in the input, so there is one row per distinct key. |
| GroupBy.GroupAggregateRow | dashApp.py:87 | Each row's group is non-empty, and every member of it is an input row with that row's key. `GroupBy.GroupCounts` adds that every such input row is there exactly as often as in the input. Each value is that group's mean (sum divided by count) or sum. |
| GroupBy.GroupCounts | dashApp.py:70 | A key's group holds each input row with that key exactly as many times as it occurs in the input, and no other row. So the count that a mean divides by is the number of such rows. |
| GroupBy.SortedKeysMembers | dashApp.py:75 | The sorted key list holds exactly the keys (or key pairs) that occur in the input. |
| GroupBy.SumTableConservesTotal | dashApp.py:82 | The per-group sums add up to the column total of the input. Each row is counted exactly once. |
| GroupBy.GroupTotalsPartition | dashApp.py:119 | For distinct keys that cover every row, the group totals add up to the total of all rows. |
| GroupBy.AggregatesNonNegative | dashApp.py:87 | Means and sums of columns that are never negative are never negative. |
| GroupBy.MeanWithinBounds | dashApp.py:70 | A group mean lies between any lower and upper bound of the group's values. |
| GroupBy.SingleKeyTable | dashApp.py:70 | An input with a single distinct key gives a one-row table. |
| GroupBy.TwoKeyTable | dashApp.py:108 | An input with two distinct keys gives two rows, the smaller key first. |
| KeyOrder.Insert | dashApp.py:108 | Inserting a key into a strictly ascending key list keeps it strictly ascending. The result holds the old keys plus the new one. |
| KeyOrder.KeyLessTotal | dashApp.py:113 | Of two different keys, one sorts before the other. |
| KeyOrder.KeyLessTransitive | dashApp.py:113 | The key order is transitive. |
| KeyOrder.StrLessTotal | dashApp.py:108 | Python string comparison orders any two different strings. |
| KeyOrder.DistinctCardinality | dashApp.py:75 | A duplicate-free key list has as many entries as distinct keys. |
| Records.Filter | dashApp.py:67 | A row is kept exactly when it is an input row satisfying the mask. No more rows come out than went in. Multiplicities are stated by `Records.FilterCounts`. |
| Records.FilterCounts | dashApp.py:67 | Each row that satisfies the mask is kept exactly as many times as it occurs in the input. No other row is kept. |
| Records.FilterIdempotent | dashApp.py:67 | Filtering the recession rows again changes nothing. |
| Records.FilterAppend | dashApp.py:100 | Filtering a concatenation is the concatenation of the filtered parts. |
| Records.FilterRejectsAll | dashApp.py:100 | A mask that no row satisfies gives an empty selection. |
| Records.FilterSplitsSum | dashApp.py:67 | The kept rows' total plus the rejected rows' total equals the whole total. |
| Decimal.IntTextRoundTrip | dashApp.py:116 | Parsing the decimal text of a year gives back the year. |
| Decimal.IntTextInjective | dashApp.py:121 | Different years have different decimal texts. |
| SampleReports.RecessionSample | dashApp.py:67-72 | In the three-row sample table, the recession line has the single point 2009 with mean 110. The 2010 non-recession row is excluded. |
| SampleReports.YearlyOverviewSample | dashApp.py:103-105 | In the sample table, the all-years line has the points (2009, 110) and (2010, 200). |
| SampleReports.YearlyMonthSample | dashApp.py:113-116 | In the sample table, the 2009 bars by (month, vehicle type) are (Feb, SUV, 120) then (Jan, SUV, 100). This is string order, not calendar order. |

## Left out

- Loading the CSV from its URL (dashApp.py:9-10): network and parsing I/O. The table is given as a `seq<Record>`.
- Dash app construction, theme, layout, callback registration and `app.run` (dashApp.py:13-49, 52-55, 60-64, 134-135): UI framework plumbing. The callbacks are modelled as plain functions of the dropdown values.
- Plotly figure construction and the `md=6` column hints: rendering. Each view is kept as data (title, kind, grouping columns, aggregations, rows).
- Floating-point behaviour of pandas means and sums: values are exact reals.
- NaN handling (pandas drops NaN keys and skips NaN values): the in-memory table is assumed to be fully typed, so there are no missing values.
- Calendar order for months and first-seen order for vehicle types: the code does not implement either. Key order is modelled as the sorted order pandas actually uses.
- The year option list 1980–2023 (dashApp.py:17): static UI data that `update_graphs` never checks. Any integer year is accepted, and `0` counts as absent, as Python truthiness has it.
- Dropdown values of other Python types: the report type is an optional string and the year an optional integer.
- Mixing integers and strings in one grouping column: this never happens in the table. The key order puts integers before strings, which is the order pandas' sorted grouping uses for mixed keys.
