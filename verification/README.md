# Descriptive table of the lung-cancer analysis, in Dafny

This project models the table-building core of a small clinical analysis
script. The script summarises the lifelines `lung` data set into one
descriptive table: a column for All patients, one for Male and one for
Female.

- `utilities.py` holds five builders. Each returns a one-column *fragment*,
  an ordered list of (row label, cell) pairs:
  - `N4table` gives the number of rows.
  - `meanStd4table` gives a header row, the non-missing count and "mean (sd)".
  - `medianIQR4table` gives "median (q25, q75)".
  - `freq4table` gives a header row and one "count (percent)" row per category.
  - `empty4table` gives a blank separator row.
- `main.py` recodes a few columns and builds three row masks (All, Male,
  Female). For each mask it stacks 21 fragments in a fixed order into a
  per-group table. It then joins the three tables side by side. Separately,
  it filters and recodes the rows given to a Cox regression.

The join is only meaningful if every group table has the same row labels.
That holds because `freq4table` takes its category list from the full,
unfiltered column. The model proves it.

Files, one module each:

- `base.dfy` (`Base`): `Option` and `Result`.
- `text.dfy` (`Text`): decimal numerals and the "head (part, part)" cell
  shape, each with a reader and a round-trip lemma.
- `cells.dfy` (`Cells`): the cell type `Missing | Str | Int` and the order
  `sort_index` puts category values in.
- `columns.dfy` (`Columns`): dropping missing entries, mask selection, the
  sorted category set of a column, and counting.
- `utilities.dfy` (`Utilities`): the five builders and their properties.
- `report.dfy` (`Report`): the recodes, the strata, the fixed fragment plan,
  the join and the regression row filter of `main.py`.

Floating-point statistics are not computed. The texts `str(round(mean, d))`,
`str(round(std, d))`, `str(round(median, d))`, `str(quantile(q))` and
`str(round(p, d) * 100)` are fields of a `Numerics` record of functions. That
record is a parameter, so the statistics are uninterpreted. Everything else is
exact: labels, row order, counts, proportions as rationals, missing-cell
placement, and the shape of every cell.

Two behaviours of the code a reader might not expect:

- A category that is absent from a group's rows gets a missing cell (NaN from
  `reindex`), not "0 (0.0)".
- The category list comes from `value_counts()` with its default
  `dropna=True`. So no row is ever emitted for missing values, even though the
  counts and proportions are taken with `dropna=False` and missing entries
  count in the denominator. As a result, the emitted counts add up to the
  group size minus its missing entries, not to the group size.

## Model

| member | source | states |
|---|---|---|
| `Text.NatTextRoundTrip` | utilities.py:19 | the decimal text written for a count reads back as that count |
| `Text.ParenRoundTrip` | utilities.py:21 | a cell "head (p1, p2, ...)" reads back as its head and parts when none of them holds a space, parenthesis or comma, as numeric texts never do |
| `Cells.LessTotal` | utilities.py:51 | any two distinct category values are ordered, so sorting the category index is well defined |
| `Cells.LessTransitive` | utilities.py:51 | the category order is transitive |
| `Columns.NonMissing` | utilities.py:17-19 | the entries the statistics see contain no missing value; their number is the column length minus the missing entries; every other value keeps its multiplicity |
| `Columns.NonMissingIdempotent` | utilities.py:19 | dropping missing entries a second time changes nothing |
| `Columns.Select` | main.py:26-28 | `x[mask]` has one entry per set mask bit |
| `Columns.SelectMembers` | main.py:26-28 | a value is in `x[mask]` exactly when some position holding it has its mask bit set |
| `Columns.SelectAppend` | main.py:26-28 | selection keeps the original order: selecting from a concatenation is the concatenation of the selections |
| `Columns.SelectAll` | main.py:19 | the all-true mask keeps every row, in order |
| `Columns.SelectPartition` | main.py:17-18 | a mask and its negation split the rows: the two selections together are exactly the original rows as a multiset |
| `Columns.Categories` | utilities.py:39 | the category list is strictly ascending and holds exactly the distinct non-missing values of the full column |
| `Columns.CountsAddUp` | utilities.py:41-43 | counting a column over keys that cover its non-missing values finds every entry except the missing ones |
| `Utilities.NTable` | utilities.py:11-14 | exactly one row, labelled `statlabel`, whose integer cell is the number of rows given (0 for none) |
| `Utilities.MeanStdTable` | utilities.py:16-27 | exactly three rows labelled `label`, 'N nonmissing', `statlabel`, in that order; the header cell is '' |
| `Utilities.MeanStdCountCell` | utilities.py:19-20 | the 'N nonmissing' cell reads back as the number of non-missing entries |
| `Utilities.MeanStdStatCell` | utilities.py:17-22 | the statistic cell reads back as the mean text and the standard-deviation text of the non-missing entries |
| `Utilities.MeanStdIgnoresMissing` | utilities.py:17-19 | removing the missing entries from the column leaves the fragment unchanged |
| `Utilities.MedianIqrTable` | utilities.py:29-33 | exactly one row, labelled `statlabel`, holding a string |
| `Utilities.MedianIqrCell` | utilities.py:30-32 | the cell reads back as the median rounded to `decimals` and the 0.25 and 0.75 quantiles of the non-missing entries |
| `Utilities.MedianIqrQuartilesUnrounded` | utilities.py:31-32 | the quartile part of the cell is the same for every `decimals`; only the median is rounded |
| `Utilities.MedianIqrIgnoresMissing` | utilities.py:30-31 | removing the missing entries leaves the fragment unchanged |
| `Utilities.ValueCounts` | utilities.py:41-42 | the value counts cover every value of the counted rows, missing included, and nothing else; each value carries its number of occurrences, and its proportion times the number of rows (missing ones included) is that count |
| `Utilities.Reindex` | utilities.py:51 | one entry per requested key, in key order; an entry has a value exactly when its key was counted, and then it carries the counted value unchanged |
| `Utilities.Tabulate` | utilities.py:35-51 | the category entries follow the full column's sorted categories; an entry has a count exactly when its category occurs in the subset; the count is the number of occurrences in the subset; the proportion is that count over the subset size, missing rows included |
| `Utilities.TabulateIsReindex` | utilities.py:41-51 | the category entries are exactly the subset's value counts reindexed to the full column's categories |
| `Utilities.GenderExample` | utilities.py:36-51 | sexes Male, Male, Male, Female, Female counted over the whole column give Female 2 (share 0.4), then Male 3 (share 0.6) |
| `Utilities.FreqTable` | utilities.py:35-53 | a header row (`label`, '') followed by exactly one row per category of the FULL column, under the group's column name |
| `Utilities.FreqTableLabels` | utilities.py:39-53 | the row labels are `label` and then the full column's categories in ascending order, whatever the mask |
| `Utilities.FreqMissingCells` | utilities.py:41-51 | a category row's cell is missing exactly when its category is absent from the subset |
| `Utilities.FreqPresentCell` | utilities.py:41-46 | a category present in the subset occurs there a positive number of times n, and its cell is "n (percent of n / subset size)" |
| `Utilities.FreqCellCount` | utilities.py:41-46 | the cell of a category present in the subset reads back as its number of occurrences there, which is positive |
| `Utilities.FreqCellPercent` | utilities.py:41-46 | when the percent text holds no space, parenthesis or comma, that cell reads back as the count text and the percent of count / subset size, missing rows in the denominator |
| `Utilities.FreqLabelsIgnoreGroup` | utilities.py:39-43 | two calls on the same column and label have the same label sequence, whatever the masks, decimals and column names |
| `Utilities.FreqDefaultGroup` | utilities.py:35-39 | the default `group=[]` gives the same fragment as the all-true mask |
| `Utilities.FreqCountsAddUp` | utilities.py:37-51 | the emitted counts add up to the subset size minus its missing entries: the missing-value row is dropped |
| `Utilities.EmptyTable` | utilities.py:55-58 | exactly one row, label '' and cell ''; only the column name depends on `groupname` |
| `Report.SexRecode` | main.py:13 | 'Male' exactly for code 1, 'Female' for every other value |
| `Report.StatusRecode` | main.py:14 | 'Alive' exactly for code 1, 'Dead' for every other value |
| `Report.EventIndicator` | main.py:52 | 1 exactly for status code 2, otherwise 0 |
| `Report.AgeGroup` | main.py:74 | 1 exactly when the age is present and at least 65, otherwise 0 |
| `Report.RegressionSex` | main.py:75 | 1 exactly for code 1, otherwise 2 |
| `Report.SexCodingsAgree` | main.py:75 | the regression's sex code is 1 exactly when the table says 'Male' |
| `Report.StatusCodingsAgree` | main.py:52 | on codes 1 and 2, 'Dead' coincides with an event; any other code is 'Dead' yet censored |
| `Report.StrataPartition` | main.py:17-19 | Male is exactly sex code 1; every patient is in exactly one of Male and Female; their sizes add up to the size of All |
| `Report.StrataGenderRows` | main.py:17-29 | in the Male table the Gender row 'Female' is a missing cell, and in the Female table the row 'Male' is |
| `Report.BuildLabels` | main.py:26-38 | each builder call yields the labels its step announces, under the group's column name |
| `Report.StackLabels` | main.py:39-41 | the labels of stacked fragments are the fragments' labels in order |
| `Report.GroupTableLabels` | main.py:25-42 | every per-group table has the same label sequence, the plan's labels in order, whatever the mask |
| `Report.Join` | main.py:46 | the side-by-side join succeeds exactly when there is a frame and all frames share one label sequence; the result has one column per frame, in order, the shared labels, and one cell per frame in each row |
| `Report.JoinSplitsBack` | main.py:46 | each column of a successful join, read back, is the frame it came from |
| `Report.ReportAligned` | main.py:20-46 | the report's join succeeds, its columns are All, Male, Female in that order, and its rows carry the label sequence of each group table |
| `Report.ReportColumns` | main.py:17-46 | column 0 of the report is the group table of the all-true mask, column 1 that of the Male mask, column 2 that of the Female mask |
| `Report.PatientCountsAddUp` | main.py:17-26 | the report's first row is 'Number of patients'; All counts every patient, Male and Female count the patients their masks select, and All is Male plus Female |
| `Report.StackAt` | main.py:39-41 | row `i` of fragment `m` sits at row `Offset(parts, m) + i` of the stacked table |
| `Report.StackBlock` | main.py:39-41 | every fragment appears whole and in order in the stacked table, starting where the fragments before it end |
| `Report.GroupAgeCount` | main.py:25-27 | the fourth row of a group table is 'N nonmissing' and reads back as the number of ages present among the patients the group's mask selects |
| `Report.GenderBlock` | main.py:25-29 | from the eighth row on, a group table holds the whole frequency table of the full recoded sex column under that group's own mask |
| `Report.CoxInput` | main.py:77-78 | the regression input keeps exactly the rows with a weight loss, in their original order, with their original index, restricted to time, status_km, sex code, age and wt.loss |

## Left out

- Loading the data set (main.py:7-8) and writing the two CSV files
  (main.py:47, 84) are I/O. The data set is a parameter, `seq<Patient>`.
- The Kaplan–Meier fits, the log-rank test, the Cox fit and
  `survival_table_from_events` (main.py:55-91) are calls into lifelines.
  The plotting helpers `KM_plot_single` and `KM_plot_double`
  (utilities.py:61-82) only draw with matplotlib. None of them is modelled.
- Floating-point arithmetic is not modelled: means, standard deviations,
  medians, interpolated quantiles, `round`, and float-to-string conversion
  (utilities.py:17-18, 30-31, 45-46). These are the uninterpreted fields of
  `Numerics`. The proportion is stated exactly, as a rational, before it is
  rounded. Not-a-number results for an empty group are whatever those fields
  return.
- The `elif` in `freq4table` can never fall through for a real mask
  (utilities.py:40). The model takes the mask branch for every non-empty mask.
- pandas aligns a boolean Series mask with its column by index label. Every
  mask in `main.py` is built from the data set itself and shares its index,
  so selecting by position, as `Select` does, gives the same rows. The model
  requires `|group| == 0 || |group| == |col|`; masks with other indexes are
  not modelled.
- Columns that mix numbers and strings cannot be sorted in Python 3. The
  model orders every number before every string instead.
- Cells.Show: integer-valued float categories (ph.ecog, ph.karno, pat.karno)
  are labelled "1", not pandas' "1.0", because floats are modelled as
  integers.
- Report.Join: when the label sequences differ, pandas either aligns unique
  labels by an outer join or raises on duplicate labels. The model returns
  `Misaligned` in both cases. `main.py` never reaches this case, because
  `ReportAligned` proves its three tables share one label sequence.
- Utilities.MeanStdStatCell: reads the cell back only when the numeric texts
  hold no space, parenthesis or comma. Python's float rendering always
  satisfies this, but the uninterpreted `Numerics` fields are not required to.
  `MedianIqrCell` and `FreqCellPercent` have the same condition.
- `age_grp` (main.py:74) is computed but never used: the regression input
  selects `age`, not `age_grp`. `AgeGroup` models the recode alone.
