# Korean population dashboard — verified model of its data pipeline

The dashboard in `streamlit_app.py` loads a table of Korean population
statistics and shows charts and key figures for a chosen year, gender and
region. The input table has a two-row header: a period such as `2024` or
`2025.03`, and a kind of count (`총인구수 (명)`, `남자인구수 (명)`,
`여자인구수 (명)`). It also has one region column, `행정구역(시군구)별`. This
project models the two parts of the program that hold logic, and proves
properties about them:

* **`load_data`** (module `Normaliser`). It reshapes the wide table into
  long-form records `(region, year, gender, population)` in these steps:
  - flatten the two header levels into `"period|kind"`;
  - melt into one row per (data row, value column);
  - split the key on `|`;
  - rename the three kinds to `전체`, `남자` and `여자`;
  - turn `.` into `-`;
  - rename `2025-04` to `2025`, then drop `2025-01` to `2025-03`;
  - coerce the population to a number, or to missing.

  The steps are written twice. The functions `Flatten`, `MeltColumns`,
  `LabelAll`, `DropSuperseded`, `Coerce` and `Normalise` state them on
  values. The methods `FlattenColumns`, `Melt`, `Relabel`, `DropMonths`,
  `CoercePopulation` and `LoadData` perform them one step after another,
  with a loop for each step pandas performs internally (the source itself
  loops only over the columns, lines 15-20), and are proved equal to those
  functions.
* **Selection and key figures** (module `Dashboard`). This part covers:
  - the bar-chart rows: selected year and gender, without the nationwide row `전국`;
  - the line-chart rows: selected gender and region;
  - their per-year sums, as pandas `groupby(...).sum()` computes them;
  - this year's sum, last year's sum, the change, and its arrow.

Helper modules: `Wrappers` holds `Option` and `Result`. `Seqs` holds the
order-preserving row filter that `df[mask]` performs. `Text` holds
`str.split`, `str.replace` and Python's order on `str`. `Decimal` holds the
integer parse that stands for `int()` and `pd.to_numeric`, and `str()` on
integers.

The input that `pd.read_csv` would produce is a parameter: a header of
`(period, kind)` pairs and rows of cell strings. A missing population
(pandas NaN) is `None`. A header on which pandas raises is a `FormatError`:
the region column is absent or repeated, or a label contains `|`, so the key
splits into more than two parts. The selected year, gender and region are
parameters.

Two behaviours of the code that a reader might expect to be otherwise are modelled as the code has them:

* A kind other than the three known ones is passed through unchanged by
  `replace` (lines 26-30). It is not rejected. `GenderMapping` states this.
* Only the literal labels `2025-01`, `2025-02` and `2025-03` are dropped, and
  only `2025-04` is renamed to `2025` (lines 32-33). Other years are not
  generalised.

One observation about lines 65-66: the guard `if prev_year in ... else 0` is
redundant. The sum over no rows is already 0. `ComputeKpi` states that the
previous figure is always the sum over the previous year's rows, and
`PreviousYearAbsent` derives the "0 when absent" case from that.

## Model

| member | source | states |
|---|---|---|
| `Normaliser.LoadData` | streamlit_app.py:13-36 | Running the steps of `load_data` one after another produces exactly `Normalise` of the raw table, including the format errors. |
| `Normaliser.Normalise` | streamlit_app.py:13-36 | The result is an error exactly when the header is malformed (no region column or several, or a label holding the bar character). Otherwise it has at most (columns - 1) × rows records. |
| `Normaliser.FlattenColumns` | streamlit_app.py:15-22 | The loop building `new_columns` yields the region name for the region column and "period", a bar, then "kind" for every other column, in column order. |
| `Normaliser.FlatNameRegion` | streamlit_app.py:16-20 | A flattened name equals the region name only for the region column, so `melt` treats no value column as an id column. |
| `Normaliser.RegionIndex` | streamlit_app.py:17 | The returned index is a region column, and no column before it is one. |
| `Normaliser.RegionUnique` | streamlit_app.py:17 | With exactly one region column, a column is the region column iff it is at `RegionIndex`. |
| `Normaliser.Melt` | streamlit_app.py:24 | The melt loop produces `MeltColumns`: each value column over all data rows, column after column, with the row's region. |
| `Normaliser.MeltLength` | streamlit_app.py:15-24 | Melting gives one record per data row for each value column. |
| `Normaliser.MeltAt` | streamlit_app.py:24 | The record for data row i and value column j sits at position slot(j) × (number of rows) + i. It carries row i's region, column j's flat name and cell (i, j). |
| `Normaliser.MeltMembers` | streamlit_app.py:24 | A row is in the melted table iff it is the cell row of some data row and some value column. |
| `Normaliser.MeltKeysOk` | streamlit_app.py:20-25 | Every melted key of a well-formed header splits on the bar character into exactly two parts. |
| `Normaliser.Relabel` | streamlit_app.py:25-32 | The relabelling loop produces `LabelAll`. Each row's year is its canonical period and its gender is its mapped kind. |
| `Normaliser.LabelCell` | streamlit_app.py:20-32 | For a value cell, the year and gender after splitting the key are the column's two header levels, canonicalised and mapped. |
| `Normaliser.LabelledLength` | streamlit_app.py:15-32 | Before the month drop the table has (columns - 1) × rows records. |
| `Normaliser.LabelledAt` | streamlit_app.py:15-32 | Before the drop, the record for (row i, value column j) is at its melt position. It has row i's region, the column's canonical year, its mapped gender and the parsed cell. |
| `Normaliser.DropMonths` | streamlit_app.py:33 | The filtering loop yields `DropSuperseded`: the rows whose year is not `2025-01`, `2025-02` or `2025-03`, in order. |
| `Normaliser.CoercePopulation` | streamlit_app.py:34-35 | Every kept row becomes one record whose population is the parse of its cell. No record is removed. |
| `Normaliser.NormaliseSound` | streamlit_app.py:13-36 | Every output record is the record of some (data row, value column) cell, and its year is not a superseded month. |
| `Normaliser.NormaliseComplete` | streamlit_app.py:13-36 | Every (data row, value column) cell whose canonical year is not a superseded month appears as its record in the output. Records with a missing population are kept. |
| `Normaliser.GenderMapping` | streamlit_app.py:26-30 | The three known kinds map to 전체, 남자 and 여자. Any other kind is left unchanged. |
| `Normaliser.NormaliseGenders` | streamlit_app.py:26-30 | If every value column has one of the three known kinds, every output gender is 전체, 남자 or 여자. |
| `Normaliser.CanonYearLabels` | streamlit_app.py:31-32 | A canonical year contains no `.`, and `2025.04` becomes exactly `2025`. |
| `Normaliser.NormaliseYears` | streamlit_app.py:31-33 | No output year contains `.` or is `2025-01`, `2025-02` or `2025-03`. Records from a `2025.04` column have year `2025`. |
| `Text.Split` | streamlit_app.py:25 | `str.split` on the bar character yields at least one piece. No piece contains the separator, and joining the pieces with it gives the string back. |
| `Text.SplitPair` | streamlit_app.py:20-25 | Splitting c0, a bar, then c1 recovers `[c0, c1]` when neither contains the bar. |
| `Text.SplitUnseparated` | streamlit_app.py:25 | A string without the separator splits into itself alone. |
| `Text.ReplaceChar` | streamlit_app.py:31 | `str.replace(".", "-")` keeps the length, turns every `.` into `-` and leaves every other character in place. No `.` remains. |
| `Text.StrLessIrreflexive` | streamlit_app.py:60 | No year sorts before itself in the order `groupby` uses for its keys. |
| `Text.StrLessTransitive` | streamlit_app.py:60 | That order is transitive. |
| `Text.StrLessTotal` | streamlit_app.py:60 | Any two different years are ordered one way or the other. |
| `Decimal.NatToString` | streamlit_app.py:64 | `str(n)` for n ≥ 0 is a non-empty string of digits without a leading zero. |
| `Decimal.NatRoundTrip` | streamlit_app.py:64 | The digits `str(n)` prints denote n. |
| `Decimal.IntRoundTrip` | streamlit_app.py:64 | `int(str(n)) == n` for every integer n, so the previous-year label parses as the selected year minus one. |
| `Decimal.ParseRejects` | streamlit_app.py:34 | A cell with a character that is neither a digit nor a leading sign coerces to missing (NaN), not to 0. |
| `Decimal.ParseRejectsShort` | streamlit_app.py:34 | The empty cell and a lone sign coerce to missing. |
| `Seqs.Filter` | streamlit_app.py:33 | `df[mask]` keeps only rows of the table that pass the mask, and never more rows than the table has. |
| `Seqs.FilterComplete` | streamlit_app.py:56-59 | Every row that passes the mask is kept. |
| `Seqs.FilterAppend` | streamlit_app.py:33 | Masking distributes over concatenation, so kept rows stay in their original relative order. |
| `Dashboard.BarMembers` | streamlit_app.py:56-57 | A record is in the bar chart iff it is in the table, has the selected year and gender, and its region is not 전국. |
| `Dashboard.LineMembers` | streamlit_app.py:59 | A record is in the line rows iff it is in the table with the selected gender and region. |
| `Dashboard.SumSkipsMissing` | streamlit_app.py:60-65 | The population sum equals the sum over the records whose population is present, so NaN is skipped. |
| `Dashboard.AbsentYearSum` | streamlit_app.py:65 | The sum for a year that occurs in no row is 0. |
| `Dashboard.AddTo` | streamlit_app.py:60 | Adding a year's amount keeps the series sorted by year, and its years become the old ones plus that year. |
| `Dashboard.GroupByYear` | streamlit_app.py:60 | The grouped series is strictly ascending by year, and its years are exactly the years of the line rows. |
| `Dashboard.GroupTotals` | streamlit_app.py:60 | The series' value for any year is the sum of that year's populations (0 for a year absent from the rows). |
| `Dashboard.GroupEntries` | streamlit_app.py:60 | There is one entry per distinct year of the line rows, and each entry's total is that year's sum. |
| `Dashboard.GroupConserves` | streamlit_app.py:60 | The totals of the series add up to the sum over all line rows. |
| `Dashboard.Arrow` | streamlit_app.py:67 | The arrow is ↑ iff the change is positive, ↓ iff negative, and `-` iff zero. |
| `Dashboard.ComputeKpi` | streamlit_app.py:63-67 | This fails exactly when the selected year is not an integer. Otherwise: the previous-year label is `str()` of the selected year minus one, so it parses back to that number; the current figure is the selected year's sum; the previous figure is the previous year's sum; the change is current minus previous; the arrow follows its sign. |
| `Dashboard.PreviousYearAbsent` | streamlit_app.py:64-66 | If no line row has the previous year, the previous figure is 0 and the change equals the current figure. |

## Left out

- Page setup, widgets, subheaders, metrics, the data-table display, the Plotly charts and the display-only sort (lines 7-9, 48-51, 74-100): presentation only.
- The sidebar lists of years and regions (lines 44-46): they only feed the widgets. The selections are parameters.
- `@st.cache_data` (line 12): framework memoisation with no logic of its own.
- Reading the CSV file and parsing its two header rows (line 14): file I/O. The model starts from the table it produces and requires its rows to have one cell per column.
- Formatting the key figures as millions and thousands (lines 68-69): floating-point text formatting. Only the integer change and the arrow are modelled.
- Decimal.ParseInteger: stands for `pd.to_numeric` and for `int()` only on whole numbers written as an optional sign and ASCII digits. Cells that pandas would parse as floats (a decimal point, an exponent, surrounding spaces) are missing in the model. `int()`'s tolerance of spaces, underscores and non-ASCII digits is not modelled.
- Dashboard.SumPopulation: sums exactly over integers. pandas sums in float64 once a column holds NaN, and that rounding is not modelled.
- Normaliser.Normalise: a header that repeats the region column is reported as a format error. What pandas' `melt` does with a duplicated id column is not modelled.
- Normaliser.Normalise: when the melted table is empty (no data rows or no value columns), the model returns the empty table. pandas' behaviour when splitting an empty column with `expand=True` is not modelled.
- Missing region names and missing period labels (NaN in those cells) are not modelled: they are strings here.
