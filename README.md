# Vehicle diagnostics: header normalisation and summary extraction

A Dafny model of the summarisation step of a small web application that turns a
CSV of OBD-II sensor readings into a diagnostic report. The step under model is
`summarize_data` in `app.py`:

1. **Column normaliser** (line 25). Every column header loses each character
   outside ASCII (`encode('ascii', 'ignore')`) and is then trimmed with
   Python's default `str.strip`. The header row of the caller's table is
   replaced in place, so the chart calls that run afterwards on the same table
   see the normalised names.
2. **Summary extractor** (lines 26-37). Ten aggregates are computed from nine
   named columns: means, maxima, a minimum, `int(...)` casts and
   `round(..., 2)`. The ten values are two (min, max) pairs and eight scalars.
   The step raises if a required column is missing or if the table has no rows.
3. **Prompt builder** (`build_question`, lines 40-58). The ten values are
   written into a fixed question template.

## Layout

| file | module | what it holds |
|---|---|---|
| `wrappers.dfy` | `Wrappers` | `Option` and a failure-compatible `Result` |
| `headers.dfy` | `Headers` | the ASCII filter, `lstrip`/`rstrip`/`strip`, `Normalize`, and their properties |
| `stats.dfy` | `Stats` | `Sum`, `Mean`, `Max`, `Min`, `Trunc` (`int(...)`), `Round2` (`round(..., 2)`) and their properties |
| `table.dfy` | `Frame` | the table class, lookup of a column by header (`df[name]`), and the in-place header update |
| `summary.dfy` | `Summary` | the summary record, `Summarize`, the `SummarizeData` method and the properties of a summary |
| `prompt.dfy` | `Prompt` | the question template and where each value appears in it |

The table is a class, `Frame.Table`, with the fields `headers`, `columns` and
`rows`. `Table.NormalizeHeaders` reassigns `headers` and leaves the other two
alone. `Summary.SummarizeData(df)` calls it and then evaluates the pure
function `Summary.Summarize` on the updated table. Readings are exact reals.

`Summary.Required` lists the nine header names the code reads, in the order
the dict entries look them up. `Summarize` and the lemmas about it take that
list as a parameter `names` of length nine. `SummarizeData` passes
`Required`. None of the results depends on how the names are spelled, so
they hold for `Required` in particular. `Summary.RequiredNameNormal` shows
that each required name is ASCII only and trimmed, so normalisation leaves it
as written.

Errors are values of `Frame.Error`:
- `MissingColumn(name)` is pandas' `KeyError`.
- `DuplicateColumn(name)` means the name heads more than one column (see "Left out").
- `NoRows` is the `ValueError` from `int(NaN)`, raised at line 28 on an empty table.

Python builds the dict entries in order. The error that is reported is
therefore the first one met. The coolant and RPM lookups come first, then the
empty-table check of line 28, then the other seven lookups.

The code reads nine distinct columns for its ten entries: RPM feeds two of
them. `summarize_data` never reads `Time`; only the chart code does.

## Model

| member | source | states |
|---|---|---|
| `Headers.DropNonAscii` | app.py:25 | `encode('ascii','ignore').decode('ascii')`: the result is ASCII only and no longer than the input |
| `Headers.DropNonAsciiChar` | app.py:25 | `errors='ignore'`: a single ASCII character is kept and any other character is removed, not replaced; with `DropNonAsciiConcat` this fixes the filter on every string |
| `Headers.DropNonAsciiPadding` | app.py:25 | what the filter leaves of a string is all whitespace exactly when each of its characters is non-ASCII or whitespace |
| `Headers.DropNonAsciiConcat` | app.py:25 | the filter distributes over concatenation, so the characters it keeps stay in their order |
| `Headers.DropNonAsciiFixedPoint` | app.py:25 | the filter leaves a header unchanged if and only if it is already ASCII only |
| `Headers.LStrip` | app.py:25 | `lstrip`: the result is a suffix of the input, only whitespace was removed, and it does not start with whitespace |
| `Headers.RStrip` | app.py:25 | `rstrip`: the result is a prefix of the input, only whitespace was removed, and it does not end with whitespace |
| `Headers.Strip` | app.py:25 | `str.strip()`: the result is no longer than the input, and neither end is whitespace |
| `Headers.StripIsTrimmedSlice` | app.py:25 | `strip` returns a slice `s[i..j]` with only whitespace outside it, and neither end of the slice is whitespace |
| `Headers.StripFixedPoint` | app.py:25 | `strip` leaves a string unchanged if and only if neither end is whitespace |
| `Headers.StripKeepsAscii` | app.py:25 | stripping an ASCII-only string leaves it ASCII only |
| `Headers.LStripSkipsSpace` | app.py:25 | any run of leading whitespace is removed completely by `lstrip` |
| `Headers.RStripSkipsSpace` | app.py:25 | any run of trailing whitespace is removed completely by `rstrip` |
| `Headers.StripPadded` | app.py:25 | stripping a trimmed string that is padded with whitespace gives the string back |
| `Headers.Normalize` | app.py:25 | one header through line 25: the result is ASCII only and has no whitespace at either end |
| `Headers.NormalizeFixedPoint` | app.py:25 | a header is left unchanged if and only if it is already ASCII only and trimmed |
| `Headers.NormalizeIdempotent` | app.py:25 | normalising a header a second time changes nothing |
| `Headers.NormalizeRecoversName` | app.py:25 | a name padded with non-ASCII characters and whitespace (a leading U+00A0 or byte-order mark, say) normalises to the bare name; the filter runs before the strip |
| `Headers.NormalizeAll` | app.py:25 | the whole header row keeps its length and order; entry `i` is the normalised header `i` |
| `Headers.NormalizeAllIdempotent` | app.py:25 | normalising the header row twice is the same as normalising it once |
| `Frame.Table.constructor` | app.py:92 | the table the upload yields: one column per header and one reading per row in every column |
| `Frame.Table.NormalizeHeaders` | app.py:25 | the header row is replaced in place by its normalised form; every new header is ASCII only and trimmed; the columns and the row count are unchanged |
| `Frame.Count` | app.py:27-36 | the number of headers equal to a name is zero exactly when the name is absent, and at most the number of headers |
| `Frame.IndexOf` | app.py:27-36 | finds the first header equal to a name, or reports that there is none |
| `Frame.ResolvesIffUnique` | app.py:27-36 | a name resolves if and only if exactly one position of the header row holds it |
| `Frame.Column` | app.py:27-36 | `df[name]` succeeds if and only if exactly one header equals `name`, and it returns one of the table's columns; otherwise it fails with `MissingColumn` when no header equals `name` and with `DuplicateColumn` when several do |
| `Frame.ColumnSelectsNamedColumn` | app.py:27-36 | a successful `df[name]` returns the column at the one position whose header is `name` |
| `Frame.LookupAll` | app.py:27-36 | looks names up in order: it succeeds if and only if every name resolves, returning their columns in order; otherwise it fails with the error of the first name that does not resolve |
| `Frame.LookupAllRows` | app.py:27-36 | every looked-up column has one reading per row |
| `Frame.LookupAllErrorIgnoresReadings` | app.py:27-36 | whether a run of lookups fails, and with which error, depends on the headers alone, not on the readings |
| `Stats.Max` | app.py:28 | `Series.max()` returns a reading that no other reading exceeds |
| `Stats.Min` | app.py:33 | `Series.min()` returns a reading that no other reading undercuts |
| `Stats.MeanBetweenMinAndMax` | app.py:27-29 | `Mean` (`Series.mean()`, the sum of the readings over their count) lies between the smallest and the largest reading |
| `Stats.MeanBounds` | app.py:27 | a mean of readings between two bounds lies between those bounds |
| `Stats.SumBounds` | app.py:27 | `Sum` of `n` readings between `lo` and `hi` lies between `n*lo` and `n*hi` |
| `Stats.SumConcat` | app.py:27 | `Sum` of two runs of readings put together is the sum of their sums |
| `Stats.SumPermutation` | app.py:27 | `Sum` does not depend on the order of the readings: two columns with the same readings, counted with multiplicity, have the same sum |
| `Stats.AggregatesIgnoreOrder` | app.py:27-36 | `Mean`, `Max` and `Min` depend only on the readings counted with multiplicity, not on their order |
| `Stats.Trunc` | app.py:28-30 | `int(x)` truncates toward zero: it keeps the sign and moves `x` less than 1 toward zero |
| `Stats.TruncMonotone` | app.py:28-29 | `int(...)` never reverses the order of two values |
| `Stats.Round2` | app.py:27 | `round(x, 2)` gives a multiple of 1/100 within 0.005 of `x` |
| `Stats.RoundHalfEven` | app.py:27 | the integer nearest to `y`, within 1/2 of it; when `y` lies exactly halfway, the even neighbour |
| `Stats.Round2Monotone` | app.py:27 | `round(..., 2)` never reverses the order of two values |
| `Stats.RoundHalfEvenMonotone` | app.py:27 | rounding to the nearest integer never reverses the order of two values |
| `Stats.Round2FixedPoint` | app.py:32-33 | a value already given to two places is unchanged by `round(..., 2)` |
| `Summary.RequiredColumns` | app.py:27-36 | when every required name resolves, the nine looked-up columns, in dict order; column `k` is `df[names[k]]` and has one reading per row |
| `Summary.Summarize` | app.py:26-37 | the summary succeeds if and only if every required column resolves and the table has at least one row; a successful summary is the record of the ten aggregates over the required columns |
| `Summary.AggregateIgnoresRowOrder` | app.py:27-36 | `Aggregate`, the ten entries built from the nine columns, is the same for any reordering of the readings within each column |
| `Summary.SummarizeFailsAtFirstProblem` | app.py:27-36 | a failing summary names the first required column, in dict order, that does not resolve, and says whether it is absent or repeated; every earlier column resolves; an empty table is reported once coolant and RPM resolve and before any later lookup |
| `Summary.SummarizeIgnoresRowOrder` | app.py:26-37 | reordering the rows of the table changes neither whether the summary succeeds, nor its error, nor its record |
| `Summary.PedalRangesBracketReadings` | app.py:35-36 | in `pedal_d_range` and `pedal_e_range` the first value is at most the second, and every reading of that pedal column lies between them |
| `Summary.RpmMaxAtLeastAvg` | app.py:28-29 | `rpm_avg <= rpm_max` |
| `Summary.AveragesWithinReadings` | app.py:27-34 | each rounded average (coolant, MAF, intake) lies between the rounded smallest and the rounded largest reading of its column |
| `Summary.RequiredNameNormal` | app.py:27-36 | each of the nine names the summary looks up is ASCII only and trimmed, so line 25 leaves it unchanged |
| `Summary.PaddedHeaderResolves` | app.py:25 | a raw header that is an expected name padded with non-ASCII characters and whitespace can be looked up after normalisation, provided no other header normalises to the same name |
| `Summary.SummarizeData` | app.py:24-38 | the caller's table keeps the normalised headers and its columns, whether or not the summary succeeds; the result is `Summarize` of the normalised table |
| `Prompt.Values` | app.py:48-57 | the template shows twelve rendered values: ten entries, two of which are pairs |
| `Prompt.FillPlacesValue` | app.py:41-58 | `Fill`, the evaluation of an f-string: each value sits directly after the piece of literal text before it |
| `Prompt.QuestionShowsEveryValue` | app.py:40-58 | `BuildQuestion` (`build_question`): the question shows every summary value directly after its label, e.g. `rpm_max` right after "- Max Engine RPM: " |

## Left out

- HTTP routes, request handling and the upload storage (`app.py:80-113`). These are web plumbing.
- Parsing the CSV (`pd.read_csv`). The model starts from a parsed, rectangular table of numeric readings. Headers are assumed to be strings.
- The language-model call `generate_report`, the charts `create_graph` and the PDF export `create_pdf`. These are external services or rendering libraries.
- The API key set in the process environment at load time.
- Floating point. Readings, means and rounding are exact reals. `Round2` is round-half-even of `100*x` on the exact value. Floating-point error in the sum and the scaling is not modelled.
- Missing cells (NaN) in a populated column. pandas would skip them; the model requires every cell to hold a reading.
- Frame.Column: a header that two or more columns share after normalisation (for example `X` and `X` followed by a no-break space) is reported as `DuplicateColumn`. pandas would instead return a sub-table. Then `int(...)` raises a `TypeError`, and `round(...)` yields one value per column. The model does not follow either outcome.
- Prompt.QuestionShowsEveryValue: the text of each number (`str` of an `int`, the shortest `repr` of a numpy float) is a parameter. The model does not fix the digits Python prints.
- The chart calls after the summary (`app.py:100-103`) look up `Time` and four signals in the normalised table. Only the in-place update they rely on is modelled (`Frame.Table.NormalizeHeaders`). The lookups themselves are not.
