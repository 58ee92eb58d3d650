# Sample sanitising and analysis scaffolding, modelled in Dafny

This project models the parts of the sappho-analysis scripts that are list,
dictionary and string logic rather than numerical library calls:

- **`generate_sanitised_data.py`** (module `GenerateSanitisedData`, file
  `sanitise.dfy`). The reader of instrument dumps skips the first five lines
  of each dump. It keeps every later line whose stripped text is a string of
  decimal digits with a value of at most 4095, and stores the samples per file
  name. Each file's samples are then cut into `len // 128` consecutive windows
  of 128 samples; a trailing remainder is dropped. The windows are summed
  element by element and divided by the window count, giving one profile per
  file. Every profile is written as one `str(list)` line.
- **`data_analysis.py`** (module `DataAnalysis`, file `analysis.dfy`). The
  sanitised file is read back one row per line with
  `strip().strip("[]").split(", ")` and `float`. Rows are min-max normalised.
  The pairwise comparators (coherence, cross-correlation, "dynamic time
  warping", Kolmogorov-Smirnov) share one loop nest: theoretical rows outer,
  experimental rows inner, one result appended per pair. The wavelet
  transform decomposes each row and writes the flattened list of all rows'
  coefficient bands, two per row at level 1. The k-means input is the
  theoretical rows followed by the experimental rows.
- **`Text`** (`text.dfy`) holds the Python string operations the scripts
  use: `str.strip()`, `str.strip(chars)` and `str.split(sep)`. It also holds
  `sep.join`, which neither script calls: it stands for the joining that
  `str(list)` does internally when a profile is written.
  **`Results`** (`results.dfy`) holds `Option` and `Result`.

The scripts work with Python dictionaries, which iterate in insertion order.
They are modelled as sequences of `(file name, value)` pairs with distinct
names (`FileDict`), so "same keys" and "same order" can both be stated. The
exceptions the scripts raise are modelled as `Failure` values:

- `IndexError` at `sublists[0]` for a file without a window.
- `ValueError` from `min` of an empty row.
- `ZeroDivisionError` for a constant row.
- `ValueError` from `float`.

Numbers are unbounded integers and exact reals, not IEEE floats.

Facts about the code that the model keeps:

- Exactly 5 header lines are skipped, and sample values up to 4095 are kept.
  No polarity inversion is applied to the samples.
- A file with fewer than 128 samples has no window. It raises `IndexError` at
  `sublists[0]` before any division takes place.
- The clustering asks for 2 clusters.
- The "dynamic time warping" comparator is the Euclidean distance call. The
  `np.array(...).ravel()` conversion leaves a flat row's values as they are, so
  it is not modelled separately.

## Model

| member | source | states |
|---|---|---|
| `GenerateSanitisedData.AfterHeader` | generate_sanitised_data.py:19 | `lines[5:]`: empty for five lines or fewer, otherwise line `5 + k` becomes line `k` |
| `GenerateSanitisedData.DecimalValueBounds` | generate_sanitised_data.py:21 | `int(line)`, as `DecimalValue`, of a digit string of length `n` is below `10^n`, and at least `10^(n-1)` when there is no leading zero |
| `GenerateSanitisedData.DecimalRoundTrip` | generate_sanitised_data.py:21 | `int` of the decimal text of a number gives that number back |
| `GenerateSanitisedData.AcceptsWrittenSample` | generate_sanitised_data.py:20-22 | the filter `line.isdigit() and 0 <= int(line) <= 4095` on the stripped line keeps a line holding a value of at most 4095 in decimal plus a line break, and appends that value |
| `GenerateSanitisedData.AcceptsPadded` | generate_sanitised_data.py:20-22 | whitespace around a line's text decides nothing: the padded line passes the filter exactly when the bare text does, with the same value |
| `GenerateSanitisedData.FilterSamples` | generate_sanitised_data.py:19-22 | the kept samples never outnumber the examined lines, and each lies in [0, 4095] |
| `GenerateSanitisedData.ExtractSamples` | generate_sanitised_data.py:17-22 | the strip-and-filter loop over one dump stores exactly the filtered samples of the lines after the header, each in [0, 4095], no more than there are lines after the header |
| `GenerateSanitisedData.FilterSamplesMember` | generate_sanitised_data.py:19-22 | a value is stored iff some examined line, once stripped, is a digit string whose value is that number and at most 4095 |
| `GenerateSanitisedData.FilterSamplesSound` | generate_sanitised_data.py:19-22 | every stored value comes from an examined line that is accepted and carries it |
| `GenerateSanitisedData.FilterSamplesComplete` | generate_sanitised_data.py:19-22 | every accepted line's value is stored |
| `GenerateSanitisedData.FilterSamplesAppend` | generate_sanitised_data.py:19-22 | filtering distributes over concatenation: kept samples keep their line order and each line is judged alone |
| `GenerateSanitisedData.HeaderIgnored` | generate_sanitised_data.py:19 | dumps that differ only in their first five lines give the same samples |
| `GenerateSanitisedData.ReadTextFiles` | generate_sanitised_data.py:12-24 | one entry per dump in listing order, same names, each holding the filtered samples of that dump alone |
| `GenerateSanitisedData.Windows` | generate_sanitised_data.py:33-42 | exactly `len // 128` windows, each of exactly 128 samples |
| `GenerateSanitisedData.WindowsAt` | generate_sanitised_data.py:38-41 | window `i` is the slice `data[128*i : 128*(i+1)]` |
| `GenerateSanitisedData.WindowsCoverPrefix` | generate_sanitised_data.py:34-42 | the windows concatenate to exactly the first `128 * (len // 128)` samples; fewer than 128 samples are dropped |
| `GenerateSanitisedData.SplitFile` | generate_sanitised_data.py:33-42 | the slicing loop produces exactly the windows of the file's samples |
| `GenerateSanitisedData.SplitDataIntoArrays` | generate_sanitised_data.py:29-44 | same keys in the same order; each file's windows depend only on that file's samples |
| `GenerateSanitisedData.Average` | generate_sanitised_data.py:51-62 | the profile has `len(sublists[0])` elements, element `i` being the column sum over the window count |
| `GenerateSanitisedData.AverageFile` | generate_sanitised_data.py:51-62 | the running-sum buffer and the division pass compute exactly the column sums divided by the window count |
| `GenerateSanitisedData.CalculateElementAverages` | generate_sanitised_data.py:47-66 | succeeds iff every file has a window and no window longer than its first; then same keys in order, each the average of that file's windows; otherwise the `IndexError` names the first such file |
| `GenerateSanitisedData.WindowsAverageable` | generate_sanitised_data.py:34-51 | averaging a file's windows succeeds iff it has at least 128 samples, and the profile then has exactly 128 elements |
| `GenerateSanitisedData.ColumnSum` | generate_sanitised_data.py:57-59 | the running sum of column `i` over the windows; windows too short for column `i` add nothing, so it is 0 when all are |
| `GenerateSanitisedData.ColumnSumRepeat` | generate_sanitised_data.py:57-59 | summing a column over `k` copies of a window gives `k` times its entry |
| `GenerateSanitisedData.AverageOfIdenticalWindows` | generate_sanitised_data.py:57-62 | averaging `k >= 1` identical windows returns that window |
| `GenerateSanitisedData.ColumnSumBounds` | generate_sanitised_data.py:57-59 | column sums of samples in [0, 4095] lie in [0, 4095 times the window count] |
| `GenerateSanitisedData.AverageWithinSampleRange` | generate_sanitised_data.py:57-62 | averages of samples in [0, 4095] lie in [0, 4095] |
| `GenerateSanitisedData.FormatRow` | generate_sanitised_data.py:73 | `str(list)`: `[` first, `]` last, the elements joined by `", "` between them |
| `GenerateSanitisedData.RenderRow` | generate_sanitised_data.py:73 | one element text per profile entry, in order |
| `GenerateSanitisedData.SanitisedLines` | generate_sanitised_data.py:71-73 | one line per file in key order, each `str(profile)` followed by a newline |
| `Text.StripEnds` | generate_sanitised_data.py:20 | `str.strip()`, as `Text.Strip`: the result is no longer than the line and has no `str.isspace` character at either end |
| `Text.StripPadded` | generate_sanitised_data.py:20 | `str.strip()` of a token padded on both sides with whitespace gives the token back |
| `Text.StripBracketsEnds` | data_analysis.py:19 | `strip("[]")`, as `Text.StripBrackets`: the result is no longer than the text and has no bracket at either end |
| `Text.TrimLeftSpec` | generate_sanitised_data.py:20 | the leading strip removes exactly the longest prefix of stripped characters |
| `Text.TrimRightSpec` | generate_sanitised_data.py:20 | the trailing strip removes exactly the longest suffix of stripped characters |
| `Text.Split` | data_analysis.py:20 | `split` always yields at least one element |
| `Text.SplitThenJoin` | data_analysis.py:20 | joining the pieces of `split(sep)` with `sep` gives the string back, for every string |
| `Text.JoinLast` | generate_sanitised_data.py:73 | the joining inside `str(list)`: two or more element texts join as all but the last, the separator, then the last |
| `Text.JoinThenSplit` | generate_sanitised_data.py:73 | for one or more tokens, splitting `", ".join(toks)` on `", "` gives `toks` back when no token holds `", "` |
| `DataAnalysis.ParseLine` | data_analysis.py:19-20 | a line always parses to at least one element text |
| `DataAnalysis.StripWrittenLine` | data_analysis.py:19 | `strip()` removes exactly the newline from a written row |
| `DataAnalysis.StripBracketsOfRow` | data_analysis.py:19 | `strip("[]")` removes exactly the outer brackets when the content does not touch them |
| `DataAnalysis.RowRoundTrip` | data_analysis.py:19-20 | for one or more tokens, a line written as `str(list)` plus newline parses back to exactly its element texts, when none holds `", "` and the outer ones do not start or end with a bracket |
| `DataAnalysis.ConvertRow` | data_analysis.py:23 | the float conversion succeeds iff every element converts, and then gives one value per element, in order |
| `DataAnalysis.ImportSanitisedData` | data_analysis.py:17-25 | one row per line, in order, each the converted parse of its line; otherwise the `ValueError` names the first line that fails |
| `DataAnalysis.SanitisedFileRoundTrip` | data_analysis.py:17-23 | for non-empty profiles, the reader gets back, row for row, the profiles the writer wrote, when the text written for each value reads back as that value and holds no `", "` and no bracket at either end |
| `DataAnalysis.Min` | data_analysis.py:32 | `min` is an element of the row and at most every element |
| `DataAnalysis.Max` | data_analysis.py:33 | `max` is an element of the row and at least every element |
| `DataAnalysis.NormalizeRow` | data_analysis.py:32-34 | same length; every element in [0, 1]; an element is 0 iff it was the minimum and 1 iff it was the maximum |
| `DataAnalysis.NormalizeMonotone` | data_analysis.py:34 | normalisation keeps the order of any two elements |
| `DataAnalysis.NormalizeIdempotent` | data_analysis.py:32-34 | a normalised row can be normalised again and comes back unchanged |
| `DataAnalysis.NormalizeData` | data_analysis.py:28-37 | succeeds iff every row is non-empty and not constant; then same row count and row lengths, each row normalised; otherwise the error names the first bad row and says which kind |
| `DataAnalysis.PairsWith` | data_analysis.py:57-65 | the inner loop yields one result per experimental row, in order |
| `DataAnalysis.AllPairs` | data_analysis.py:56-65 | a pairwise comparator yields exactly `|T| * |E|` results |
| `DataAnalysis.AllPairsIndex` | data_analysis.py:56-65 | result `t*|E| + e` is the measure of theoretical row `t` against experimental row `e` |
| `DataAnalysis.AllPairsLayout` | data_analysis.py:56-65 | every pair has its result at `t*|E| + e` |
| `DataAnalysis.AllPairsAt` | data_analysis.py:56-65 | conversely, result `k` is the measure of theoretical row `k / |E|` against experimental row `k % |E|` |
| `DataAnalysis.Pairwise` | data_analysis.py:56-65 | the nested append loops produce exactly the pair enumeration: `|T| * |E|` results, result `t*|E| + e` from pair `(t, e)` |
| `DataAnalysis.Coherence` | data_analysis.py:53-67 | one mean coherence per pair, theoretical-major |
| `DataAnalysis.CrossCorrelation` | data_analysis.py:70-79 | one full correlation sequence per pair, theoretical-major |
| `DataAnalysis.DynamicTimeWarping` | data_analysis.py:82-97 | one Euclidean distance per pair, theoretical-major |
| `DataAnalysis.WaveletTransform` | data_analysis.py:110-125 | the per-row loop that appends each row's bands and re-flattens the bands so far leaves exactly the flattening of all rows' bands, in row order |
| `DataAnalysis.TwoBandLayout` | data_analysis.py:122 | flattening lists of two bands each gives two entries per list, list `r`'s at `2r` and `2r + 1` |
| `DataAnalysis.WaveletLevelOne` | data_analysis.py:110-125 | with two bands per row at level 1, the written list has two bands per row, row `r`'s approximation at `2r` and detail at `2r + 1` |
| `DataAnalysis.FormatKs` | data_analysis.py:159 | each `(statistic, p)` pair becomes `[statistic, p]`, same count and order |
| `DataAnalysis.FormatKsRoundTrip` | data_analysis.py:159 | the formatted rows have two entries each and read back as the original pairs |
| `DataAnalysis.KolmogorovSmirnovTest` | data_analysis.py:151-161 | `|T| * |E|` rows; row `t*|E| + e` is `[statistic, p]` of pair `(t, e)` |
| `DataAnalysis.CombinedData` | data_analysis.py:131 | the theoretical rows, then the experimental rows, nothing else |
| `DataAnalysis.KMeansClustering` | data_analysis.py:130-148 | the copied labels are the library's labels for the combined rows: one per row, in row order, each below the cluster count |

## Left out

- File and directory I/O: `glob`, `open`, `readlines`, the writes, `os.mkdir`
  and `write_results_to_file`. The listing becomes an input sequence of
  (file name, lines) in listing order. The sanitised file becomes its list of
  lines.
- `fourier_transform`: a single call, `np.abs(fft(data))`, whose result is
  written with `tolist`; it has no list logic of its own to state.
- `DataAnalysis.WaveletTransform`: `pywt.wavedec` is a function parameter, and
  `tolist` on a band is taken to give its values unchanged.
- The statistics are function parameters with no body: the `signal.csd`
  coherence, `signal.correlate`, `euclidean`, `ks_2samp` and `KMeans`. Their own
  errors are not modelled, such as `euclidean` on rows of unequal length. Their
  numerical meaning is not modelled either.
- `DataAnalysis.KMeansClustering`: requires that the clustering returns one
  label below 2 per input row. `KMeans(n_clusters=2).fit` gives this only when
  there are at least 2 rows; on fewer it raises, and that error is not
  modelled. No `random_state` is set, so the labels can differ between runs.
  The `kmeans` parameter stands for the labels of one run.
- Float text: `float(element)` is a parameter `string -> Option<real>` and
  `str` of a float is a parameter `real -> string`. Arithmetic is exact over
  reals, not IEEE floating point.
- `GenerateSanitisedData.Accepts`: only ASCII digits are modelled, so two
  behaviours of `str.isdigit` are missing. Non-ASCII decimal digits, such as
  Arabic-Indic ones, pass `isdigit` and `int()`, so the script keeps such
  lines; the model drops them. Digits that are not decimal, such as `'²'`, pass
  `isdigit` but make `int()` raise `ValueError`, which stops the script; the
  model drops those lines too.
- `GenerateSanitisedData.FilterSamples`, `GenerateSanitisedData.ExtractSamples`
  and `GenerateSanitisedData.ReadTextFiles`: recent Python versions limit
  `int()` to 4300 digits by default. A stripped line of more digits makes
  `int()` raise `ValueError`, which stops `read_text_files`. The model has no
  such limit: it reads the value, keeps the line when the value is at most
  4095 (which a run of leading zeros allows) and drops it otherwise.
- `GenerateSanitisedData.ReadTextFiles`: requires distinct file names. A
  directory listing provides this, so duplicates are not modelled.
- The top-level script statements, the literal theoretical data table and the
  directory paths.
