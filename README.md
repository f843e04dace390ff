# Montana inbound migration: a verified model

The system reads a survey table of people who moved into Montana counties,
one row `(county, originState, inboundFromState)` per county and place of
origin, plus a list of US state names. It drops the rows whose origin is
Montana itself. Then it produces three reports:

- the **overall table**: one line per origin, with the total count, ranked by count;
- the **county summary**: one line per county, with its total and its split into
  internal migration (origin in the state list) and external migration (any
  other origin), each with its percentage, ranked by total;
- one **detail file per county**: its rows, each with its share of the county
  total, ranked by count, in a file named `<rank>-<county>.csv`.

A separate script, `sum_inbound`, re-reads a written table and re-sums its
`inboundFromState` column. It skips cells that do not parse. It returns
status 2 when the file is missing, 3 when the header lacks the column and 0
after summing. An empty file has no header at all: the column test then
raises, and the process exits with status 1.

The model treats the data as `seq<Row>` with unbounded `int` counts. Modules
follow the program's stages:

| module | file | models |
|---|---|---|
| `Wrappers` | wrappers.dfy | `Option` |
| `Text` | text.dfy | `strip`, `lower`, `replace`, `str(n)` and the decimal branch of `int(s)`, ASCII only |
| `Seqs` | seqs.dfy | sums, `unique()` order, boolean-mask selection, sums under reordering |
| `Ranker` | ranker.dfy | `sort_values(..., ascending=False)` |
| `Loader` | loader.dfy | `load_data` and its Montana filter |
| `Aggregator` | aggregator.dfy | `analyze_overall_migration`, `analyze_migration_by_county` |
| `DetailReporter` | detail.dfy | `analyze_by_county_detail` |
| `Verifier` | verifier.dfy | `parse_int`, `sum_inbound` |
| `Pipeline` | pipeline.dfy | `main()`, and re-summing the written overall table |

The two loops in `analyze_migration_by_county` and `analyze_by_county_detail`
are methods with `while` loops. So is the counting loop of `sum_inbound`.
Each method is proved against a specification function: `CountySummaries`,
`SummaryOf`, `DetailRowsOf`, `Skipped` and `ParsedTotal`. Lemmas then prove
what the source promises about those functions. The pandas pipelines
(filter, group and sum, sort) are functions.

Sorting is worth a note. pandas' `sort_values` uses quicksort by default, so
the order of equal keys is not fixed. The model sorts by insertion but claims
only a permutation in non-increasing order. `Ranker.SortedPermutationsAgree`
proves that this pins down the sequence of keys, so only the tie order is
left open. A stable sort would keep ties in first-appearance order, but
pandas' default quicksort does not promise that, so the model does not
claim it.

The code writes one detail line per row of the county (line 102 of
`analyze_inbound_migration.py`), not one per distinct origin, so the model
keeps every row, repeated (county, origin) pairs included.

## Model

| member | source | states |
|---|---|---|
| Loader.ExcludeDestination | analyze_inbound_migration.py:12 | The kept rows are exactly the rows whose trimmed, lower-cased origin is not `montana`, each with its multiplicity. They form a subsequence of the input, in its order. |
| Loader.PaddingIgnored | analyze_inbound_migration.py:12 | Whitespace around an origin name never changes whether the row is filtered. |
| Loader.PaddedUpperCaseIsDestination | analyze_inbound_migration.py:12 | `MONTANA` with any whitespace around it is recognised as Montana. |
| Loader.DestinationLength | analyze_inbound_migration.py:12 | The whole stripped name is compared: anything recognised as Montana has, once stripped, exactly the length of `montana`. |
| Loader.LongerNameIsNotDestination | analyze_inbound_migration.py:12 | So `Montana City` is kept. |
| Loader.LoadStates | analyze_inbound_migration.py:8-9 | One entry per line of the states file. Each entry is its line with only surrounding whitespace cut off, and it neither starts nor ends with whitespace. |
| Loader.LoadData | analyze_inbound_migration.py:4-14 | Loading keeps exactly the non-Montana rows, with their multiplicities and in their order, and reads one state per line, each its line stripped. |
| Text.Strip | analyze_inbound_migration.py:9 | The result neither starts nor ends with whitespace, and it is the input with only whitespace cut off either end. |
| Text.StripPadding | analyze_inbound_migration.py:9 | `strip()` removes exactly the whitespace padding around a word. |
| Text.Lower | analyze_inbound_migration.py:12 | Each capital `A`-`Z` becomes its small letter and every other character is kept, so no capital is left. |
| Text.ReplaceChar | analyze_inbound_migration.py:116 | Every `from` becomes `to`, every other character is kept, and the length is unchanged. |
| Text.DecimalText | analyze_inbound_migration.py:116 | `str(n)` is non-empty, has no surrounding whitespace, and is digits, preceded by `-` exactly when `n` is negative. |
| Text.ParseIntLiteralAccepts | scripts/sum_inbound.py:10 | `int(s)` succeeds exactly when `s`, with `int()`'s whitespace cut off, is an optionally signed non-empty run of digits; the sign decides the sign of the value. |
| Text.SeparatorNotSkippedByInt | scripts/sum_inbound.py:10 | `int()` does not skip the separator U+001C that `strip()` removes: `"\x1c5"` strips to `5` but does not parse. |
| Text.DecimalTextRoundTrip | scripts/sum_inbound.py:10 | `int(str(n)) == n` for every integer `n`. |
| Seqs.Distinct | analyze_inbound_migration.py:43 | `unique()`: no duplicates, the same members as the input, in order of first appearance. |
| Seqs.Filter | analyze_inbound_migration.py:46 | A mask selection keeps exactly the matching elements with their multiplicities, as a subsequence. |
| Seqs.SumByPermutation | analyze_inbound_migration.py:28 | Reordering rows never changes a column sum. |
| Aggregator.RowsWith | analyze_inbound_migration.py:46 | `df[df[key] == k]` keeps exactly the rows whose key is `k`, with their multiplicities, as a subsequence. |
| Aggregator.GroupByOrigin | analyze_inbound_migration.py:25 | Each origin appears once. Each value is the total of that origin's rows. The values add up to the total of all rows. |
| Aggregator.GroupByOriginCovers | analyze_inbound_migration.py:25 | Every origin of the rows has a group, and every group is an origin of the rows. |
| Aggregator.GroupByOriginOrder | analyze_inbound_migration.py:25 | With `sort=False`, the groups come in order of first appearance. |
| Aggregator.SumAcrossTotal | analyze_inbound_migration.py:25 | Regrouping conserves the total. When every row's key is among distinct keys, the group totals add up to the total of all rows. |
| Aggregator.OverallMigration | analyze_inbound_migration.py:28 | The origin table is a permutation of the grouped table, in non-increasing count order, with the total conserved. |
| Aggregator.SumsSelect | analyze_inbound_migration.py:52-59 | The internal running sum is the total of the rows whose origin is in the state list; the external one is the total of the others. |
| Aggregator.SplitIsTotal | analyze_inbound_migration.py:52-61 | Each row is internal or external and never both, so internal plus external is the county total. |
| Aggregator.Percent | analyze_inbound_migration.py:64-65 | Without a positive total the share is 0. |
| Aggregator.PercentScales | analyze_inbound_migration.py:64-65 | With a positive total, a share times the total is the part times 100. With no positive total, the share is 0. |
| Aggregator.PercentAdditive | analyze_inbound_migration.py:64-65 | Shares of one total add up like their parts. |
| Aggregator.PercentOfWhole | analyze_inbound_migration.py:64-65 | A positive total is 100 percent of itself. |
| Aggregator.Summarize | analyze_inbound_migration.py:49-74 | The internal part is the sum over rows whose origin is a state, the external part the sum over the others, and together they make the total of the county's rows. Each percentage is its part's share of that total. With a positive total the two add to exactly 100; otherwise both are 0. |
| Aggregator.SplitByMembership | analyze_inbound_migration.py:49-61 | One pass over a county's rows leaves in the two accumulators the internal and external sums (exact membership in the state list), which add up to the county total. |
| Aggregator.CountyTable | analyze_inbound_migration.py:43-74 | Before ranking there is one entry per distinct county, each summarising exactly that county's rows. |
| Aggregator.CountyTableCovers | analyze_inbound_migration.py:43 | Every county of the rows has an entry, and every entry is a county of the rows. |
| Aggregator.CountyTableOrder | analyze_inbound_migration.py:43 | Before ranking, entries come in order of the counties' first appearance. |
| Aggregator.CountyTableGrandTotal | analyze_inbound_migration.py:61-69 | The county totals add up to the grand total of all filtered rows. |
| Aggregator.RankingKeepsSummaries | analyze_inbound_migration.py:78 | Any reordering of the county table still has one entry per county, each that county's summary and each a county of the rows. |
| Aggregator.AnalyzeMigrationByCounty | analyze_inbound_migration.py:37-78 | For a table with rows, the ranked summary is a permutation of the county table in non-increasing total order. It has one entry per county of the rows, each the summary of that county's rows. |
| Ranker.SortDescending | analyze_inbound_migration.py:78 | The result is a non-increasing permutation of the input. |
| Ranker.SortedPermutationsAgree | analyze_inbound_migration.py:113 | Any two non-increasing permutations of the same rows carry the same key at every position, so only the tie order is unspecified. |
| Ranker.PermutationKeepsKeysDistinct | analyze_inbound_migration.py:78 | Reordering a table with one entry per key keeps one entry per key. |
| DetailReporter.DetailOf | analyze_inbound_migration.py:103-110 | A detail line keeps its row's origin and count; without a positive county total its share is 0. |
| DetailReporter.DetailShare | analyze_inbound_migration.py:105 | With a positive county total, a line's share times the total is its count times 100. |
| DetailReporter.DetailRowsTotal | analyze_inbound_migration.py:99-110 | The detail lines carry exactly the county's counts, so their sum is the recomputed county total. |
| DetailReporter.SharesAddUp | analyze_inbound_migration.py:105 | The shares of the detail lines add up to the share of their summed counts. |
| DetailReporter.DetailSharesSumToHundred | analyze_inbound_migration.py:105 | In a detail file, the shares add to 100 when the county total is positive and are all 0 otherwise. |
| DetailReporter.CountyDetail | analyze_inbound_migration.py:95-116 | For a county that has rows, the lines are a permutation of the county's rows, ranked by count. Their counts add to the county total, each share is against that total, and the name follows the rank rule. |
| DetailReporter.AnalyzeByCountyDetail | analyze_inbound_migration.py:90-119 | For ranked counties that all have rows: one file per ranked county. The file at position `i` has rank `i + 1` and that county's detail. All file names differ. |
| DetailReporter.Filename | analyze_inbound_migration.py:116 | The name is the rank's digits, a dash, the county with each capital lower-cased and each space turned into `-`, then `.csv`. So it has no spaces and no capitals. |
| DetailReporter.FilenameKeepsRank | analyze_inbound_migration.py:116 | The digits before the first `-` of a name parse back to its rank. |
| DetailReporter.DistinctRanksDistinctFilenames | analyze_inbound_migration.py:116 | Different ranks give different names, whatever the county names. |
| DetailReporter.RankedFilenamesDistinct | analyze_inbound_migration.py:93-116 | Files named by ranks 1..n all have different names. |
| Verifier.ParseInt | scripts/sum_inbound.py:8-15 | A decimal literal gives its value; otherwise the float fallback decides. The result is `None` exactly when both fail, so it never raises. |
| Verifier.ParseIntDecimal | scripts/sum_inbound.py:8-15 | `parse_int(str(n)) == n`, whatever the float fallback does. |
| Verifier.Cell | scripts/sum_inbound.py:35 | A record's own cell is read as it is; a record without the column gives the empty text, which does not parse as an integer. |
| Verifier.ParseCell | scripts/sum_inbound.py:8-15 | A `None` cell from a short row never parses, because `int(None)` and `float(None)` both raise and are caught. A text cell is `parse_int` of its text. |
| Verifier.ParsedTotal | scripts/sum_inbound.py:33-39 | The sum of the values of the cells that parse. It is 0 when every cell is skipped, and never negative when no parsed value is. |
| Verifier.Skipped | scripts/sum_inbound.py:33-38 | The skip count never exceeds the number of rows. |
| Verifier.CountsConcat | scripts/sum_inbound.py:33-39 | The skip count and the total over two runs of rows add up. |
| Verifier.BadCellIsSkipped | scripts/sum_inbound.py:35-39 | A bad cell anywhere adds one to the skip count and nothing to the total, and changes nothing else. |
| Verifier.SumInbound | scripts/sum_inbound.py:18-45 | A missing file gives not found. An empty file raises. A header without the column gives missing column. Otherwise, `rows` is the number of records, `skipped` the cells that do not parse and `total` the sum of those that do. |
| Verifier.ExitStatus | scripts/sum_inbound.py:19-51 | Each outcome has its own status: 0 after summing, 1 for the uncaught error of an empty file, 2 for a missing file, 3 for a missing column. |
| Pipeline.RunAnalysis | analyze_inbound_migration.py:124-138 | When some row survives the filter: the origin table is the ranked grouping and the county summary is a ranking of the county table. There is one detail file per ranked county, with rank `i + 1`, lines adding up to that county's `totalMigration`, and the full detail of that county: its lines are a permutation of its rows ranked by count, each with its share. All names differ, and every county is covered. |
| Pipeline.EveryCountyRanked | analyze_inbound_migration.py:93 | Every county of the filtered rows is in the ranked summary. |
| Pipeline.WrittenCountsResum | scripts/sum_inbound.py:33-39 | Counts written as decimal text are read back with nothing skipped and their sum recovered. |
| Pipeline.VerifierRoundTrip | scripts/sum_inbound.py:29-39 | Re-summing the written origin table finds the column, skips nothing, reads one row per origin, and gets back the total of the filtered rows. |

## Left out

- Files and the filesystem: `read_csv`, `open`, `mkdir`, `to_csv`, `csv.DictReader`, `path.exists()`, `sys.argv` and `sys.exit`. Inputs are sequences, and the verified file is a presence flag, a header and a sequence of records.
- All printing and progress output.
- Floating point: percentages are exact rationals, and `round(..., 2)` is not modelled.
- Verifier.ParseInt: the fallback `int(float(value))` is a parameter about which nothing is assumed, because float parsing and truncation are out of scope.
- Text.ParseIntLiteral: `int()` is modelled for ASCII decimal literals only. Underscore separators, non-ASCII digits and non-ASCII whitespace are not accepted, because Unicode tables are out of scope.
- Text.Strip and Text.Lower: the model handles ASCII whitespace and the letters `A`-`Z` only, with no Unicode case folding.
- Missing values (NaN) in the survey table, and how pandas' group-by drops them: counts are plain integers.
- Which of several tied rows comes first after a sort, because the source's quicksort does not fix it.
- Integer width: counts are unbounded integers, matching Python's `int`. pandas' `int64` overflow is not modelled.
- The cross-tab and top-N total reports: neither source file implements them.
- Verifier.SumInbound: an empty file makes `'inboundFromState' not in None` raise an uncaught `TypeError`. It is modelled as the outcome `HeaderUnavailable`, with exit status 1.
- Aggregator.AnalyzeMigrationByCounty and Pipeline.RunAnalysis: a filtered table with no rows is excluded by their preconditions. The source raises `KeyError` there when it sorts the empty summary frame (line 78). Before that, `analyze_overall_migration` has already written an empty origin table, and the model does not capture that partial output.
- DetailReporter.CountyDetail: a county with no rows, for which the source's sort raises `KeyError`, is excluded by its precondition. The analysis only passes counties of the table, and `Pipeline.RunAnalysis` discharges that precondition.
