# Congress tweets sentiment: a verified model of the pipeline's rules

The repository has two parts. One is an offline ETL script. It scores tweets by members of the
US Congress with VADER, writes the scored batches to Parquet, flattens the account list, and
loads both into DuckDB. The other is a Streamlit dashboard that queries that database. This
project models the record-shaping and classification rules of both parts in Dafny and proves
what they guarantee.

- `Wrappers.dfy`: `Option` and `Result`.
- `Cells.dfy`: JSON values, which are also frame and table cells. It also holds date-times,
  ordered lexicographically, and the column set pandas builds a frame with.
- `Scoring.dfy`: one record scored (`analyze_sentiment`) as a function on values. The same
  operation is also a class `Tweet` whose method updates the dict in place. A batch is scored
  and then filtered.
- `Naming.dfy`: the output path of a batch file. This is the basename with every `.json`
  deleted, then `.parquet` appended, in the Parquet directory.
- `TweetIngestion.dfy`: the loop over the batch files, as a method proved equal to a function
  over the Parquet directory.
- `AccountIngestion.dfy`: the author frame with `NaN` and `"N/A"` normalised to `None`. Its
  nested loop, as methods, is proved equal to a flatten function. Lemmas give the row count,
  the row order and where each field comes from.
- `Warehouse.dfy`: the full-refresh load. It is a `Database` class whose `tables` map is changed
  statement by statement, proved equal to a `Load` function. The lemmas show that a load
  ignores prior tables and that loading twice is loading once.
- `Classification.dfy`: the sentiment `CASE` of the pies, the KPI counters, the year windows
  and the per-account counters.
- `Filters.dfy`: the sidebar options and the date and account-type filters built from them. It
  also has the `WHERE` clause of the per-party queries and the partition of a pie into slices.
- `Examples.dfy`: `format_tweet`, and the loop that renders example tweets until five succeed.

The things the program takes from libraries are parameters of the model:

- the VADER compound score is `score: Value -> real`;
- DuckDB's `STRPTIME(time, '%xT%X%z')` is `parse: string -> Option<DateTime>`;
- the `html` field of publish.twitter.com's oEmbed answer is `oembed: string -> Option<string>`.

The contents of a JSON file, as `json.load` returns them, are inputs: `None` when the load
raises. The database tables are values.

Two behaviours of the code are easy to assume otherwise:

- A malformed batch file does not just skip that batch. Its `json.load` raises and nothing
  catches it, so the whole loop ends. The files before it are already written
  (`TweetIngestion.IngestFailure`).
- Flattening does no deduplication. A sub-account listed twice gives two rows with the same
  id (`AccountIngestion.RepeatedSubAccountRepeated`).

## Model

| member | source | states |
|---|---|---|
| Cells.Columns | process_data.py:88 | the frame's columns are exactly the keys that occur in some author record |
| Scoring.Analyze | process_data.py:31-37 | the result is a record exactly when the input has `text`; then it has the input's keys plus `sentiment`, `sentiment` is the score of the text (any earlier value overwritten), and every other key keeps its value |
| Scoring.AnalyzeIdempotent | process_data.py:31-37 | scoring an already scored record gives the same record |
| Scoring.Tweet.AnalyzeSentiment | process_data.py:17-37 | the dict itself is returned when it has `text`, updated in place as `Analyze` says; otherwise the result is `None` and the dict is unchanged |
| Scoring.AnalyzeAll | process_data.py:64 | one result per record, in input order, each the record's `Analyze` |
| Scoring.ScoreBatch | process_data.py:64-65 | a batch keeps no more records than it read (the exact contents are `ScoreBatchExact`) |
| Scoring.DropNone | process_data.py:65 | filtering out `None` never lengthens the list |
| Scoring.ScoreBatchExact | process_data.py:64-65 | the k-th kept record is the scored k-th input record that has `text`, so each input yields at most one output |
| Scoring.ScoreBatchScored | process_data.py:64-65 | every kept record carries `sentiment`, equal to the score of its own text |
| Scoring.ScoreBatchLength | process_data.py:64-65 | a batch keeps at most as many records as it read, and exactly as many iff every record has `text` |
| Naming.Basename | process_data.py:69 | the basename is a suffix of the path with no `/`, and either the whole path or preceded by a `/` |
| Naming.DeleteJson | process_data.py:69 | deleting every `.json` never lengthens the name |
| Naming.OutputPath | process_data.py:69 | every output path starts with `./data/parquet/`, ends in `.parquet`, and has no `/` in between, so it lies directly in the Parquet directory |
| Naming.DeleteJsonNoJson | process_data.py:69 | a name without `.json` is left unchanged |
| Naming.DeleteJsonSuffix | process_data.py:69 | deleting `.json` from `X.json` gives `X` when `X` has no `.json` |
| Naming.DeleteJsonInfix | process_data.py:69 | a `.json` right after a prefix without one is deleted, and the scan goes on after it |
| Naming.OutputPathOfJsonFile | process_data.py:69 | a batch file whose basename is `X.json`, where `X` has no `.json`, is written to `./data/parquet/X.parquet` |
| Naming.InnerJsonDeleted | process_data.py:69 | every occurrence of `.json` is deleted, not only the extension: a batch file `a.json` + `b.json`, for any `a` and `b` without `/` or `.json`, is written to `./data/parquet/ab.parquet`; so `x.json.y.json` becomes `x.y.parquet` |
| Naming.OutputPathsCollide | process_data.py:57-69 | for every stem `x` without `/` or `.json`, the two different files `x.json` and `x.json.json` are written to the same output path; the glob finds both whenever `x` is non-empty and does not start with `.` |
| Naming.DeletionDoesNotRescan | process_data.py:69 | the deletion does not rescan its result: `.js.jsonon` becomes `.json` |
| TweetIngestion.Ingest | process_data.py:59-69 | a run never removes a Parquet file, and it fails iff some batch file does not load |
| TweetIngestion.LoadedPrefix | process_data.py:59-63 | the files before position n load, and the file at n, if any, does not |
| TweetIngestion.ProcessJsonTweets | process_data.py:59-69 | the loop leaves the Parquet directory and the failure that `Ingest` gives |
| TweetIngestion.IngestFailure | process_data.py:59-63 | the run fails exactly at the first file whose load raises, and succeeds when every file loads |
| TweetIngestion.IngestFailsIffUnloadable | process_data.py:59-63 | the run fails iff some file does not load |
| TweetIngestion.IngestPaths | process_data.py:59-69 | afterwards the directory holds its old files plus the outputs of the files loaded before any failure |
| TweetIngestion.IngestUntouched | process_data.py:59-69 | a file that no loaded batch is written to keeps its contents |
| TweetIngestion.IngestContents | process_data.py:59-69 | a loaded batch's output holds that batch's scored records, unless a later loaded file is written to the same path |
| TweetIngestion.ProcessedBatchWritten | process_data.py:57-69 | with the program's output naming, the two facts above for one batch file |
| AccountIngestion.Normalise | process_data.py:89-90 | a cell becomes `None` iff it is `None`, NaN or `"N/A"`; every other cell is unchanged |
| AccountIngestion.FrameRow | process_data.py:88-90 | an author's frame row has every frame column; a key it has holds its normalised value, and a key it lacks holds `None` |
| AccountIngestion.Frame | process_data.py:88-90 | one frame row per author, in order, over the union of all authors' keys |
| AccountIngestion.Field | process_data.py:96-98 | a sub-account lookup succeeds iff the sub-account is a dict with that key, and then gives its value |
| AccountIngestion.Column | process_data.py:99-103 | a frame lookup succeeds iff the frame has that column |
| AccountIngestion.MakeRow | process_data.py:95-104 | the appended row exists iff the sub-account is a dict with `id`, `screen_name` and `account_type` and the frame has the five author columns; it copies those eight values |
| AccountIngestion.SubAccounts | process_data.py:94 | a list cell yields its elements; any other cell that does not fail yields nothing |
| AccountIngestion.RowsOf | process_data.py:94-104 | one author's rows exist iff every sub-account gives a row; then there is one row per sub-account, in list order |
| AccountIngestion.FlattenRow | process_data.py:93-104 | an author without an `accounts` column fails with `KeyError`; its rows exist only if `accounts` is iterable; an empty list gives no rows |
| AccountIngestion.ProcessJsonAccounts | process_data.py:84-104 | the stage gives the flatten of the normalised frame of the loaded authors |
| AccountIngestion.FlattenLoop | process_data.py:93-104 | the nested loops give `Flatten` of the frame: its rows, or the first exception |
| AccountIngestion.FlattenFails | process_data.py:93-104 | the stage fails iff some author's rows fail |
| AccountIngestion.FlattenLength | process_data.py:93-104 | the row count is the sum of the authors' sub-account counts |
| AccountIngestion.FlattenAt | process_data.py:93-104 | the row of author i's j-th sub-account is at position (sub-accounts of authors before i) + j, and is made from that author and that sub-account |
| AccountIngestion.FlattenSkipsEmpty | process_data.py:93-94 | an author with an empty `accounts` list contributes no rows |
| AccountIngestion.SubAccountFieldsCopied | process_data.py:95-98 | for any frame, the row of author i's j-th sub-account has that sub-account's own `id`, `screen_name` and `account_type`, not normalised |
| AccountIngestion.AuthorFieldsNormalised | process_data.py:89-103 | in each row, `name`, `chamber`, `type`, `party` and `state` are the parent author's values, with missing, NaN and `"N/A"` read as `None` |
| AccountIngestion.NullAccountsAbort | process_data.py:89-94 | an author whose `accounts` cell ends as `None` aborts the whole stage |
| AccountIngestion.RepeatedSubAccountRepeated | process_data.py:93-104 | the same sub-account at any two positions, under one author or two, gives two rows in that order with the same `id`, `screen_name` and `account_type`, identical under one author: there is no deduplication |
| Warehouse.FirstMissing | process_data.py:164-189 | binding succeeds iff the file has every selected column; otherwise it reports a column the file lacks, and every selected column before it is present, so it is the first missing one |
| Warehouse.ParseTime | process_data.py:172 | `NULL` stays `NULL`; a string gives a timestamp iff it parses; any other value fails |
| Warehouse.TweetRow | process_data.py:166-172 | a row projects iff its time parses; the result has `account_id` = `user_id`, four columns copied, and `created_at` the parsed time |
| Warehouse.TweetRows | process_data.py:164-174 | the projection succeeds iff every row's does, and keeps row count and order |
| Warehouse.ProjectTweets | process_data.py:164-174 | the `tweets` select succeeds only when the file has all six source columns, and then keeps the row count; a binder error names a source column the file lacks |
| Warehouse.AccountSelect | process_data.py:179-188 | an accounts row has exactly the eight selected columns, copied |
| Warehouse.ProjectAccounts | process_data.py:177-189 | the `accounts` select succeeds iff the file has all eight columns, and then keeps the row count; otherwise it is a binder error naming a column the file lacks |
| Warehouse.Load | process_data.py:160-189 | other tables are untouched; `tweets` exists afterwards iff its statement succeeded, `accounts` iff the whole load did, and the load succeeds iff both selects do |
| Warehouse.AccountRecord | process_data.py:107-108 | a flattened account becomes a Parquet record with exactly the eight columns |
| Warehouse.Database.DropTableIfExists | process_data.py:160-161 | the named table is gone and the others are unchanged |
| Warehouse.Database.CreateOrReplaceTable | process_data.py:164-189 | the named table holds the new rows and the others are unchanged |
| Warehouse.Database.LoadDuckdb | process_data.py:157-189 | the statements leave the tables and error that `Load` gives for the old tables |
| Warehouse.LoadIgnoresPriorTables | process_data.py:160-189 | the result of a load does not depend on the previous `tweets` and `accounts` tables |
| Warehouse.LoadIdempotent | process_data.py:160-189 | loading twice from the same files is loading once |
| Warehouse.LoadedTweets | process_data.py:164-174 | after a successful load `tweets` has one row per source row, in order, with `account_id` the source `user_id` and `created_at` the parsed `time` |
| Warehouse.TweetsFailIff | process_data.py:164-174 | the `tweets` statement fails iff a column is missing or some row's time neither is `NULL` nor parses |
| Warehouse.LoadedAccounts | process_data.py:177-189 | after a successful load `accounts` holds each source row's eight columns, row for row |
| Warehouse.AccountsFile | process_data.py:107 | the accounts file has one record per flattened row, each with exactly the file's columns; it has no columns iff there are no rows |
| Warehouse.AccountsRoundTrip | process_data.py:177-189 | loading the accounts file written from the flattened rows gives those rows back, field for field |
| Warehouse.NoAccountsFailsLoad | process_data.py:177-189 | with no sub-accounts the file has no columns, and the `accounts` statement fails on `id` |
| Classification.PieLabel | app.py:172-176 | `positive` iff the score is at least 0.05, `negative` iff at most -0.05, `neutral` iff `NULL` or strictly between |
| Classification.Tally | app.py:36-39 | `count_total` is the group size, and the three counters together never exceed it |
| Classification.YearLabel | app.py:30-34 | the label is `2023`, `2022` or `N/A`; `2023` and `2022` only for timestamps of that year; a `NULL` timestamp is `N/A` |
| Classification.KpisByYear | app.py:28-45 | every KPI group is `2022` or `2023` and has at least one post |
| Classification.KpiPredicatesPartition | app.py:36-38 | the three KPI predicates are mutually exclusive and cover every non-null score; the pie CASE gives `positive` iff s >= 0.05, `negative` iff s <= -0.05, and otherwise `neutral` |
| Classification.NullScoreDisagreement | app.py:172-176 | a `NULL` score is a neutral pie slice but is counted by no KPI counter |
| Classification.TallyAddsUp | app.py:36-39 | `count_pos + count_neg + count_neu` is `count_total` less the `NULL` scores, so equal to it when no score is `NULL` |
| Classification.YearLabelExact | app.py:30-34 | the two windows are disjoint, so the CASE order does not matter; a row is `2023` or `2022` iff it lies in that window, else `N/A`, which the HAVING removes |
| Classification.YearGroupMembers | app.py:40-44 | a year group is non-empty iff some D or R post falls in its window |
| Classification.KpisByYearShape | app.py:28-45 | the KPI result has only the keys `2022` and `2023`, each present iff some D or R post falls in the window, and its counters add up |
| Classification.AccountNegative | app.py:458 | as written, every pie-negative and every pie-neutral score counts as negative, and a `NULL` never does |
| Classification.AccountNegativeOverlaps | app.py:458 | as written, a score counts as negative iff it is not pie-positive or is exactly 0.05; 0.05 is both positive and negative, and 0.0 is negative and neutral |
| Classification.AccountNegativeCorrectedAgrees | app.py:458-459 | the corrected negative counter counts exactly the pie's negatives and never a positive |
| Classification.CountPositive | app.py:248 | `count_positive` plus the `NULL` scores never exceeds the group size |
| Classification.CountNegative | app.py:458-459 | `count_negative` plus the `NULL` scores never exceeds the group size |
| Classification.CountNegativeOvercounts | app.py:453-481 | as written, `count_negative` is the pie's negatives plus its neutrals plus the scores at 0.05, and `count_positive + count_negative` exceeds the non-null count by the latter |
| Classification.PositiveIsKpi | app.py:248 | `count_positive` counts what the KPI `count_pos` counts |
| Classification.CountNegativeCorrectedPartition | app.py:458-459 | with the corrected rule, positives, negatives, neutrals and `NULL`s add up to the group size |
| Filters.BeginDate | app.py:76 | for a four-digit year the literal casts to midnight of 1 January of that year |
| Filters.EndDate | app.py:77 | for a four-digit year the literal casts to midnight of 31 December of that year |
| Filters.AccountTypesSql | app.py:78 | the spliced type list is exactly the quoted, comma-separated list of the admitted types |
| Filters.MembersOnlyNarrows | app.py:78 | members-only admits just `member`, which the full list contains, and drops `committee` |
| Filters.DateLiteral | app.py:89 | a date literal that casts gives midnight of a real calendar day |
| Filters.SliderYearsAreYears | app.py:669-673 | every slider year is four digits |
| Filters.DateBoundsOfYears | app.py:76-77 | for four-digit years the bounds are midnight of 1 January of the first year and midnight of 31 December of the last |
| Filters.InDateRange | app.py:89 | what the `BETWEEN` admits lies in the selected year range |
| Filters.Selected | app.py:88-90 | a selected post is of the queried party, has one of the four account types, and lies in the selected years |
| Filters.MembersOnlySelectsFewer | app.py:88-90 | whatever the members-only filter selects, the full filter selects too |
| Filters.InDateRangeExact | app.py:89 | as written, a valid timestamp is selected iff its year is in range and it is not later than midnight on 31 December of the last year |
| Filters.LastDayExcluded | app.py:77 | noon on 31 December of the last year is not selected, though its year is in range |
| Filters.InYearRangeExact | app.py:76-77 | the intended filter selects a valid timestamp iff its year is in range, and selects everything the as-written filter does |
| Filters.SliceCount | app.py:169-184 | a slice never counts more posts than the filter selects |
| Filters.SelectedCount | app.py:180-182 | the filter never selects more posts than there are |
| Filters.SlicesPartition | app.py:169-184 | a party's positive, negative and neutral slices count each selected post exactly once |
| Examples.FormatTweet | app.py:219-232 | the result fails iff no `embed_str` is given and the oEmbed lookup fails; with `embed_str` it is `<blockquote>`, the text, `</blockquote>` |
| Examples.Retrieve | app.py:425 | a retrieval is the oEmbed answer for the row's link; the row's text plays no part |
| Examples.FormatTweetBranches | app.py:219-232 | with `embed_str` the result needs no request and is the text in a block quote; without it the result fails iff the oEmbed lookup fails, and is otherwise the returned html |
| Examples.RenderedLength | app.py:422-431 | one html is rendered per successful retrieval |
| Examples.ShowExamples | app.py:422-431 | the loop visits the shortest prefix that has five successes, or all rows; the counter equals the successes in it, never exceeds five, and equals min(successes, 5) |
| Examples.Limit | app.py:286 | the example query returns at most 10 rows, a prefix of its ordered result |

## Left out

- VADER's `polarity_scores` is the parameter `score`. Whether its range is [-1, 1] is not used.
- `multiprocessing.Pool`: the scoring is a sequential, order-preserving map over copies of the
  records. The pool is never closed in the source; the model has no processes to close.
- File and JSON I/O is not modelled: `glob`, `open`, `json.load` and `to_parquet`. A batch is
  its path plus what `json.load` returned (`None` when it raises). A JSON file that is not a
  list of objects is not modelled. A `text` that is not a string is passed to `score`
  unchanged. `polarity_scores` raises on such a value; that error is not a `KeyError`, so it
  escapes the `except KeyError` (process_data.py:33) and `pool.map` (process_data.py:64), and
  ends the whole run. The model does not capture this abort.
- `aggregate_parquet_data` (`ParquetDataset(...).read()`, `write_table`) is not modelled. The
  load takes the consolidated tables as inputs. `AccountsFile` assumes the accounts file is
  passed through unchanged.
- `read_parquet_data` and `read_duckdb` are not modelled: they only log previews.
- Logging and console output are not modelled. Python dicts are maps, so key insertion order and the
  frame's column order are not modelled.
- `Scoring.Tweet.AnalyzeSentiment`: does not model that a missing `text` is also printed.
- `AccountIngestion.SubAccounts`: iterating a non-empty string or dict yields strings that the
  body then rejects. The model goes straight to that `TypeError`, whichever key the body looks
  up first.
- SQL engine semantics are not modelled: joins, `DISTINCT`, `ORDER BY`, `AVG`, `STRFTIME`
  grouping by month, and DuckDB's casts. A dashboard row is the joined `Post` or
  `ExampleRow`, taken as given. Time zones are not modelled: `DateTime` is one fixed zone.
- `Filters.DateLiteral`: accepts only the `YYYY-MM-DD` form. Other spellings DuckDB accepts are
  refused. For a literal that does not cast, DuckDB raises a conversion error for the whole
  query; the model's `InDateRange` admits nothing instead. The slider's four-digit years never
  produce such a literal (`Filters.DateBoundsOfYears`).
- `Examples.Limit`: keeps the first ten rows but does not model the `ORDER BY sentiment` and
  `DISTINCT` that choose them.
- Float arithmetic is not modelled: the KPI percentages and percentage changes, the
  `pct_positive` and `pct_negative` divisions, and rounding. The KPI display's `df.loc["2022"]`
  raises when a year group is missing; that display is not modelled, but
  `Classification.KpisByYearShape` says when the group exists.
- Streamlit, plotly and the HTTP request to publish.twitter.com are not modelled. The request
  is the parameter `oembed`.
- `Examples.FormatTweetBranches`: assumes the value `components.html` returns is truthy, so a
  rendered tweet counts as a success. The model returns the rendered html.
- `Examples.ShowExamples`: one method models all four retrieval loops (app.py:422-443 and
  app.py:631-652), which are the same code over different query results.

## Findings

| source | as written | input that shows it | evidently intended | confidence | as-written member | corrected member |
|---|---|---|---|---|---|---|
| app.py:458-459 | the per-account "negative" counter tests `sentiment <= 0.05` (also app.py:473-474) | a score of 0.0 counts as negative though the pie calls it neutral; a score of 0.05 counts as both positive (app.py:248) and negative | `sentiment <= -0.05`, the negative rule of the pie and the KPI counters | medium, not executed | Classification.CountNegativeOvercounts | Classification.CountNegativeCorrectedPartition |
| app.py:77 | `end_date` is `end_year-12-31`; in `BETWEEN` it casts to midnight at the start of that day (app.py:89) | a tweet at 12:00 on 31 December of the last selected year is not selected | every tweet of the selected years: up to, not including, midnight of 1 January after the last year | medium, not executed | Filters.LastDayExcluded | Filters.InYearRangeExact |
