# Stock price ingestion, modelled in Dafny

This project models the core of a daily stock price (OHLCV) ingestion
pipeline. The pipeline has three parts:

- **`DataValidator`** checks a downloaded row set. A schema gate produces
  hard errors: the row set is empty, columns are missing, or a column has the
  wrong dtype. A quality pass produces warnings: too few rows, negative
  prices or volume, high below low, missing values, repeated (ticker, date)
  keys, and date gaps longer than a week. A filter drops the rows the quality
  pass objects to.
- **`DuckDBStorage`** keeps the rows in one table `stock_prices` with primary
  key (ticker, date). An upsert first deletes the stored dates of the ticker
  between the least and the greatest date of the row set, then inserts every
  row. The store also answers queries: the last stored date of a ticker, the
  rows of a ticker in a window, the tickers present, and a per-ticker summary.
- **`IngestionPipeline.run`** handles each ticker in turn. It chooses the
  download window (incremental after the last stored date, or explicit, or
  the default), downloads, validates, filters when there are warnings, stores
  unless in validate-only mode, and counts. A ticker's failure is recorded
  and the next ticker still runs. The connection is closed on every exit
  path.

The files:

| file | module | contents |
|---|---|---|
| `wrappers.dfy` | `Wrappers` | `Option` and `Result` |
| `bars.dfy` | `Bars` | columns, rows (`Bar`), row sets (`Frame`), days, and sorting and min/max helpers |
| `validator.dfy` | `Validator` | schema gate, quality pass, `validate`, the row filter |
| `storage.dfy` | `Storage` | the table as a map from `Key(ticker, date)` to prices, the specification functions of each query, and the class `DuckDBStorage` |
| `pipeline.dfy` | `Pipeline` | the per-ticker step, the run as a function over the tickers, the class `IngestionPipeline`, and `RunPipeline` |

Each imperative operation of the source is a method. Its `ensures` ties its
result, and for stateful methods its new state, to a specification function.
The lemmas state what the source promises about those functions.

Modelling choices:

- A cell of a row is an `Option<int>`. `None` is a pandas NaN or a SQL NULL.
- A comparison with a NULL cell is false, as in pandas. So a NULL cell
  counts as neither negative nor "high below low".
- A column's dtype is modelled by three flags: numeric, string, and
  parseable as a date.
- A row set records its modelled columns and a flag for whether it has any
  other column. So a row set with rows but only unmodelled columns is not
  empty, as in pandas.
- A date is a day number.
- A column that is absent when the code looks it up by name raises
  `KeyError`. The model returns this as `Failure(KeyError)`.

## Model

| member | source | states |
|---|---|---|
| `Validator.ValidateSchema` | src/ingestion/validator.py:18-66 | The returned errors are `SchemaErrors(f)`, in report order: empty row set; then missing columns, ticker dtype, date dtype; then each non-numeric price or volume column. The gate is valid iff there are no errors. |
| `Validator.CheckNumeric` | src/ingestion/validator.py:50-57 | The loop reports exactly the present non-numeric columns among open, high, low, close, adj_close, volume, in that order. |
| `Validator.SchemaPassesIff` | src/ingestion/validator.py:18-66 | The gate reports no error iff all of these hold: the row set is non-empty, every required column is present, ticker is a string column, date parses, and every present numeric column is numeric. |
| `Validator.NumericErrorsEmpty` | src/ingestion/validator.py:50-57 | No dtype error iff every present checked column is numeric. |
| `Validator.SchemaEmpty` | src/ingestion/validator.py:30-32 | An empty row set (no rows, or no columns at all) gets exactly the single "empty" error. |
| `Validator.SchemaPassHasColumns` | src/ingestion/validator.py:30-37 | A row set that passes the gate has rows and every required column. |
| `Validator.ValidateDataQuality` | src/ingestion/validator.py:68-137 | The result is the quality specification. Empty row set: the single "empty" warning. Otherwise, in order: the row-count warning, negatives per price column, negative volume, high below low. A required column that is missing raises `KeyError`. Otherwise: nulls per required column, repeated keys, and gaps over 7 days. The pass is valid iff there are no warnings. |
| `Validator.CheckRanges` | src/ingestion/validator.py:88-106 | The loop reports the negative counts of each present price column, then negative volume, then high below low. |
| `Validator.CheckNulls` | src/ingestion/validator.py:108-113 | The loop reports one warning per required column that has NULLs, with its count. |
| `Validator.CheckSequence` | src/ingestion/validator.py:115-128 | The method reports the repeated-key count and the count of gaps over 7 days. |
| `Validator.CountZero` | src/ingestion/validator.py:88-113 | A counted condition has count 0 iff no row meets it, so a warning is raised exactly when some row is at fault. |
| `Validator.CountPermutation` | src/ingestion/validator.py:88-113 | Per-row counts do not depend on the row order. |
| `Validator.DuplicateCountKeys` | src/ingestion/validator.py:115-119 | `duplicated` counts the rows minus the distinct (ticker, date) keys. |
| `Validator.DuplicateCountZero` | src/ingestion/validator.py:115-119 | The duplicate count is 0 iff no two rows share a key. |
| `Validator.DuplicateCountPermutation` | src/ingestion/validator.py:115-119 | The duplicate count does not depend on the row order. |
| `Validator.PresentDatesCount` | src/ingestion/validator.py:121-126 | The non-NULL dates the gap check sorts are exactly the rows' dates, with multiplicity. |
| `Validator.DateGapCountPermutation` | src/ingestion/validator.py:121-128 | The gap count does not depend on the row order, because the dates are sorted first. |
| `Validator.GapCountZero` | src/ingestion/validator.py:121-128 | There is no gap warning iff consecutive sorted dates are at most 7 days apart. |
| `Validator.NegativeWarningsPermutation` | src/ingestion/validator.py:88-93 | The per-column negative warnings do not depend on the row order. |
| `Validator.NullWarningsPermutation` | src/ingestion/validator.py:108-113 | The null warnings do not depend on the row order. |
| `Validator.QualityPermutation` | src/ingestion/validator.py:68-137 | Reordering the rows leaves the whole quality result unchanged. |
| `Validator.MissingColumnRejected` | src/ingestion/validator.py:34-37 | A row set with rows but without some required column is not treated as empty. The gate reports the column missing. The quality pass raises `KeyError` (validator.py:109). So does the filter when the column is ticker, date or close (validator.py:199). |
| `Validator.InsufficientDataIff` | src/ingestion/validator.py:84-86 | For a non-empty row set with every column: the pass does not raise. It warns about too few rows iff there are fewer than the minimum. When it does, that warning comes first and carries the row count and the minimum. |
| `Validator.NegativeWarningsKind` | src/ingestion/validator.py:88-93 | Each negative warning names a present price column and carries its positive negative count. |
| `Validator.NullWarningsKind` | src/ingestion/validator.py:108-113 | Each null warning names a required column and carries its positive NULL count. |
| `Validator.NegativeWarningsEmpty` | src/ingestion/validator.py:88-93 | There are no negative warnings iff no row has a negative value in a present price column. |
| `Validator.NullWarningsEmpty` | src/ingestion/validator.py:108-113 | There are no null warnings iff no row has a NULL in a required column. |
| `Validator.ValidationOf` | src/ingestion/validator.py:139-167 | `validate` returns the schema errors. With schema errors, the quality warnings are just the single "skipped" warning. Otherwise they are the quality pass's warnings. Valid iff both lists are empty. |
| `Validator.Validate` | src/ingestion/validator.py:139-167 | The method's result is `ValidationOf`. |
| `Validator.FilterRanges` | src/ingestion/validator.py:184-196 | The loop keeps, in order, the rows passing the price, volume and high/low checks of the columns present. |
| `Validator.FilterInvalidRows` | src/ingestion/validator.py:169-205 | The result is the filter specification. An empty row set is returned as is. A missing ticker, date or close raises `KeyError`. Otherwise the rows passing every check are kept. |
| `Validator.SelectMultiset` | src/ingestion/validator.py:184-199 | Filtering keeps each passing row with its multiplicity and drops every other row. |
| `Validator.SelectIsSubsequence` | src/ingestion/validator.py:184-199 | Filtering keeps the original row order. |
| `Validator.SelectThen` | src/ingestion/validator.py:184-199 | Applying the masks one after another is the same as one mask with all the checks. |
| `Validator.SelectIdempotent` | src/ingestion/validator.py:184-199 | Filtering twice with the same checks is filtering once. |
| `Validator.SelectAppend` | src/ingestion/validator.py:184-199 | Filtering distributes over concatenated row sets. |
| `Validator.ChecksMeanClean` | src/ingestion/validator.py:184-199 | With every column present, a row passes all of the filter's checks iff it is clean. Clean means: all prices and volume at least 0, high at least low, and ticker, date and close not NULL. |
| `Validator.CleanIffNoDefect` | src/ingestion/validator.py:88-113 | A row is clean iff it has no NULL in a required column, no negative price or volume, and high is not below low. |
| `Validator.FilterKeepsExactlyClean` | src/ingestion/validator.py:169-205 | For a non-empty row set with every column: the filter succeeds and keeps the columns. It returns a subsequence of only clean rows, and keeps each clean row as many times as it occurs. |
| `Validator.FilterIdempotent` | src/ingestion/validator.py:169-205 | Filtering a filtered row set changes nothing. |
| `Validator.FilterEmpty` | src/ingestion/validator.py:179-180 | An empty row set passes through the filter unchanged. |
| `Validator.FilterKeepsAllIffClean` | src/ingestion/validator.py:169-205 | The filter keeps the row set unchanged iff every row is clean. |
| `Validator.NoDefectWarningsIffClean` | src/ingestion/validator.py:88-113 | For a row set with every column: no range warning and no null warning iff every row is clean. |
| `Validator.FilterAgreesWithQuality` | src/ingestion/validator.py:169-205 | The filter keeps everything iff the quality pass reports no range warning and no null warning. |
| `Bars.PresentDates` | src/ingestion/validator.py:121-126 | The dates the gap check sees are exactly the non-NULL dates of the rows. |
| `Bars.Sort` | src/ingestion/validator.py:123 | `sort_values('date')` gives an ascending permutation of the dates. |
| `Bars.AscendingUnique` | src/ingestion/validator.py:123 | Two ascending permutations of the same dates are equal, so the sorted order is determined. |
| `Bars.MinDay` | src/ingestion/storage.py:114 | The least date is a member of the set and at most every other member. |
| `Bars.MaxDay` | src/ingestion/storage.py:115 | The greatest date is a member of the set and at least every other member. |
| `Bars.SortedDays` | src/ingestion/storage.py:192 | `ORDER BY date` lists each date of the set once, strictly ascending. |
| `Storage.Tickers` | src/ingestion/storage.py:205 | The distinct tickers are exactly those with a stored row. |
| `Storage.SortedSymbols` | src/ingestion/storage.py:205 | `ORDER BY ticker` lists each ticker once, in strictly increasing lexicographic order. |
| `Storage.LastDate` | src/ingestion/storage.py:70-93 | None iff the ticker has no stored row. Otherwise it is a stored date of the ticker and no stored date of the ticker is later. |
| `Storage.TickerRows` | src/ingestion/storage.py:164-196 | Every returned row is a stored row of the ticker inside the window. The dates strictly ascend. Every stored date of the ticker inside the window is returned. |
| `Storage.WindowDays` | src/ingestion/storage.py:181-190 | A date is selected iff the ticker has a row on it and it satisfies each bound that is given. |
| `Storage.SummaryOf` | src/ingestion/storage.py:218-228 | For a stored ticker: the start date and the end date are stored dates, and every stored date lies between them. The row count is the number of its stored dates. |
| `Storage.DataSummary` | src/ingestion/storage.py:211-230 | There is one summary per stored ticker and none other. The summaries are ordered by ticker, and each is `SummaryOf` that ticker. |
| `Storage.SummariesFollow` | src/ingestion/storage.py:226-227 | The summaries follow the given tickers one for one. |
| `Storage.SummaryCountsAddUp` | src/ingestion/storage.py:218-228 | The row counts of the summary add up to the size of the table. |
| `Storage.SpanOf` | src/ingestion/storage.py:109-121 | The deleted span is the first row's ticker and the least and greatest present dates of the row set. There is no span when the first row has no ticker or there are no dates: the DELETE then compares with NULL. |
| `Storage.Without` | src/ingestion/storage.py:117-121 | The DELETE removes exactly the keys in the span and leaves every other row unchanged. |
| `Storage.RowsMap` | src/ingestion/storage.py:123-129 | The INSERT adds exactly the keys of the rows. |
| `Storage.RowsMapValues` | src/ingestion/storage.py:123-129 | With distinct keys, every row is stored under its own key. |
| `Storage.UpsertSpec` | src/ingestion/storage.py:95-137 | An empty row set returns 0 and changes nothing. A successful upsert of a non-empty row set returns its row count. Rows outside the span are untouched. A failed upsert leaves either the old table or the table after the DELETE. |
| `Storage.UpsertStoresSpanExactly` | src/ingestion/storage.py:113-133 | After a successful upsert, every row is stored under its key. Inside the span, a key is stored iff it is a row's key. |
| `Storage.UpsertStoresRows` | src/ingestion/storage.py:123-133 | After a successful upsert, every row of the row set is stored with its prices. |
| `Storage.UpsertSpanKeys` | src/ingestion/storage.py:113-129 | After a successful upsert, a key inside the span is stored iff it is a key of the row set. |
| `Storage.UpsertSucceeded` | src/ingestion/storage.py:113-133 | A successful upsert is the DELETE followed by an INSERT the table accepted. |
| `Storage.UpsertSucceedsOnUniqueKeys` | src/ingestion/storage.py:113-133 | For a row set of one ticker with every required column, keys present and no key repeated, a connected upsert succeeds and returns the row count: every row falls inside the deleted span, so no stored row can collide with it. With `UpsertSucceeded` this says exactly when such an upsert succeeds. |
| `Storage.UpsertIdempotent` | src/ingestion/storage.py:95-137 | For a row set of one ticker with every required column, keys present and no key repeated, the first upsert returns the row count, and upserting it again returns the same count and leaves the same table. |
| `Storage.DeleteAfterUpsert` | src/ingestion/storage.py:113-121 | After a successful upsert whose rows all carry the first row's ticker, deleting the span again gives the table the first DELETE left. (With rows of several tickers this does not hold: the span covers only the first row's ticker, so the other tickers' rows stay.) |
| `Storage.UpsertRejectsRepeatedKey` | src/ingestion/storage.py:55 | Two rows with one key make the INSERT fail on the primary key, and the deletion stays. |
| `Storage.UpsertRejectsStoredKey` | src/ingestion/storage.py:55 | A row whose key is stored outside the deleted span makes the INSERT fail, and the deletion stays. |
| `Storage.UpsertNeedsKeyColumns` | src/ingestion/storage.py:109-115 | A non-empty row set without a ticker or date column raises before any statement runs, and the table is unchanged. |
| `Storage.UpsertClosed` | src/ingestion/storage.py:105-121 | On a closed store the table never changes. The upsert succeeds iff the row set is empty. |
| `Storage.BulkSpec` | src/ingestion/storage.py:139-162 | The result maps exactly the given tickers. |
| `Storage.BulkCounts` | src/ingestion/storage.py:149-162 | With distinct tickers, each ticker maps to the count of its own upsert: 0 for a missing row set or a raised error. The upsert runs on the table the earlier items left. |
| `Storage.BulkClosed` | src/ingestion/storage.py:149-162 | On a closed store the table is unchanged and every count is 0. |
| `Storage.DuckDBStorage.constructor` | src/ingestion/storage.py:16-25 | A new store is not connected and holds the given table. |
| `Storage.DuckDBStorage.Connect` | src/ingestion/storage.py:27-38 | When already connected: stays connected and returns the connection. Otherwise connected iff the database opens, and failure is `ConnectFailed`. The table is unchanged. |
| `Storage.DuckDBStorage.Close` | src/ingestion/storage.py:232-237 | Disconnects and keeps the table. |
| `Storage.DuckDBStorage.GetLastDate` | src/ingestion/storage.py:70-93 | Returns `LastDate` when connected, else raises `NotConnected`. |
| `Storage.DuckDBStorage.UpsertData` | src/ingestion/storage.py:95-137 | The result and the new table are those of `UpsertSpec`. |
| `Storage.DuckDBStorage.BulkUpsert` | src/ingestion/storage.py:139-162 | The counts and the new table are those of `BulkSpec`. |
| `Storage.DuckDBStorage.QueryTickerData` | src/ingestion/storage.py:164-196 | Returns `TickerRows` when connected, else raises `NotConnected`. |
| `Storage.DuckDBStorage.GetAvailableTickers` | src/ingestion/storage.py:198-209 | When connected: exactly the stored tickers, each once, in ascending order. Else raises `NotConnected`. |
| `Storage.DuckDBStorage.GetDataSummary` | src/ingestion/storage.py:211-230 | Returns `DataSummary` when connected, else raises `NotConnected`. |
| `Pipeline.Cleaned` | src/ingestion/pipeline.py:115-116 | After the schema gate, the filter does not raise. It keeps the columns and only clean rows. |
| `Pipeline.StoreStep` | src/ingestion/pipeline.py:118-133 | Storing never skips a ticker and records the quality warning it was given. A failure records exactly one error, and a success none. No rows left: the ticker fails with "all rows filtered" and the table is unchanged. In validate-only mode, nothing is stored and 0 rows are counted. Otherwise the table is the upsert's, the ticker is processed iff the upsert succeeds, it counts every row of the row set, and a failure records the upsert's error. |
| `Pipeline.RecordWarningsFirst` | src/ingestion/pipeline.py:110-113 | Recording the quality warning before the rest of the step gives the same report. |
| `Pipeline.WindowStartChoice` | src/ingestion/pipeline.py:72-85 | An explicit start wins. Otherwise, in incremental mode with stored data, the window starts the day after the last stored date. Otherwise it starts at the default start. |
| `Pipeline.IncrementalStartsAfterHistory` | src/ingestion/pipeline.py:75-80 | An incremental download without an explicit start begins after every stored date of the ticker. |
| `Pipeline.StepShape` | src/ingestion/pipeline.py:94-140 | A ticker is skipped iff its "no data" warning is recorded, and a skip changes nothing else. A failure records exactly one error. A success records none. Each adds at most one warning. |
| `Pipeline.ValidateOnlyStep` | src/ingestion/pipeline.py:125-131 | In validate-only mode a ticker never changes the table and counts 0 rows. |
| `Pipeline.SchemaFailureStoresNothing` | src/ingestion/pipeline.py:99-108 | A download that fails the schema gate fails the ticker with its errors and stores nothing. |
| `Pipeline.CleanClashSurvives` | src/ingestion/validator.py:169-205 | Two clean rows with the same key both survive the filter. |
| `Pipeline.RepeatedKeyWarns` | src/ingestion/validator.py:115-119 | On a non-empty row set that has all eight required columns, a repeated key always draws a quality warning. Without them the quality pass raises `KeyError` instead. |
| `Pipeline.RepeatedKeyFailsAfterDelete` | src/ingestion/pipeline.py:110-140 | Outside validate-only mode, a non-empty download that passes the schema check and holds two clean rows on one key fails the ticker with the primary-key violation. The stored rows of the span are deleted and nothing is inserted. |
| `Pipeline.StepNoDataCount` | src/ingestion/pipeline.py:94-97 | A ticker adds one "no data" warning iff it is skipped. |
| `Pipeline.RunCountsAddUp` | src/ingestion/pipeline.py:54-140 | Processed plus failed plus skipped tickers equals the number of tickers, and there is one error per failed ticker. |
| `Pipeline.ValidateOnlyStoresNothing` | src/ingestion/pipeline.py:125-131 | A validate-only run leaves the table unchanged and inserts 0 rows. |
| `Pipeline.ConnectFailureReport` | src/ingestion/pipeline.py:159-163 | When the connection fails, the report holds only the fatal error, with zero counts, and the table is unchanged. |
| `Pipeline.StoreStepStoresRows` | src/ingestion/pipeline.py:125-133 | Outside validate-only mode, a stored ticker counts exactly the rows of its row set, and each of them is stored under its key with its prices. |
| `Pipeline.StepStoresCountedRows` | src/ingestion/pipeline.py:88-133 | A ticker processed outside validate-only mode counts the rows of its download, or of the filtered download, and all of those rows are stored. |
| `Pipeline.RunReportSplit` | src/ingestion/pipeline.py:54-140 | The report of a run over `a + b` is the report over `a` combined with the report over `b` run on the table `a` left. Processed, failed and inserted-row counts add up, and errors and warnings concatenate. So `total_rows_inserted` is the sum of the per-ticker counts. |
| `Pipeline.RunLoopSplit` | src/ingestion/pipeline.py:67-140 | Running over `a + b` leaves the same table as running over `a` and then over `b`. |
| `Pipeline.IngestionPipeline.constructor` | src/ingestion/pipeline.py:19-29 | The pipeline keeps its mode, store, settings and downloader. |
| `Pipeline.IngestionPipeline.StoreRows` | src/ingestion/pipeline.py:118-133 | The report and the new table are those of `StoreStep`, and the store stays connected. |
| `Pipeline.IngestionPipeline.ProcessTicker` | src/ingestion/pipeline.py:68-140 | The report and the new table are those of `TickerStep` on the table before the ticker. |
| `Pipeline.IngestionPipeline.FilterStage` | src/ingestion/pipeline.py:110-116 | With no warning, the rows are kept and nothing is recorded. Otherwise the filtered rows are kept and one quality warning is recorded. |
| `Pipeline.IngestionPipeline.CheckAndStore` | src/ingestion/pipeline.py:99-133 | The report and the new table are those of `CheckedStep`. |
| `Pipeline.IngestionPipeline.Run` | src/ingestion/pipeline.py:31-169 | The connection is closed afterwards. The report and the table are those of `RunSpec`, which runs the loop when the store connects and otherwise records the fatal error. |
| `Pipeline.RunPipeline` | src/ingestion/pipeline.py:188-214 | Builds a pipeline and runs it, with the same result as `Run`. |

## Left out

- Logging, including the error log, and every message text. Messages are tags that carry the counts and the ticker.
- The run's duration (src/ingestion/pipeline.py:143-157): it needs the wall clock.
- The `created_at` column and the summary's `last_updated` (src/ingestion/storage.py:54, 224): they need the wall clock.
- Dates are day numbers. The string formatting, parsing and `timedelta` arithmetic of the window are not modelled.
- Prices are integers. The source's floating-point values are not modelled, and a NaN is a NULL cell. Because every cell is an integer or NULL, the model has no INSERT that fails on a value DuckDB cannot cast to DOUBLE or BIGINT; such a failure, which would also leave the DELETE in place, is not modelled.
- dtypes are three flags per column. A comparison that would raise `TypeError` on a non-numeric column is not modelled.
- The downloader (`StockDataDownloader`, with its retries and the network) is a function parameter `fetch` that returns an optional row set. An exception from it inside the loop is not modelled. Because `fetch` is a function, two calls with the same ticker and window return the same row set; the real downloader's result can differ from one call to the next (network state, retries), so the model does not capture a download that changes between runs.
- Whether the database opens is a boolean parameter. `_initialize_schema` and its index creation are taken to succeed once connected.
- Settings (default window, minimum row count, database path) are parameters, not module globals read at import time.
- `validate(None)` and `upsert_data(None)` are not modelled: a row set is always a value. An empty one is modelled.
- `IngestionPipeline.get_summary` (src/ingestion/pipeline.py:171-185) is not modelled. It only opens the store, calls `get_data_summary`, and closes the store.
- The context manager `__enter__`/`__exit__` (src/ingestion/storage.py:239-245) is not modelled: it wraps `connect` and `close`, which are modelled.
- Inside the run, the filter is reached only after the schema gate, so the filter's `KeyError` path cannot happen there. It is modelled on `FilterInvalidRows` alone.
- The run's outer `try`: the only exception modelled there is the failed connection. The per-ticker `try` catches the upsert's errors.
- Concurrency and the database file shared between processes are not modelled.
