/**
  The ingestion run (`IngestionPipeline.run`): for each ticker, choose the
  download window, fetch, validate, filter, store and count; a ticker's
  failure is recorded and the next ticker still runs; the connection is
  released on every exit path.

  The download is a function from (ticker, first day, last day) to an
  optional row set, standing for whatever the data provider returns. The
  outcome of opening the database is a parameter.
*/
module Pipeline {
  import opened Wrappers
  import opened Bars
  import opened Validator
  import opened Storage

  /** The settings the run reads: default window and minimum row count. */
  datatype Settings = Settings(defaultStart: Day, defaultEnd: Day, minDataPoints: nat)

  /** A message of the run's report, as a tag with the ticker it concerns. */
  datatype Message =
    | NoData(ticker: Symbol)
    | SchemaFailed(ticker: Symbol, errors: seq<SchemaError>)
    | QualityIssues(ticker: Symbol, warnings: seq<Warning>)
    | AllRowsFiltered(ticker: Symbol)
    | PipelineError(ticker: Symbol, error: StoreError)
    | FatalError(error: StoreError)

  /** The report `run` returns, without the wall-clock duration. */
  datatype Report = Report(processed: nat, failed: nat, rowsInserted: nat, errors: seq<Message>, warnings: seq<Message>)

  const EmptyReport := Report(0, 0, 0, [], [])

  /** The arguments of one run, and the download function it calls. */
  datatype Params = Params(
    incremental: bool,
    start: Option<Day>,
    end: Option<Day>,
    validateOnly: bool,
    settings: Settings,
    fetch: (Symbol, Day, Day) -> Option<Frame>)

  // ---------------------------------------------------------------------
  // One ticker
  // ---------------------------------------------------------------------

  /**
    The first day to download: an explicit start wins; otherwise, in
    incremental mode, the day after the last stored date when there is one;
    otherwise the default start.
  */
  function WindowStart(p: Params, table: Table, t: Symbol): Day {
    if p.incremental && p.start.None? then
      var last := LastDate(table, t);
      if last.Some? then last.value + 1 else p.settings.defaultStart
    else if p.start.Some? then p.start.value
    else p.settings.defaultStart
  }

  /** The last day to download: the explicit end, or the default end. */
  function WindowEnd(p: Params): Day {
    if p.end.Some? then p.end.value else p.settings.defaultEnd
  }

  /** How a ticker ends: nothing downloaded, failed, or processed having stored `rows` rows. */
  datatype Outcome = Skipped | Failed | Processed(rows: nat)

  /** What one ticker adds to the report, and the table it leaves. */
  datatype Step = Step(outcome: Outcome, errors: seq<Message>, warnings: seq<Message>, table: Table)

  /** The rows kept by the filter, for a row set the schema gate accepted. */
  function Cleaned(f: Frame): (g: Frame)
    requires SchemaErrors(f) == []
    ensures FilterSpec(f) == Success(g)
    ensures g.columns == f.columns && forall b :: b in g.rows ==> Clean(b)
  {
    SchemaPassHasColumns(f);
    FilterKeepsExactlyClean(f);
    FilterSpec(f).value
  }

  /** The rows the run downloads for ticker `t` from a store holding `table`. */
  function Download(p: Params, table: Table, t: Symbol): Option<Frame> {
    p.fetch(t, WindowStart(p, table, t), WindowEnd(p))
  }

  /**
    The end of the `try` block for ticker `t`, once the rows have passed the
    schema gate: `quality` is the warning already recorded, `frame` the rows
    left.
  */
  function StoreStep(p: Params, table: Table, t: Symbol, quality: seq<Message>, frame: Frame): (s: Step)
    ensures s.warnings == quality && !s.outcome.Skipped?
    ensures s.outcome.Failed? ==> |s.errors| == 1
    ensures s.outcome.Processed? ==> s.errors == []
    ensures p.validateOnly ==> s.table == table && (s.outcome.Processed? ==> s.outcome.rows == 0)
    ensures IsEmpty(frame) ==> s == Step(Failed, [AllRowsFiltered(t)], quality, table)
    ensures !IsEmpty(frame) && !p.validateOnly ==>
      var u := UpsertSpec(table, true, frame);
      && s.table == u.table
      && (s.outcome.Processed? <==> u.result.Success?)
      && (s.outcome.Processed? ==> s.outcome.rows == |frame.rows|)
      && (s.outcome.Failed? ==> s.errors == [PipelineError(t, u.result.error)])
  {
    if IsEmpty(frame) then Step(Failed, [AllRowsFiltered(t)], quality, table)
    else if p.validateOnly then Step(Processed(0), [], quality, table)
    else
      var u := UpsertSpec(table, true, frame);
      if u.result.Failure? then Step(Failed, [PipelineError(t, u.result.error)], quality, u.table)
      else Step(Processed(u.result.value), [], quality, u.table)
  }

  /** The part of the `try` block that follows a non-empty download `df`. */
  function CheckedStep(p: Params, table: Table, t: Symbol, df: Frame): Step {
    var v := ValidationOf(df, p.settings.minDataPoints);
    if v.schemaErrors != [] then Step(Failed, [SchemaFailed(t, v.schemaErrors)], [], table)
    else if v.qualityWarnings != [] then
      StoreStep(p, table, t, [QualityIssues(t, v.qualityWarnings)], Cleaned(df))
    else StoreStep(p, table, t, [], df)
  }

  /** The body of the `try` block for ticker `t`, run on a connected store holding `table`. */
  function TickerStep(p: Params, table: Table, t: Symbol): Step {
    var df := Download(p, table, t);
    if df.None? || IsEmpty(df.value) then Step(Skipped, [], [NoData(t)], table)
    else CheckedStep(p, table, t, df.value)
  }

  /** The report after adding one ticker's step. */
  function Record(r: Report, s: Step): Report {
    Report(
      r.processed + (if s.outcome.Processed? then 1 else 0),
      r.failed + (if s.outcome.Failed? then 1 else 0),
      r.rowsInserted + (if s.outcome.Processed? then s.outcome.rows else 0),
      r.errors + s.errors,
      r.warnings + s.warnings)
  }

  /** Adding a step's warnings first and the rest of the step afterwards records the whole step. */
  lemma RecordWarningsFirst(r: Report, s: Step)
    ensures Record(r.(warnings := r.warnings + s.warnings), s.(warnings := [])) == Record(r, s)
  {
    assert r.warnings + s.warnings + [] == r.warnings + s.warnings;
  }

  /** The report and the table of a run at some point. */
  datatype RunState = RunState(report: Report, table: Table)

  /** The loop over the tickers, on a connected store holding `table`. */
  function RunLoop(p: Params, table: Table, tickers: seq<Symbol>): RunState {
    if tickers == [] then RunState(EmptyReport, table)
    else
      var before := RunLoop(p, table, tickers[..|tickers| - 1]);
      var s := TickerStep(p, before.table, tickers[|tickers| - 1]);
      RunState(Record(before.report, s), s.table)
  }

  /**
    `run`: a failed connection gives one fatal error and nothing else;
    otherwise the loop over the tickers.
  */
  function RunSpec(p: Params, table: Table, connects: bool, tickers: seq<Symbol>): RunState {
    if !connects then RunState(Report(0, 0, 0, [FatalError(ConnectFailed)], []), table)
    else RunLoop(p, table, tickers)
  }

  // ---------------------------------------------------------------------
  // Properties of one ticker
  // ---------------------------------------------------------------------

  /**
    The window start, as the three cases choose it: the documented rule
    written out case by case. The property it serves is
    `IncrementalStartsAfterHistory` below.
  */
  lemma WindowStartChoice(p: Params, table: Table, t: Symbol)
    ensures p.start.Some? ==> WindowStart(p, table, t) == p.start.value
    ensures p.start.None? && p.incremental && LastDate(table, t).Some? ==>
      WindowStart(p, table, t) == LastDate(table, t).value + 1
    ensures p.start.None? && (!p.incremental || LastDate(table, t).None?) ==>
      WindowStart(p, table, t) == p.settings.defaultStart
  {
  }

  /** An incremental download without an explicit start begins after every stored date of the ticker. */
  lemma IncrementalStartsAfterHistory(p: Params, table: Table, t: Symbol)
    requires p.incremental && p.start.None?
    requires exists d :: Key(t, d) in table
    ensures forall d :: Key(t, d) in table ==> d < WindowStart(p, table, t)
  {
  }

  /** A ticker adds at most one error, and exactly one when it fails. */
  lemma StepShape(p: Params, table: Table, t: Symbol)
    ensures var s := TickerStep(p, table, t);
      && (s.outcome.Skipped? <==> NoData(t) in s.warnings)
      && (s.outcome.Skipped? ==> s.errors == [] && s.warnings == [NoData(t)] && s.table == table)
      && (s.outcome.Failed? ==> |s.errors| == 1 && |s.warnings| <= 1)
      && (s.outcome.Processed? ==> s.errors == [] && |s.warnings| <= 1)
  {
    var df := Download(p, table, t);
    if !(df.None? || IsEmpty(df.value)) {
      var v := ValidationOf(df.value, p.settings.minDataPoints);
      if v.schemaErrors == [] {
        var quality := if v.qualityWarnings != [] then [QualityIssues(t, v.qualityWarnings)] else [];
        var frame := if v.qualityWarnings != [] then Cleaned(df.value) else df.value;
        assert TickerStep(p, table, t) == StoreStep(p, table, t, quality, frame);
        assert NoData(t) !in quality;
      }
    }
  }

  /** A validation-only step leaves the table as it was and inserts no rows. */
  lemma ValidateOnlyStep(p: Params, table: Table, t: Symbol)
    requires p.validateOnly
    ensures TickerStep(p, table, t).table == table
    ensures TickerStep(p, table, t).outcome.Processed? ==> TickerStep(p, table, t).outcome.rows == 0
  {
    var df := Download(p, table, t);
    if !(df.None? || IsEmpty(df.value)) {
      var v := ValidationOf(df.value, p.settings.minDataPoints);
      if v.schemaErrors == [] {
        var quality := if v.qualityWarnings != [] then [QualityIssues(t, v.qualityWarnings)] else [];
        var frame := if v.qualityWarnings != [] then Cleaned(df.value) else df.value;
        assert TickerStep(p, table, t) == StoreStep(p, table, t, quality, frame);
      }
    }
  }

  /** A ticker whose rows the schema gate refuses stores nothing. */
  lemma SchemaFailureStoresNothing(p: Params, table: Table, t: Symbol)
    requires var df := Download(p, table, t);
      df.Some? && !IsEmpty(df.value) && SchemaErrors(df.value) != []
    ensures TickerStep(p, table, t).outcome == Failed
    ensures TickerStep(p, table, t).table == table
    ensures TickerStep(p, table, t).errors == [SchemaFailed(t, SchemaErrors(Download(p, table, t).value))]
  {
  }

  /** A multiset holding `x` twice has two positions holding `x`. */
  lemma TwoPositions(s: seq<Bar>, x: Bar)
    requires multiset(s)[x] >= 2
    ensures exists i, j :: 0 <= i < j < |s| && s[i] == x && s[j] == x
  {
    var k :| 0 <= k < |s| && s[k] == x;
    RemoveAt(s, k);
    var rest := s[..k] + s[k + 1..];
    assert x in multiset(rest);
    var m :| 0 <= m < |rest| && rest[m] == x;
    if m < k {
      assert s[m] == x;
    } else {
      assert s[m + 1] == x;
    }
  }

  /** Two positions of a sequence make the multiplicity of a repeated element at least two. */
  lemma AtLeastTwice(s: seq<Bar>, i: nat, j: nat)
    requires i < j < |s| && s[i] == s[j]
    ensures multiset(s)[s[i]] >= 2
  {
    assert s == s[..j] + [s[j]] + s[j + 1..];
    assert s[i] in multiset(s[..j]);
  }

  /** Two clean rows sharing a key survive the filter and still share a key. */
  lemma CleanClashSurvives(f: Frame, i: nat, j: nat)
    requires !IsEmpty(f) && HasColumns(f, RequiredColumns)
    requires i < j < |f.rows| && Clean(f.rows[i]) && Clean(f.rows[j])
    requires KeyOf(f.rows[i]) == KeyOf(f.rows[j])
    ensures FilterSpec(f).Success?
    ensures var g := FilterSpec(f).value.rows;
      exists a, b :: 0 <= a < b < |g| && KeyOf(g[a]) == KeyOf(g[b])
  {
    FilterKeepsExactlyClean(f);
    var g := FilterSpec(f).value.rows;
    var x, y := f.rows[i], f.rows[j];
    assert x in multiset(f.rows) && y in multiset(f.rows);
    if x == y {
      AtLeastTwice(f.rows, i, j);
      TwoPositions(g, x);
      var a, b :| 0 <= a < b < |g| && g[a] == x && g[b] == x;
      assert KeyOf(g[a]) == KeyOf(g[b]);
    } else {
      assert x in multiset(g) && y in multiset(g);
      var a :| 0 <= a < |g| && g[a] == x;
      var b :| 0 <= b < |g| && g[b] == y;
      if a < b {
        assert KeyOf(g[a]) == KeyOf(g[b]);
      } else {
        assert KeyOf(g[b]) == KeyOf(g[a]);
      }
    }
  }

  /** Two rows sharing a key make the quality pass warn. */
  lemma RepeatedKeyWarns(f: Frame, minRows: nat, i: nat, j: nat)
    requires !IsEmpty(f) && HasColumns(f, RequiredColumns)
    requires i < j < |f.rows| && KeyOf(f.rows[i]) == KeyOf(f.rows[j])
    ensures QualityWarnings(f, minRows).Success? && QualityWarnings(f, minRows).value != []
  {
    DuplicateCountZero(f.rows);
    var front := (if |f.rows| < minRows then [InsufficientData(|f.rows|, minRows)] else [])
                 + RangeWarnings(f.columns, f.rows) + NullWarnings(f.rows, RequiredColumns);
    assert SequenceWarnings(f.rows) != [];
    assert RowWarnings(f.columns, f.rows, minRows) == front + SequenceWarnings(f.rows);
  }

  /**
    A download with two clean rows for one (ticker, date) key makes the
    ticker fail at the upsert, after the upsert has already deleted the
    stored rows of its span: the filter does not remove repeated keys.
  */
  lemma RepeatedKeyFailsAfterDelete(p: Params, table: Table, t: Symbol, i: nat, j: nat)
    requires !p.validateOnly
    requires var df := Download(p, table, t);
      && df.Some? && !IsEmpty(df.value) && SchemaErrors(df.value) == []
      && i < j < |df.value.rows| && Clean(df.value.rows[i]) && Clean(df.value.rows[j])
      && KeyOf(df.value.rows[i]) == KeyOf(df.value.rows[j])
    ensures var df := Download(p, table, t).value;
      && TickerStep(p, table, t).outcome == Failed
      && TickerStep(p, table, t).errors == [PipelineError(t, ConstraintViolation)]
      && TickerStep(p, table, t).table == Without(table, SpanOf(Cleaned(df)))
  {
    var df := Download(p, table, t).value;
    SchemaPassHasColumns(df);
    RepeatedKeyWarns(df, p.settings.minDataPoints, i, j);
    var v := ValidationOf(df, p.settings.minDataPoints);
    assert v.qualityWarnings != [];
    CleanClashSurvives(df, i, j);
    var g := Cleaned(df);
    var a, b :| 0 <= a < b < |g.rows| && KeyOf(g.rows[a]) == KeyOf(g.rows[b]);
    assert HasColumns(g, RequiredColumns);
    UpsertRejectsRepeatedKey(table, g, a, b);
    assert TickerStep(p, table, t) == StoreStep(p, table, t, [QualityIssues(t, v.qualityWarnings)], g);
  }

  // ---------------------------------------------------------------------
  // Properties of the run
  // ---------------------------------------------------------------------

  /** The number of no-data warnings among `ws`. */
  function NoDataCount(ws: seq<Message>): nat {
    if ws == [] then 0 else NoDataCount(ws[..|ws| - 1]) + (if ws[|ws| - 1].NoData? then 1 else 0)
  }

  lemma {:induction false} NoDataCountAppend(a: seq<Message>, b: seq<Message>)
    ensures NoDataCount(a + b) == NoDataCount(a) + NoDataCount(b)
    decreases |b|
  {
    if b == [] {
      assert a + b == a;
    } else {
      assert (a + b)[..|a + b| - 1] == a + b[..|b| - 1];
      assert (a + b)[|a + b| - 1] == b[|b| - 1];
      NoDataCountAppend(a, b[..|b| - 1]);
    }
  }

  /** The no-data warnings a ticker adds: one when it is skipped, none otherwise. */
  lemma StepNoDataCount(p: Params, table: Table, t: Symbol)
    ensures NoDataCount(TickerStep(p, table, t).warnings) == if TickerStep(p, table, t).outcome.Skipped? then 1 else 0
  {
    var s := TickerStep(p, table, t);
    StepShape(p, table, t);
    if s.outcome.Skipped? {
      assert [NoData(t)][..0] == [];
    } else if s.warnings != [] {
      assert s.warnings[..0] == [];
      assert s.warnings == [s.warnings[0]];
    }
  }

  /**
    On a connected store every ticker ends exactly once as processed,
    failed or without data, and every error belongs to a failed ticker.
  */
  lemma {:induction false} RunCountsAddUp(p: Params, table: Table, tickers: seq<Symbol>)
    ensures var r := RunLoop(p, table, tickers).report;
      r.processed + r.failed + NoDataCount(r.warnings) == |tickers| && |r.errors| == r.failed
  {
    if tickers != [] {
      var init := tickers[..|tickers| - 1];
      RunCountsAddUp(p, table, init);
      var before := RunLoop(p, table, init);
      var t := tickers[|tickers| - 1];
      StepShape(p, before.table, t);
      StepNoDataCount(p, before.table, t);
      NoDataCountAppend(before.report.warnings, TickerStep(p, before.table, t).warnings);
    }
  }

  /** A validation-only run stores nothing and counts no inserted rows. */
  lemma {:induction false} ValidateOnlyStoresNothing(p: Params, table: Table, tickers: seq<Symbol>)
    requires p.validateOnly
    ensures RunLoop(p, table, tickers).table == table
    ensures RunLoop(p, table, tickers).report.rowsInserted == 0
  {
    if tickers != [] {
      var init := tickers[..|tickers| - 1];
      ValidateOnlyStoresNothing(p, table, init);
      ValidateOnlyStep(p, RunLoop(p, table, init).table, tickers[|tickers| - 1]);
    }
  }

  /** A run whose connection fails reports one fatal error, counts nothing and changes nothing. */
  lemma ConnectFailureReport(p: Params, table: Table, tickers: seq<Symbol>)
    ensures RunSpec(p, table, false, tickers)
            == RunState(Report(0, 0, 0, [FatalError(ConnectFailed)], []), table)
  {
  }

  /**
    Failures are isolated: the tickers after a prefix run on the table the
    prefix left, whatever happened to the prefix.
  */
  lemma {:induction false} RunLoopSplit(p: Params, table: Table, a: seq<Symbol>, b: seq<Symbol>)
    ensures RunLoop(p, table, a + b).table == RunLoop(p, RunLoop(p, table, a).table, b).table
    decreases |b|
  {
    if b == [] {
      assert a + b == a;
    } else {
      var init, t := b[..|b| - 1], b[|b| - 1];
      assert (a + b)[..|a + b| - 1] == a + init && (a + b)[|a + b| - 1] == t;
      RunLoopSplit(p, table, a, init);
      var left := RunLoop(p, table, a + init).table;
      assert RunLoop(p, table, a + b).table == TickerStep(p, left, t).table;
    }
  }

  /** Every row of `rows` is stored in `table` under its key with its prices. */
  predicate StoredAll(rows: seq<Bar>, table: Table) {
    forall i :: 0 <= i < |rows| ==> HasKey(rows[i]) && KeyFor(rows[i]) in table && table[KeyFor(rows[i])] == PricesOf(rows[i])
  }

  /** Storing, outside validation-only mode, counts exactly the rows it has stored. */
  lemma StoreStepStoresRows(p: Params, table: Table, t: Symbol, quality: seq<Message>, frame: Frame)
    requires !p.validateOnly && StoreStep(p, table, t, quality, frame).outcome.Processed?
    ensures var s := StoreStep(p, table, t, quality, frame);
      StoredAll(frame.rows, s.table) && s.outcome.rows == |frame.rows|
  {
    UpsertStoresRows(table, frame);
  }

  /**
    A ticker counted as processed outside validation-only mode has had all
    the rows it counts stored: the download itself, or its filtered rows.
  */
  lemma StepStoresCountedRows(p: Params, table: Table, t: Symbol)
    requires !p.validateOnly
    requires TickerStep(p, table, t).outcome.Processed?
    ensures Download(p, table, t).Some?
    ensures var df := Download(p, table, t).value;
      var s := TickerStep(p, table, t);
      exists g :: (g == df || g == Cleaned(df)) && StoredAll(g.rows, s.table) && |g.rows| == s.outcome.rows
  {
    var df := Download(p, table, t).value;
    var v := ValidationOf(df, p.settings.minDataPoints);
    assert TickerStep(p, table, t) == CheckedStep(p, table, t, df);
    if v.qualityWarnings != [] {
      StoreStepStoresRows(p, table, t, [QualityIssues(t, v.qualityWarnings)], Cleaned(df));
    } else {
      StoreStepStoresRows(p, table, t, [], df);
    }
  }

  /** Two reports one after the other: counts add, messages concatenate. */
  function Combine(x: Report, y: Report): Report {
    Report(x.processed + y.processed, x.failed + y.failed, x.rowsInserted + y.rowsInserted,
           x.errors + y.errors, x.warnings + y.warnings)
  }

  /** Recording a step after two combined reports records it in the second. */
  lemma RecordCombine(x: Report, y: Report, s: Step)
    ensures Record(Combine(x, y), s) == Combine(x, Record(y, s))
  {
    assert x.errors + y.errors + s.errors == x.errors + (y.errors + s.errors);
    assert x.warnings + y.warnings + s.warnings == x.warnings + (y.warnings + s.warnings);
  }

  /**
    The report of a run over `a + b` is the report over `a` followed by the
    report over `b` on the table `a` left: counts, inserted rows, errors and
    warnings all add up ticker by ticker.
  */
  lemma {:induction false} RunReportSplit(p: Params, table: Table, a: seq<Symbol>, b: seq<Symbol>)
    ensures RunLoop(p, table, a + b).report
            == Combine(RunLoop(p, table, a).report, RunLoop(p, RunLoop(p, table, a).table, b).report)
    decreases |b|
  {
    if b == [] {
      RunReportNone(p, table, a);
    } else {
      var init := b[..|b| - 1];
      RunReportSplit(p, table, a, init);
      RunLoopSplit(p, table, a, init);
      RunReportLast(p, table, a, b);
    }
  }

  /** The base case of `RunReportSplit`: nothing after `a`. */
  lemma RunReportNone(p: Params, table: Table, a: seq<Symbol>)
    ensures RunLoop(p, table, a + []).report
            == Combine(RunLoop(p, table, a).report, RunLoop(p, RunLoop(p, table, a).table, []).report)
  {
    assert a + [] == a;
    var before := RunLoop(p, table, a);
    assert RunLoop(p, before.table, []).report == EmptyReport;
    CombineEmpty(before.report);
  }

  /** Combining with the empty report changes nothing. */
  lemma CombineEmpty(x: Report)
    ensures Combine(x, EmptyReport) == x
  {
    assert x.errors + [] == x.errors && x.warnings + [] == x.warnings;
  }

  /** The step case of `RunReportSplit`: the last ticker of `b` is recorded in both runs. */
  lemma RunReportLast(p: Params, table: Table, a: seq<Symbol>, b: seq<Symbol>)
    requires b != []
    requires var init := b[..|b| - 1];
      && RunLoop(p, table, a + init).report
         == Combine(RunLoop(p, table, a).report, RunLoop(p, RunLoop(p, table, a).table, init).report)
      && RunLoop(p, table, a + init).table == RunLoop(p, RunLoop(p, table, a).table, init).table
    ensures RunLoop(p, table, a + b).report
            == Combine(RunLoop(p, table, a).report, RunLoop(p, RunLoop(p, table, a).table, b).report)
  {
    var init, t := b[..|b| - 1], b[|b| - 1];
    assert (a + b)[..|a + b| - 1] == a + init && (a + b)[|a + b| - 1] == t;
    var left := RunLoop(p, table, a).table;
    var mid := RunLoop(p, table, a + init);
    var ri := RunLoop(p, left, init);
    var s := TickerStep(p, mid.table, t);
    assert RunLoop(p, table, a + b).report == Record(mid.report, s);
    assert RunLoop(p, left, b).report == Record(ri.report, s);
    RecordCombine(RunLoop(p, table, a).report, ri.report, s);
  }

  // ---------------------------------------------------------------------
  // The pipeline object
  // ---------------------------------------------------------------------

  class IngestionPipeline {
    const incremental: bool
    const storage: DuckDBStorage
    const settings: Settings
    const fetch: (Symbol, Day, Day) -> Option<Frame>

    constructor (incremental: bool, storage: DuckDBStorage, settings: Settings, fetch: (Symbol, Day, Day) -> Option<Frame>)
      ensures this.incremental == incremental && this.storage == storage
      ensures this.settings == settings && this.fetch == fetch
    {
      this.incremental := incremental;
      this.storage := storage;
      this.settings := settings;
      this.fetch := fetch;
    }

    /** The arguments of a run of this pipeline. */
    function ParamsOf(start: Option<Day>, end: Option<Day>, validateOnly: bool): Params {
      Params(incremental, start, end, validateOnly, settings, fetch)
    }

    /**
      The end of the `try` block: stores the rows that passed validation and
      counts the ticker. `quality` is the warning the caller already added.
    */
    method StoreRows(t: Symbol, frame: Frame, start: Option<Day>, end: Option<Day>, validateOnly: bool,
                     report: Report, ghost quality: seq<Message>)
      returns (r: Report)
      requires storage.connected
      modifies storage
      ensures storage.connected
      ensures var s := StoreStep(ParamsOf(start, end, validateOnly), old(storage.table), t, quality, frame);
        r == Record(report, s.(warnings := [])) && storage.table == s.table
    {
      if IsEmpty(frame) {
        return report.(errors := report.errors + [AllRowsFiltered(t)], failed := report.failed + 1);
      }
      if validateOnly {
        return report.(processed := report.processed + 1);
      }
      var inserted := storage.UpsertData(frame);
      if inserted.Failure? {
        r := report.(errors := report.errors + [PipelineError(t, inserted.error)], failed := report.failed + 1);
      } else {
        r := report.(rowsInserted := report.rowsInserted + inserted.value, processed := report.processed + 1);
        assert report.errors + [] == report.errors;
      }
    }

    /** The `try` block of the loop for ticker `t`. */
    method ProcessTicker(t: Symbol, start: Option<Day>, end: Option<Day>, validateOnly: bool, report: Report)
      returns (r: Report)
      requires storage.connected
      modifies storage
      ensures storage.connected
      ensures var s := TickerStep(ParamsOf(start, end, validateOnly), old(storage.table), t);
        r == Record(report, s) && storage.table == s.table
    {
      ghost var p := ParamsOf(start, end, validateOnly);
      var downloadStart: Day;
      var downloadEnd := if end.Some? then end.value else settings.defaultEnd;
      if incremental && start.None? {
        var last := storage.GetLastDate(t);
        downloadStart := if last.value.Some? then last.value.value + 1 else settings.defaultStart;
      } else {
        downloadStart := if start.Some? then start.value else settings.defaultStart;
      }
      var df := fetch(t, downloadStart, downloadEnd);
      assert df == Download(p, storage.table, t);
      if df.None? || IsEmpty(df.value) {
        r := report.(warnings := report.warnings + [NoData(t)]);
        assert report.errors + [] == report.errors;
      } else {
        r := CheckAndStore(t, df.value, start, end, validateOnly, report);
      }
    }

    /** The quality warning to record and the rows to store, for rows that passed the schema gate. */
    static method FilterStage(t: Symbol, df: Frame, warnings: seq<Warning>) returns (frame: Frame, quality: seq<Message>)
      requires SchemaErrors(df) == []
      ensures warnings == [] ==> frame == df && quality == []
      ensures warnings != [] ==> frame == Cleaned(df) && quality == [QualityIssues(t, warnings)]
    {
      frame := df;
      quality := [];
      if warnings != [] {
        quality := [QualityIssues(t, warnings)];
        var filtered := FilterInvalidRows(frame);
        assert filtered == Success(Cleaned(df));
        frame := filtered.value;
      }
    }

    /** The part of the `try` block that follows a non-empty download: validate, filter, store. */
    method CheckAndStore(t: Symbol, df: Frame, start: Option<Day>, end: Option<Day>, validateOnly: bool, report: Report)
      returns (r: Report)
      requires storage.connected
      modifies storage
      ensures storage.connected
      ensures var s := CheckedStep(ParamsOf(start, end, validateOnly), old(storage.table), t, df);
        r == Record(report, s) && storage.table == s.table
    {
      ghost var p := ParamsOf(start, end, validateOnly);
      ghost var s := CheckedStep(p, storage.table, t, df);
      var v := Validate(df, settings.minDataPoints);
      if v.schemaErrors != [] {
        assert s == Step(Failed, [SchemaFailed(t, v.schemaErrors)], [], storage.table);
        r := report.(errors := report.errors + [SchemaFailed(t, v.schemaErrors)], failed := report.failed + 1);
        assert report.warnings + [] == report.warnings;
      } else {
        var frame, quality := FilterStage(t, df, v.qualityWarnings);
        assert s == StoreStep(p, storage.table, t, quality, frame);
        r := StoreRows(t, frame, start, end, validateOnly, report.(warnings := report.warnings + quality), quality);
        RecordWarningsFirst(report, s);
      }
    }

    /** `run`: `opens` is whether opening the database succeeds. */
    method Run(tickers: seq<Symbol>, start: Option<Day>, end: Option<Day>, validateOnly: bool, opens: bool)
      returns (report: Report)
      modifies storage
      ensures !storage.connected
      ensures RunState(report, storage.table)
              == RunSpec(ParamsOf(start, end, validateOnly), old(storage.table), old(storage.connected) || opens, tickers)
    {
      ghost var p := ParamsOf(start, end, validateOnly);
      ghost var table0 := storage.table;
      report := EmptyReport;
      var connection := storage.Connect(opens);
      if connection.Failure? {
        report := report.(errors := report.errors + [FatalError(connection.error)]);
        storage.Close();
        return;
      }
      for i := 0 to |tickers|
        invariant storage.connected
        invariant RunState(report, storage.table) == RunLoop(p, table0, tickers[..i])
      {
        assert tickers[..i + 1][..i] == tickers[..i];
        report := ProcessTicker(tickers[i], start, end, validateOnly, report);
      }
      assert tickers[..|tickers|] == tickers;
      storage.Close();
    }
  }

  /** `run_pipeline`: builds a pipeline over the store and runs it once. */
  method RunPipeline(
    storage: DuckDBStorage, settings: Settings, fetch: (Symbol, Day, Day) -> Option<Frame>,
    tickers: seq<Symbol>, start: Option<Day>, end: Option<Day>, incremental: bool, validateOnly: bool, opens: bool)
    returns (report: Report)
    modifies storage
    ensures !storage.connected
    ensures var p := Params(incremental, start, end, validateOnly, settings, fetch);
      RunState(report, storage.table) == RunSpec(p, old(storage.table), old(storage.connected) || opens, tickers)
  {
    var pipeline := new IngestionPipeline(incremental, storage, settings, fetch);
    report := pipeline.Run(tickers, start, end, validateOnly, opens);
  }
}
