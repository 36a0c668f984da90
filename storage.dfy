/**
  The price store (`DuckDBStorage`): one table `stock_prices` keyed by
  (ticker, date), reached through a connection that may be open or closed.

  The SQL engine is replaced by a finite map from keys to the price columns
  of a row, so the primary key holds by construction: the table never holds
  two rows with one key. The table outlives the connection, as the database
  file does.
*/
module Storage {
  import opened Wrappers
  import opened Bars

  /** The primary key of `stock_prices`. */
  datatype Key = Key(ticker: Symbol, date: Day)

  /** The non-key columns of a stored row. */
  datatype Prices = Prices(
    open: Option<int>,
    high: Option<int>,
    low: Option<int>,
    close: Option<int>,
    volume: Option<int>,
    adjClose: Option<int>)

  /** The contents of `stock_prices`. */
  type Table = map<Key, Prices>

  /** Why a store operation raised instead of returning. */
  datatype StoreError =
    | ConnectFailed        // the database could not be opened
    | NotConnected         // a statement was run on a closed store
    | MissingColumn        // a column the statement names is absent from the row set
    | ConstraintViolation  // a NULL key or a repeated primary key

  // ---------------------------------------------------------------------
  // Rows and keys
  // ---------------------------------------------------------------------

  /** The row has a ticker and a date, as the table's NOT NULL key demands. */
  predicate HasKey(b: Bar) {
    b.ticker.Some? && b.date.Some?
  }

  function KeyFor(b: Bar): Key
    requires HasKey(b)
  {
    Key(b.ticker.value, b.date.value)
  }

  function PricesOf(b: Bar): Prices {
    Prices(b.open, b.high, b.low, b.close, b.volume, b.adjClose)
  }

  /** The row a stored entry reads back as. */
  function RowOf(k: Key, p: Prices): (b: Bar)
    ensures HasKey(b) && KeyFor(b) == k && PricesOf(b) == p
  {
    Bar(Some(k.ticker), Some(k.date), p.open, p.high, p.low, p.close, p.volume, p.adjClose)
  }

  /** The stored dates of ticker `t`. */
  function DatesOf(table: Table, t: Symbol): (ds: set<Day>)
    ensures forall d :: d in ds <==> Key(t, d) in table
  {
    set k | k in table && k.ticker == t :: k.date
  }

  /** The tickers that have at least one stored row. */
  function Tickers(table: Table): (ts: set<Symbol>)
    ensures forall t :: t in ts <==> exists d :: Key(t, d) in table
    ensures forall t :: t in ts <==> DatesOf(table, t) != {}
  {
    var ts := set k | k in table :: k.ticker;
    assert forall t :: t in ts <==> exists d :: Key(t, d) in table by {
      forall t | t in ts
        ensures exists d :: Key(t, d) in table
      {
        var k :| k in table && k.ticker == t;
        assert k == Key(t, k.date);
        assert Key(t, k.date) in table;
      }
      forall t, d | Key(t, d) in table
        ensures t in ts
      {
        assert Key(t, d).ticker == t;
      }
    }
    assert forall t :: t in ts <==> DatesOf(table, t) != {} by {
      forall t | t in ts
        ensures DatesOf(table, t) != {}
      {
        var d :| Key(t, d) in table;
        assert d in DatesOf(table, t);
      }
      forall t | DatesOf(table, t) != {}
        ensures t in ts
      {
        var d := PickDay(DatesOf(table, t));
        assert Key(t, d) in table;
      }
    }
    ts
  }

  // ---------------------------------------------------------------------
  // The order of `ORDER BY ticker`
  // ---------------------------------------------------------------------

  /** Lexicographic order on symbols, character by character. */
  predicate Below(a: Symbol, b: Symbol) {
    if a == [] then b != []
    else if b == [] then false
    else a[0] < b[0] || (a[0] == b[0] && Below(a[1..], b[1..]))
  }

  lemma {:induction false} BelowIrreflexive(a: Symbol)
    ensures !Below(a, a)
  {
    if a != [] {
      BelowIrreflexive(a[1..]);
    }
  }

  lemma {:induction false} BelowTransitive(a: Symbol, b: Symbol, c: Symbol)
    requires Below(a, b) && Below(b, c)
    ensures Below(a, c)
  {
    if a != [] && a[0] == b[0] && b[0] == c[0] {
      BelowTransitive(a[1..], b[1..], c[1..]);
    }
  }

  lemma {:induction false} BelowTotal(a: Symbol, b: Symbol)
    ensures a == b || Below(a, b) || Below(b, a)
  {
    if a != [] && b != [] && a[0] == b[0] {
      BelowTotal(a[1..], b[1..]);
      if a[1..] == b[1..] {
        assert a == [a[0]] + a[1..] && b == [b[0]] + b[1..];
      }
    }
  }

  lemma {:induction false} BelowAsymmetric(a: Symbol, b: Symbol)
    ensures !(Below(a, b) && Below(b, a))
  {
    if Below(a, b) && Below(b, a) {
      BelowTransitive(a, b, a);
      BelowIrreflexive(a);
    }
  }

  lemma BelowAsymmetricEverywhere()
    ensures forall a, b :: !(Below(a, b) && Below(b, a))
  {
    forall a, b
      ensures !(Below(a, b) && Below(b, a))
    {
      BelowAsymmetric(a, b);
    }
  }

  /** A non-empty set of symbols has an element. */
  lemma NonEmptyHasSymbol(s: set<Symbol>)
    requires s != {}
    ensures exists y :: y in s
  {
    if forall y :: y !in s {
      assert false;
    }
  }

  /** Adding a symbol to a set with a least element gives a set with a least element. */
  lemma LeastAfterAdding(s: set<Symbol>, m: Symbol, y: Symbol)
    requires y in s && m in s - {y}
    requires forall x :: x in s - {y} && x != m ==> Below(m, x)
    ensures exists l :: l in s && forall x :: x in s && x != l ==> Below(l, x)
  {
    BelowTotal(m, y);
    if Below(m, y) {
      assert forall x :: x in s && x != m ==> Below(m, x);
    } else {
      forall x | x in s && x != y
        ensures Below(y, x)
      {
        if x != m {
          BelowTransitive(y, m, x);
        }
      }
    }
  }

  /** A finite non-empty set of symbols has a least element. */
  lemma {:induction false} LeastSymbolExists(s: set<Symbol>)
    requires s != {}
    ensures exists m :: m in s && forall x :: x in s && x != m ==> Below(m, x)
  {
    NonEmptyHasSymbol(s);
    var y :| y in s;
    if s == {y} {
      assert forall x :: x in s && x != y ==> Below(y, x);
    } else {
      LeastSymbolExists(s - {y});
      var m :| m in s - {y} && forall x :: x in s - {y} && x != m ==> Below(m, x);
      LeastAfterAdding(s, m, y);
    }
  }

  /** The least symbol of a finite non-empty set. */
  function LeastSymbol(s: set<Symbol>): (m: Symbol)
    requires s != {}
    ensures m in s && forall x :: x in s && x != m ==> Below(m, x)
  {
    LeastSymbolExists(s);
    BelowAsymmetricEverywhere();
    var m :| m in s && forall x :: x in s && x != m ==> Below(m, x);
    m
  }

  /** The symbols of a finite set in increasing order. */
  function SortedSymbols(s: set<Symbol>): (r: seq<Symbol>)
    ensures forall i, j :: 0 <= i < j < |r| ==> Below(r[i], r[j])
    ensures forall t :: t in r <==> t in s
    ensures |r| == |s|
    decreases |s|
  {
    if s == {} then []
    else
      var m := LeastSymbol(s);
      var rest := SortedSymbols(s - {m});
      assert forall j :: 0 <= j < |rest| ==> rest[j] in s - {m};
      [m] + rest
  }

  // ---------------------------------------------------------------------
  // Queries
  // ---------------------------------------------------------------------

  /** `get_last_date`: the latest stored date of ticker `t`, if it has any. */
  function LastDate(table: Table, t: Symbol): (r: Option<Day>)
    ensures r.None? <==> forall d :: Key(t, d) !in table
    ensures r.Some? ==> Key(t, r.value) in table && forall d :: Key(t, d) in table ==> d <= r.value
  {
    var ds := DatesOf(table, t);
    if ds == {} then None else Some(MaxDay(ds))
  }

  /** A date within the optional bounds of a range query. */
  predicate InWindow(d: Day, start: Option<Day>, end: Option<Day>) {
    (start.None? || start.value <= d) && (end.None? || d <= end.value)
  }

  /** The stored rows of ticker `t` on the days `ds`, in that order. */
  function RowsOn(table: Table, t: Symbol, ds: seq<Day>): (r: seq<Bar>)
    requires forall i :: 0 <= i < |ds| ==> Key(t, ds[i]) in table
    ensures |r| == |ds|
    ensures forall i :: 0 <= i < |r| ==> r[i] == RowOf(Key(t, ds[i]), table[Key(t, ds[i])])
  {
    if ds == [] then [] else [RowOf(Key(t, ds[0]), table[Key(t, ds[0])])] + RowsOn(table, t, ds[1..])
  }

  /** Rows read on increasing days are rows of `t`, in increasing date order, one per day. */
  lemma RowsOnFacts(table: Table, t: Symbol, ds: seq<Day>)
    requires forall i :: 0 <= i < |ds| ==> Key(t, ds[i]) in table
    requires StrictlyAscending(ds)
    ensures forall i :: 0 <= i < |RowsOn(table, t, ds)| ==>
      var b := RowsOn(table, t, ds)[i];
      HasKey(b) && b.ticker == Some(t) && b.date == Some(ds[i])
      && KeyFor(b) in table && table[KeyFor(b)] == PricesOf(b)
    ensures forall i, j :: 0 <= i < j < |RowsOn(table, t, ds)| ==>
      RowsOn(table, t, ds)[i].date.value < RowsOn(table, t, ds)[j].date.value
    ensures forall d :: d in ds <==> exists i :: 0 <= i < |RowsOn(table, t, ds)| && RowsOn(table, t, ds)[i].date == Some(d)
  {
    var r := RowsOn(table, t, ds);
    forall d | d in ds
      ensures exists i :: 0 <= i < |r| && r[i].date == Some(d)
    {
      var i :| 0 <= i < |ds| && ds[i] == d;
      assert r[i].date == Some(d);
    }
  }

  /** The stored dates of ticker `t` within the optional bounds. */
  function WindowDays(table: Table, t: Symbol, start: Option<Day>, end: Option<Day>): (w: set<Day>)
    ensures forall d :: d in w <==> Key(t, d) in table && InWindow(d, start, end)
  {
    set d | d in DatesOf(table, t) && InWindow(d, start, end)
  }

  /**
    `query_ticker_data`: the stored rows of ticker `t` whose date lies within
    the optional bounds, in increasing date order.
  */
  function TickerRows(table: Table, t: Symbol, start: Option<Day>, end: Option<Day>): (r: seq<Bar>)
    ensures forall i :: 0 <= i < |r| ==>
      && HasKey(r[i]) && r[i].ticker == Some(t) && InWindow(r[i].date.value, start, end)
      && KeyFor(r[i]) in table && table[KeyFor(r[i])] == PricesOf(r[i])
    ensures forall i, j :: 0 <= i < j < |r| ==> r[i].date.Some? && r[j].date.Some? && r[i].date.value < r[j].date.value
    ensures forall d :: Key(t, d) in table && InWindow(d, start, end)
                        <==> exists i :: 0 <= i < |r| && r[i].date == Some(d)
  {
    var ds := SortedDays(WindowDays(table, t, start, end));
    assert forall i :: 0 <= i < |ds| ==> ds[i] in WindowDays(table, t, start, end);
    RowsOnFacts(table, t, ds);
    RowsOn(table, t, ds)
  }

  /** One line of `get_data_summary`, without the insertion timestamp. */
  datatype Summary = Summary(ticker: Symbol, startDate: Day, endDate: Day, rowCount: nat)

  /** The summary line of a ticker with stored rows. */
  function SummaryOf(table: Table, t: Symbol): (s: Summary)
    requires DatesOf(table, t) != {}
    ensures s.ticker == t && s.startDate <= s.endDate
    ensures Key(t, s.startDate) in table && Key(t, s.endDate) in table
    ensures forall d :: Key(t, d) in table ==> s.startDate <= d <= s.endDate
    ensures s.rowCount == |DatesOf(table, t)| > 0
  {
    var ds := DatesOf(table, t);
    Summary(t, MinDay(ds), MaxDay(ds), |ds|)
  }

  /** The summary lines of the tickers `ts`, in that order. */
  function Summaries(table: Table, ts: seq<Symbol>): (r: seq<Summary>)
    requires forall t :: t in ts ==> DatesOf(table, t) != {}
    ensures |r| == |ts|
    ensures forall i :: 0 <= i < |r| ==> r[i] == SummaryOf(table, ts[i])
  {
    if ts == [] then [] else [SummaryOf(table, ts[0])] + Summaries(table, ts[1..])
  }

  /** The summary lines of `ts` follow `ts` ticker by ticker. */
  lemma SummariesFollow(table: Table, ts: seq<Symbol>)
    requires forall t :: t in ts ==> DatesOf(table, t) != {}
    ensures forall i :: 0 <= i < |ts| ==> Summaries(table, ts)[i].ticker == ts[i]
    ensures forall t :: t in ts ==> exists i :: 0 <= i < |ts| && Summaries(table, ts)[i].ticker == t
  {
    var r := Summaries(table, ts);
    forall t | t in ts
      ensures exists i :: 0 <= i < |ts| && r[i].ticker == t
    {
      var i :| 0 <= i < |ts| && ts[i] == t;
      assert r[i].ticker == t;
    }
  }

  /** `get_data_summary`: one line per stored ticker, in ticker order. */
  function DataSummary(table: Table): (r: seq<Summary>)
    ensures forall i, j :: 0 <= i < j < |r| ==> Below(r[i].ticker, r[j].ticker)
    ensures forall t :: t in Tickers(table) <==> exists i :: 0 <= i < |r| && r[i].ticker == t
    ensures forall i :: 0 <= i < |r| ==> DatesOf(table, r[i].ticker) != {} && r[i] == SummaryOf(table, r[i].ticker)
  {
    var ts := SortedSymbols(Tickers(table));
    SummariesFollow(table, ts);
    Summaries(table, ts)
  }

  /** The row counts of the summary add up to the size of the table. */
  lemma {:induction false} SummaryCountsAddUp(table: Table)
    ensures SumCounts(DataSummary(table)) == |table|
  {
    var ts := SortedSymbols(Tickers(table));
    SummariesFollow(table, ts);
    var r := Summaries(table, ts);
    assert DataSummary(table) == r;
    assert forall i :: 0 <= i < |r| ==> r[i].ticker == ts[i] && r[i].rowCount == |DatesOf(table, ts[i])|;
    KeysByTicker(table, ts);
    SumCountsIsSumOfDates(table, r, ts);
  }

  function SumCounts(s: seq<Summary>): nat {
    if s == [] then 0 else SumCounts(s[..|s| - 1]) + s[|s| - 1].rowCount
  }

  /** The keys whose ticker is among `ts`. */
  function KeysOfTickers(table: Table, ts: seq<Symbol>): set<Key> {
    set k | k in table && k.ticker in ts
  }

  /** Counting the keys ticker by ticker, over distinct tickers. */
  lemma {:induction false} KeysOfTickersCount(table: Table, ts: seq<Symbol>)
    requires forall i, j :: 0 <= i < j < |ts| ==> ts[i] != ts[j]
    ensures |KeysOfTickers(table, ts)| == SumDates(table, ts)
  {
    if ts != [] {
      var init := ts[..|ts| - 1];
      var t := ts[|ts| - 1];
      KeysOfTickersCount(table, init);
      var mine := set k | k in table && k.ticker == t;
      assert KeysOfTickers(table, ts) == KeysOfTickers(table, init) + mine;
      assert KeysOfTickers(table, init) * mine == {};
      KeysOfTickerCount(table, t);
    }
  }

  function SumDates(table: Table, ts: seq<Symbol>): nat {
    if ts == [] then 0 else SumDates(table, ts[..|ts| - 1]) + |DatesOf(table, ts[|ts| - 1])|
  }

  /** The keys of one ticker are as many as its dates. */
  lemma KeysOfTickerCount(table: Table, t: Symbol)
    ensures |set k | k in table && k.ticker == t| == |DatesOf(table, t)|
  {
    var mine := set k | k in table && k.ticker == t;
    var ds := DatesOf(table, t);
    forall k | k in mine
      ensures k in set d | d in ds :: Key(t, d)
    {
      assert k == Key(t, k.date);
      assert k.date in ds;
    }
    assert mine == set d | d in ds :: Key(t, d);
    DatesToKeysCount(t, ds);
  }

  /** Pairing a set of days with one ticker keeps its size. */
  lemma {:induction false} DatesToKeysCount(t: Symbol, ds: set<Day>)
    ensures |set d | d in ds :: Key(t, d)| == |ds|
    decreases |ds|
  {
    if ds != {} {
      var d := PickDay(ds);
      DatesToKeysCount(t, ds - {d});
      assert (set x | x in ds :: Key(t, x)) == (set x | x in ds - {d} :: Key(t, x)) + {Key(t, d)};
      assert Key(t, d) !in (set x | x in ds - {d} :: Key(t, x));
    }
  }

  /** Every key belongs to some ticker of the sorted ticker list. */
  lemma KeysByTicker(table: Table, ts: seq<Symbol>)
    requires forall t :: t in ts <==> t in Tickers(table)
    ensures KeysOfTickers(table, ts) == table.Keys
  {
    forall k | k in table
      ensures k in KeysOfTickers(table, ts)
    {
      assert k.date in DatesOf(table, k.ticker);
    }
  }

  lemma {:induction false} SumCountsIsSumOfDates(table: Table, r: seq<Summary>, ts: seq<Symbol>)
    requires |r| == |ts|
    requires forall i :: 0 <= i < |r| ==> r[i].ticker == ts[i] && r[i].rowCount == |DatesOf(table, ts[i])|
    requires forall i, j :: 0 <= i < j < |ts| ==> Below(ts[i], ts[j])
    requires KeysOfTickers(table, ts) == table.Keys
    ensures SumCounts(r) == |table|
  {
    forall i, j | 0 <= i < j < |ts|
      ensures ts[i] != ts[j]
    {
      if ts[i] == ts[j] {
        BelowIrreflexive(ts[i]);
      }
    }
    KeysOfTickersCount(table, ts);
    SumCountsPrefix(table, r, ts);
  }

  lemma {:induction false} SumCountsPrefix(table: Table, r: seq<Summary>, ts: seq<Symbol>)
    requires |r| == |ts|
    requires forall i :: 0 <= i < |r| ==> r[i].rowCount == |DatesOf(table, ts[i])|
    ensures SumCounts(r) == SumDates(table, ts)
  {
    if r != [] {
      SumCountsPrefix(table, r[..|r| - 1], ts[..|ts| - 1]);
    }
  }

  // ---------------------------------------------------------------------
  // Upsert
  // ---------------------------------------------------------------------

  /** The rows an upsert deletes: one ticker, dates from `first` to `last` inclusive. */
  datatype Span = Span(ticker: Symbol, first: Day, last: Day)

  /**
    The deletion span of an upsert: the ticker of the first row and the
    least and greatest present date of the whole row set. With no ticker in
    the first row, or no date at all, the DELETE compares with NULL and
    matches nothing.
  */
  function SpanOf(f: Frame): (s: Option<Span>)
    ensures s.Some? ==> f.rows != [] && f.rows[0].ticker == Some(s.value.ticker)
    ensures s.Some? ==> forall d :: d in PresentDates(f.rows) ==> s.value.first <= d <= s.value.last
    ensures s.Some? ==> s.value.first in PresentDates(f.rows) && s.value.last in PresentDates(f.rows)
    ensures s.None? ==> f.rows == [] || f.rows[0].ticker.None? || PresentDates(f.rows) == []
  {
    if f.rows == [] || f.rows[0].ticker.None? || PresentDates(f.rows) == [] then None
    else
      var dates := set d | d in PresentDates(f.rows);
      assert PresentDates(f.rows)[0] in dates;
      var lo, hi := MinDay(dates), MaxDay(dates);
      assert forall d :: d in PresentDates(f.rows) ==> d in dates;
      Some(Span(f.rows[0].ticker.value, lo, hi))
  }

  predicate InSpan(k: Key, s: Option<Span>) {
    s.Some? && k.ticker == s.value.ticker && s.value.first <= k.date <= s.value.last
  }

  /** The table after `DELETE … WHERE ticker = ? AND date BETWEEN ? AND ?`. */
  function Without(table: Table, s: Option<Span>): (r: Table)
    ensures forall k :: k in r <==> k in table && !InSpan(k, s)
    ensures forall k :: k in r ==> r[k] == table[k]
  {
    map k | k in table && !InSpan(k, s) :: table[k]
  }

  /** Every row has a ticker and a date. */
  predicate KeysPresent(rows: seq<Bar>) {
    forall b :: b in rows ==> HasKey(b)
  }

  /** No two rows share a (ticker, date) key. */
  predicate KeysDistinct(rows: seq<Bar>) {
    forall i, j :: 0 <= i < j < |rows| ==> KeyOf(rows[i]) != KeyOf(rows[j])
  }

  /** The entries an INSERT of keyed rows adds. */
  function RowsMap(rows: seq<Bar>): (m: Table)
    requires KeysPresent(rows)
    ensures forall k :: k in m <==> exists i :: 0 <= i < |rows| && KeyFor(rows[i]) == k
  {
    if rows == [] then map[]
    else
      var init := rows[..|rows| - 1];
      var last := rows[|rows| - 1];
      assert forall b :: b in init ==> b in rows;
      var m := RowsMap(init)[KeyFor(last) := PricesOf(last)];
      assert forall i :: 0 <= i < |init| ==> KeyFor(rows[i]) == KeyFor(init[i]);
      m
  }

  /** With distinct keys every inserted row is stored under its own key. */
  lemma {:induction false} RowsMapValues(rows: seq<Bar>)
    requires KeysPresent(rows) && KeysDistinct(rows)
    ensures forall i :: 0 <= i < |rows| ==> RowsMap(rows)[KeyFor(rows[i])] == PricesOf(rows[i])
  {
    if rows != [] {
      var n := |rows| - 1;
      var init := rows[..n];
      KeysPrefix(rows, n);
      RowsMapValues(init);
      forall i | 0 <= i < n
        ensures KeyFor(rows[i]) != KeyFor(rows[n]) && rows[i] == init[i]
      {
        assert rows[i] in rows && rows[n] in rows;
        assert KeyOf(rows[i]) != KeyOf(rows[n]);
      }
    }
  }

  /** A prefix of keyed rows with distinct keys is keyed with distinct keys. */
  lemma KeysPrefix(rows: seq<Bar>, n: nat)
    requires n <= |rows| && KeysPresent(rows) && KeysDistinct(rows)
    ensures KeysPresent(rows[..n]) && KeysDistinct(rows[..n])
  {
    assert forall b :: b in rows[..n] ==> b in rows;
  }

  /** The whole INSERT succeeds: every column present, every key present, new and unique. */
  predicate Insertable(table: Table, f: Frame) {
    && HasColumns(f, RequiredColumns)
    && KeysPresent(f.rows)
    && KeysDistinct(f.rows)
    && forall b :: b in f.rows ==> KeyFor(b) !in table
  }

  /** The outcome of an upsert: what it returns or raises, and the table afterwards. */
  datatype Upserted = Upserted(result: Result<nat, StoreError>, table: Table)

  /**
    `upsert_data`: an empty row set is a no-op returning 0; otherwise the
    span of the first row's ticker is deleted and every row is inserted.
    The DELETE and the INSERT are separate statements: when the INSERT is
    refused, the deletion stays.
  */
  function UpsertSpec(table: Table, connected: bool, f: Frame): (u: Upserted)
    ensures IsEmpty(f) ==> u == Upserted(Success(0), table)
    ensures u.result.Success? && !IsEmpty(f) ==> u.result.value == |f.rows|
    ensures forall k :: k in table && !InSpan(k, SpanOf(f)) ==> k in u.table && u.table[k] == table[k]
    ensures u.result.Failure? ==> u.table == table || u.table == Without(table, SpanOf(f))
  {
    if IsEmpty(f) then Upserted(Success(0), table)
    else if Ticker !in f.columns || Date !in f.columns then Upserted(Failure(MissingColumn), table)
    else if !connected then Upserted(Failure(NotConnected), table)
    else
      var kept := Without(table, SpanOf(f));
      if !HasColumns(f, RequiredColumns) then Upserted(Failure(MissingColumn), kept)
      else if !Insertable(kept, f) then Upserted(Failure(ConstraintViolation), kept)
      else
        var added := RowsMap(f.rows);
        assert forall k :: k in kept ==> k !in added;
        Upserted(Success(|f.rows|), kept + added)
  }

  /**
    After a successful upsert of a non-empty row set, the stored rows of the
    first row's ticker dated within the span are exactly the rows of the row
    set, and every row of the row set is stored under its key.
  */
  lemma UpsertStoresSpanExactly(table: Table, f: Frame)
    requires !IsEmpty(f) && UpsertSpec(table, true, f).result.Success?
    ensures SpanOf(f).Some?
    ensures forall i :: 0 <= i < |f.rows| ==>
      HasKey(f.rows[i]) && UpsertSpec(table, true, f).table[KeyFor(f.rows[i])] == PricesOf(f.rows[i])
    ensures forall k :: InSpan(k, SpanOf(f)) ==>
      (k in UpsertSpec(table, true, f).table <==> exists i :: 0 <= i < |f.rows| && KeyFor(f.rows[i]) == k)
  {
    var rows := f.rows;
    assert HasKey(rows[0]);
    assert rows[0].date.value in PresentDates(rows);
    UpsertStoresRows(table, f);
    UpsertSpanKeys(table, f);
  }

  /** A successful upsert stores every row of the row set under its key. */
  lemma UpsertStoresRows(table: Table, f: Frame)
    requires !IsEmpty(f) && UpsertSpec(table, true, f).result.Success?
    ensures forall i :: 0 <= i < |f.rows| ==>
      HasKey(f.rows[i]) && UpsertSpec(table, true, f).table[KeyFor(f.rows[i])] == PricesOf(f.rows[i])
  {
    UpsertSucceeded(table, f);
    var rows := f.rows;
    var stored := Without(table, SpanOf(f)) + RowsMap(rows);
    RowsMapValues(rows);
    forall i | 0 <= i < |rows|
      ensures HasKey(rows[i]) && stored[KeyFor(rows[i])] == PricesOf(rows[i])
    {
      assert rows[i] in rows;
    }
  }

  /** After a successful upsert the keys of the span are exactly the keys of the row set. */
  lemma UpsertSpanKeys(table: Table, f: Frame)
    requires !IsEmpty(f) && UpsertSpec(table, true, f).result.Success?
    ensures forall k :: InSpan(k, SpanOf(f)) ==>
      (k in UpsertSpec(table, true, f).table <==> exists i :: 0 <= i < |f.rows| && KeyFor(f.rows[i]) == k)
  {
    UpsertSucceeded(table, f);
    var rows := f.rows;
    var kept := Without(table, SpanOf(f));
    var stored := kept + RowsMap(rows);
    forall k | InSpan(k, SpanOf(f))
      ensures k in stored <==> exists i :: 0 <= i < |rows| && KeyFor(rows[i]) == k
    {
      assert k !in kept;
    }
  }

  /** A successful upsert passed every check and stored the kept rows plus the new ones. */
  lemma UpsertSucceeded(table: Table, f: Frame)
    requires !IsEmpty(f) && UpsertSpec(table, true, f).result.Success?
    ensures Insertable(Without(table, SpanOf(f)), f)
    ensures UpsertSpec(table, true, f).table == Without(table, SpanOf(f)) + RowsMap(f.rows)
  {
  }

  /**
    The converse of `UpsertSucceeded` for a single-ticker row set: when
    every required column is present and the rows carry distinct keys, a
    connected upsert succeeds with the row count, whatever the table held.
    Every row lies inside the deleted span, so none can collide with a
    row the DELETE kept.
  */
  lemma UpsertSucceedsOnUniqueKeys(table: Table, f: Frame)
    requires !IsEmpty(f) && HasColumns(f, RequiredColumns)
    requires KeysPresent(f.rows) && KeysDistinct(f.rows)
    requires forall b :: b in f.rows ==> b.ticker == f.rows[0].ticker
    ensures Insertable(Without(table, SpanOf(f)), f)
    ensures UpsertSpec(table, true, f).result == Success(|f.rows|)
  {
    var first := f.rows[0];
    assert first in f.rows && HasKey(first);
    assert first.date.value in PresentDates(f.rows);
    var span := SpanOf(f);
    forall b | b in f.rows
      ensures InSpan(KeyFor(b), span)
    {
      assert b.date.value in PresentDates(f.rows);
    }
    assert Ticker in RequiredColumns && Date in RequiredColumns;
  }

  /**
    Upserting a keyed single-ticker row set with distinct keys twice: the
    first call succeeds with the row count, and the second returns the
    same and leaves the table as the first call left it.
  */
  lemma UpsertIdempotent(table: Table, f: Frame)
    requires !IsEmpty(f) && HasColumns(f, RequiredColumns)
    requires KeysPresent(f.rows) && KeysDistinct(f.rows)
    requires forall b :: b in f.rows ==> b.ticker == f.rows[0].ticker
    ensures UpsertSpec(table, true, f).result == Success(|f.rows|)
    ensures UpsertSpec(UpsertSpec(table, true, f).table, true, f) == UpsertSpec(table, true, f)
  {
    UpsertSucceedsOnUniqueKeys(table, f);
    UpsertSucceeded(table, f);
    DeleteAfterUpsert(table, f);
  }

  /** Deleting the span again after a successful single-ticker upsert leaves what the first deletion left. */
  lemma DeleteAfterUpsert(table: Table, f: Frame)
    requires !IsEmpty(f) && UpsertSpec(table, true, f).result.Success?
    requires forall b :: b in f.rows ==> b.ticker == f.rows[0].ticker
    ensures Without(UpsertSpec(table, true, f).table, SpanOf(f)) == Without(table, SpanOf(f))
  {
    var u := UpsertSpec(table, true, f);
    var span := SpanOf(f);
    UpsertStoresSpanExactly(table, f);
    forall i | 0 <= i < |f.rows|
      ensures InSpan(KeyFor(f.rows[i]), span)
    {
      assert f.rows[i] in f.rows;
      assert f.rows[i].date.value in PresentDates(f.rows);
    }
    UpsertSucceeded(table, f);
  }

  /** An upsert whose rows repeat a key is refused after the span is deleted. */
  lemma UpsertRejectsRepeatedKey(table: Table, f: Frame, i: nat, j: nat)
    requires !IsEmpty(f) && HasColumns(f, RequiredColumns)
    requires i < j < |f.rows| && KeyOf(f.rows[i]) == KeyOf(f.rows[j])
    ensures UpsertSpec(table, true, f) == Upserted(Failure(ConstraintViolation), Without(table, SpanOf(f)))
  {
    assert Ticker in RequiredColumns && Date in RequiredColumns;
  }

  /**
    An upsert is refused when one of its rows has the key of a stored row
    outside the span, such as a row of another ticker; the span is deleted
    nevertheless.
  */
  lemma UpsertRejectsStoredKey(table: Table, f: Frame, i: nat)
    requires !IsEmpty(f) && HasColumns(f, RequiredColumns)
    requires i < |f.rows| && HasKey(f.rows[i])
    requires KeyFor(f.rows[i]) in table && !InSpan(KeyFor(f.rows[i]), SpanOf(f))
    ensures UpsertSpec(table, true, f) == Upserted(Failure(ConstraintViolation), Without(table, SpanOf(f)))
  {
    assert Ticker in RequiredColumns && Date in RequiredColumns;
    assert f.rows[i] in f.rows;
  }

  /** A closed store changes nothing and raises on a non-empty row set. */
  lemma UpsertClosed(table: Table, f: Frame)
    ensures UpsertSpec(table, false, f).table == table
    ensures UpsertSpec(table, false, f).result.Success? <==> IsEmpty(f)
  {
  }

  /**
    A non-empty row set without a `ticker` or `date` column raises before
    any statement runs, so the table is unchanged.
  */
  lemma UpsertNeedsKeyColumns(table: Table, connected: bool, f: Frame)
    requires !IsEmpty(f) && (Ticker !in f.columns || Date !in f.columns)
    ensures UpsertSpec(table, connected, f) == Upserted(Failure(MissingColumn), table)
  {
  }

  // ---------------------------------------------------------------------
  // Bulk upsert
  // ---------------------------------------------------------------------

  /** The outcome of a bulk upsert: the count per ticker, and the table afterwards. */
  datatype Bulk = Bulk(results: map<Symbol, nat>, table: Table)

  /** The count a ticker gets in a bulk upsert: the upsert's return value, or 0 when it raised. */
  function CountOf(r: Result<nat, StoreError>): nat {
    if r.Success? then r.value else 0
  }

  /**
    `bulk_upsert`: upserts the row sets one after the other, mapping each
    ticker to its count, 0 for a missing row set or a raised error.
  */
  function BulkSpec(table: Table, connected: bool, items: seq<(Symbol, Option<Frame>)>): (r: Bulk)
    ensures forall t :: t in r.results <==> exists i :: 0 <= i < |items| && items[i].0 == t
  {
    if items == [] then Bulk(map[], table)
    else
      var init := items[..|items| - 1];
      var (t, df) := items[|items| - 1];
      var prev := BulkSpec(table, connected, init);
      assert forall i :: 0 <= i < |init| ==> items[i] == init[i];
      if df.None? then Bulk(prev.results[t := 0], prev.table)
      else
        var u := UpsertSpec(prev.table, connected, df.value);
        Bulk(prev.results[t := CountOf(u.result)], u.table)
  }

  /** The count `bulk_upsert` records for one item upserted into `table`. */
  function ItemCount(table: Table, connected: bool, df: Option<Frame>): nat {
    if df.None? then 0 else CountOf(UpsertSpec(table, connected, df.value).result)
  }

  /** The count the last item of a bulk upsert records, on the table the earlier items left. */
  lemma BulkLastCount(table: Table, connected: bool, items: seq<(Symbol, Option<Frame>)>)
    requires items != []
    ensures var n := |items| - 1;
      BulkSpec(table, connected, items).results[items[n].0]
      == ItemCount(BulkSpec(table, connected, items[..n]).table, connected, items[n].1)
  {
  }

  /** An item's count survives the later items of other tickers. */
  lemma BulkKeepsCount(table: Table, connected: bool, items: seq<(Symbol, Option<Frame>)>, t: Symbol)
    requires items != [] && items[|items| - 1].0 != t
    requires t in BulkSpec(table, connected, items[..|items| - 1]).results
    ensures BulkSpec(table, connected, items).results[t]
            == BulkSpec(table, connected, items[..|items| - 1]).results[t]
  {
  }

  /** The count of item `i`, given the counts of the items before the last one. */
  lemma BulkCountAt(table: Table, connected: bool, items: seq<(Symbol, Option<Frame>)>, i: nat)
    requires i < |items| && (items[i].0 != items[|items| - 1].0 || i == |items| - 1)
    requires var init := items[..|items| - 1];
      i < |init| ==> BulkSpec(table, connected, init).results[init[i].0]
                     == ItemCount(BulkSpec(table, connected, init[..i]).table, connected, init[i].1)
    ensures BulkSpec(table, connected, items).results[items[i].0]
            == ItemCount(BulkSpec(table, connected, items[..i]).table, connected, items[i].1)
  {
    if i < |items| - 1 {
      BulkCountEarlier(table, connected, items, i);
    } else {
      BulkLastCount(table, connected, items);
    }
  }

  /** The count of an item before the last one, whose ticker the last item does not repeat. */
  lemma BulkCountEarlier(table: Table, connected: bool, items: seq<(Symbol, Option<Frame>)>, i: nat)
    requires i < |items| - 1 && items[i].0 != items[|items| - 1].0
    requires var init := items[..|items| - 1];
      BulkSpec(table, connected, init).results[init[i].0]
      == ItemCount(BulkSpec(table, connected, init[..i]).table, connected, init[i].1)
    ensures BulkSpec(table, connected, items).results[items[i].0]
            == ItemCount(BulkSpec(table, connected, items[..i]).table, connected, items[i].1)
  {
    var init := items[..|items| - 1];
    assert init[..i] == items[..i] && init[i] == items[i];
    BulkKeepsCount(table, connected, items, items[i].0);
  }

  /**
    With distinct tickers, each ticker's count is what its own upsert
    returned on the table the earlier tickers left, or 0.
  */
  lemma {:induction false} BulkCounts(table: Table, connected: bool, items: seq<(Symbol, Option<Frame>)>)
    requires forall i, j :: 0 <= i < j < |items| ==> items[i].0 != items[j].0
    ensures forall i :: 0 <= i < |items| ==>
      BulkSpec(table, connected, items).results[items[i].0]
      == ItemCount(BulkSpec(table, connected, items[..i]).table, connected, items[i].1)
  {
    if items != [] {
      var init := items[..|items| - 1];
      BulkCounts(table, connected, init);
      forall i | 0 <= i < |items|
        ensures BulkSpec(table, connected, items).results[items[i].0]
                == ItemCount(BulkSpec(table, connected, items[..i]).table, connected, items[i].1)
      {
        BulkCountAt(table, connected, items, i);
      }
    }
  }

  /** On a closed store a bulk upsert changes nothing and counts 0 for every ticker. */
  lemma {:induction false} BulkClosed(table: Table, items: seq<(Symbol, Option<Frame>)>)
    ensures BulkSpec(table, false, items).table == table
    ensures forall t :: t in BulkSpec(table, false, items).results ==> BulkSpec(table, false, items).results[t] == 0
  {
    if items != [] {
      BulkClosed(table, items[..|items| - 1]);
      var df := items[|items| - 1].1;
      if df.Some? {
        UpsertClosed(table, df.value);
        assert !IsEmpty(df.value) ==> CountOf(UpsertSpec(table, false, df.value).result) == 0;
      }
    }
  }

  // ---------------------------------------------------------------------
  // The store
  // ---------------------------------------------------------------------

  class DuckDBStorage {
    /** Whether `conn` holds an open connection. */
    var connected: bool
    /** The rows of `stock_prices`, kept in the database file across connections. */
    var table: Table

    /** A store over a database file holding `stored`, not yet connected. */
    constructor (stored: Table)
      ensures !connected && table == stored
    {
      connected := false;
      table := stored;
    }

    /**
      `connect`: opens the database only when no connection is held;
      `opens` is whether opening the file succeeds.
    */
    method Connect(opens: bool) returns (r: Result<(), StoreError>)
      modifies this
      ensures old(connected) ==> connected && r.Success?
      ensures !old(connected) ==> connected == opens && (r.Success? <==> opens)
      ensures r.Failure? ==> r.error == ConnectFailed
      ensures table == old(table)
    {
      if !connected {
        if !opens {
          return Failure(ConnectFailed);
        }
        connected := true;
      }
      r := Success(());
    }

    /** `close`: releases the connection if one is held. */
    method Close()
      modifies this
      ensures !connected && table == old(table)
    {
      if connected {
        connected := false;
      }
    }

    method GetLastDate(t: Symbol) returns (r: Result<Option<Day>, StoreError>)
      ensures r == if connected then Success(LastDate(table, t)) else Failure(NotConnected)
    {
      if !connected {
        return Failure(NotConnected);
      }
      r := Success(LastDate(table, t));
    }

    method UpsertData(f: Frame) returns (r: Result<nat, StoreError>)
      modifies this
      ensures connected == old(connected)
      ensures r == UpsertSpec(old(table), connected, f).result
      ensures table == UpsertSpec(old(table), connected, f).table
    {
      if IsEmpty(f) {
        return Success(0);
      }
      if Ticker !in f.columns || Date !in f.columns {
        return Failure(MissingColumn);
      }
      if !connected {
        return Failure(NotConnected);
      }
      var span := SpanOf(f);
      table := Without(table, span);
      if !HasColumns(f, RequiredColumns) {
        return Failure(MissingColumn);
      }
      if !Insertable(table, f) {
        return Failure(ConstraintViolation);
      }
      table := table + RowsMap(f.rows);
      r := Success(|f.rows|);
    }

    method BulkUpsert(items: seq<(Symbol, Option<Frame>)>) returns (results: map<Symbol, nat>)
      modifies this
      ensures connected == old(connected)
      ensures results == BulkSpec(old(table), connected, items).results
      ensures table == BulkSpec(old(table), connected, items).table
    {
      results := map[];
      for i := 0 to |items|
        invariant connected == old(connected)
        invariant results == BulkSpec(old(table), connected, items[..i]).results
        invariant table == BulkSpec(old(table), connected, items[..i]).table
      {
        var (t, df) := items[i];
        assert items[..i + 1][..i] == items[..i];
        if df.Some? {
          var rows := UpsertData(df.value);
          results := results[t := CountOf(rows)];
        } else {
          results := results[t := 0];
        }
      }
      assert items[..|items|] == items;
    }

    method QueryTickerData(t: Symbol, start: Option<Day>, end: Option<Day>) returns (r: Result<seq<Bar>, StoreError>)
      ensures r == if connected then Success(TickerRows(table, t, start, end)) else Failure(NotConnected)
    {
      if !connected {
        return Failure(NotConnected);
      }
      r := Success(TickerRows(table, t, start, end));
    }

    /** `get_available_tickers`: the distinct stored tickers in increasing order. */
    method GetAvailableTickers() returns (r: Result<seq<Symbol>, StoreError>)
      ensures connected ==> r.Success? && (forall i, j :: 0 <= i < j < |r.value| ==> Below(r.value[i], r.value[j]))
      ensures connected ==> forall t :: t in r.value <==> exists d :: Key(t, d) in table
      ensures !connected ==> r == Failure(NotConnected)
    {
      if !connected {
        return Failure(NotConnected);
      }
      r := Success(SortedSymbols(Tickers(table)));
    }

    method GetDataSummary() returns (r: Result<seq<Summary>, StoreError>)
      ensures r == if connected then Success(DataSummary(table)) else Failure(NotConnected)
    {
      if !connected {
        return Failure(NotConnected);
      }
      r := Success(DataSummary(table));
    }
  }
}
