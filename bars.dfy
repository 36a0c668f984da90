/**
  Daily price bars and the row sets (pandas DataFrames) that the ingestion
  code passes between its components.

  A row set has a set of named columns, each with a type tag standing for the
  pandas dtype, and a sequence of rows. Dates are day numbers. Prices and
  volume are only ever compared, so they are integers; a missing value (a
  NaN or a None) is `None`, and every comparison involving it is false.
*/
module Bars {
  import opened Wrappers

  /** A calendar date as a day number: the next day is `d + 1`. */
  type Day = int

  /** A ticker symbol. */
  type Symbol = string

  /** The eight columns a price-bar row set is required to have. */
  datatype Column = Ticker | Date | Open | High | Low | Close | Volume | AdjClose {
    predicate IsNumeric() { !Ticker? && !Date? }
  }

  /** The required columns, in the order the validator lists them. */
  const RequiredColumns: seq<Column> := [Ticker, Date, Open, High, Low, Close, Volume, AdjClose]

  /** The price columns, in the order the validator visits them. */
  const PriceColumns: seq<Column> := [Open, High, Low, Close, AdjClose]

  /**
    What pandas reports about a column's dtype: whether it is a string dtype,
    a numeric dtype, and whether `pd.to_datetime` accepts the column.
  */
  datatype ColumnType = ColumnType(isString: bool, isNumeric: bool, parsesAsDate: bool)

  /** One row: a daily observation of one ticker; `None` is a missing value. */
  datatype Bar = Bar(
    ticker: Option<Symbol>,
    date: Option<Day>,
    open: Option<int>,
    high: Option<int>,
    low: Option<int>,
    close: Option<int>,
    volume: Option<int>,
    adjClose: Option<int>)

  /**
    A row set: its modelled columns with their type tags, whether it also has
    columns outside the modelled eight (whose values no operation reads), and
    its rows in order.
  */
  datatype Frame = Frame(columns: map<Column, ColumnType>, otherColumns: bool, rows: seq<Bar>)

  /** The value of a numeric column in a row; `ticker` and `date` have none. */
  function Value(b: Bar, c: Column): Option<int> {
    match c
    case Ticker => None
    case Date => None
    case Open => b.open
    case High => b.high
    case Low => b.low
    case Close => b.close
    case Volume => b.volume
    case AdjClose => b.adjClose
  }

  /** True when the row has no value in column `c`. */
  predicate IsNull(b: Bar, c: Column) {
    match c
    case Ticker => b.ticker.None?
    case Date => b.date.None?
    case _ => Value(b, c).None?
  }

  /** `b[c] < 0` as pandas evaluates it: false on a missing value. */
  predicate IsNegative(b: Bar, c: Column) {
    Value(b, c).Some? && Value(b, c).value < 0
  }

  /** `b[c] >= 0` as pandas evaluates it: false on a missing value. */
  predicate AtLeastZero(b: Bar, c: Column) {
    Value(b, c).Some? && Value(b, c).value >= 0
  }

  /** `high < low` as pandas evaluates it: false when either is missing. */
  predicate HighBelowLow(b: Bar) {
    b.high.Some? && b.low.Some? && b.high.value < b.low.value
  }

  /** `high >= low` as pandas evaluates it: false when either is missing. */
  predicate HighAtLeastLow(b: Bar) {
    b.high.Some? && b.low.Some? && b.high.value >= b.low.value
  }

  /** The natural key of a row, missing parts included. */
  function KeyOf(b: Bar): (Option<Symbol>, Option<Day>) {
    (b.ticker, b.date)
  }

  /** pandas `df.empty`: no rows, or no columns at all. */
  predicate IsEmpty(f: Frame) {
    |f.rows| == 0 || (|f.columns| == 0 && !f.otherColumns)
  }

  /** Every column of `cs` is present in the row set. */
  predicate HasColumns(f: Frame, cs: seq<Column>) {
    forall c :: c in cs ==> c in f.columns
  }

  /** The dates present in the rows, in row order, missing ones skipped. */
  function PresentDates(rows: seq<Bar>): (ds: seq<Day>)
    ensures |ds| <= |rows|
    ensures forall d :: d in ds <==> exists b :: b in rows && b.date == Some(d)
  {
    if rows == [] then []
    else
      var rest := PresentDates(rows[1..]);
      assert forall b :: b in rows <==> b == rows[0] || b in rows[1..];
      if rows[0].date.Some? then [rows[0].date.value] + rest else rest
  }

  /** Non-decreasing order. */
  predicate Ascending(s: seq<int>) {
    forall i, j :: 0 <= i < j < |s| ==> s[i] <= s[j]
  }

  /** Strictly increasing order, hence no repeats. */
  predicate StrictlyAscending(s: seq<int>) {
    forall i, j :: 0 <= i < j < |s| ==> s[i] < s[j]
  }

  /** Inserts `x` before the first element of `s` that is not below it. */
  function Insert(x: int, s: seq<int>): (r: seq<int>)
    ensures multiset(r) == multiset(s) + multiset{x}
  {
    if s == [] || x <= s[0] then [x] + s
    else
      assert s == [s[0]] + s[1..];
      [s[0]] + Insert(x, s[1..])
  }

  /** Inserting into an ascending sequence keeps it ascending. */
  lemma {:induction false} InsertAscending(x: int, s: seq<int>)
    requires Ascending(s)
    ensures Ascending(Insert(x, s))
  {
    if s != [] && x > s[0] {
      var rest := Insert(x, s[1..]);
      InsertAscending(x, s[1..]);
      forall y | y in rest
        ensures s[0] <= y
      {
        assert y in multiset(rest);
        if y != x {
          assert y in multiset(s[1..]);
          var k :| 0 <= k < |s[1..]| && s[1..][k] == y;
          assert s[k + 1] == y;
        }
      }
      AscendingCons(s[0], rest);
    } else {
      AscendingCons(x, s);
    }
  }

  /** A sequence stays ascending when an element below all of its elements goes in front. */
  lemma AscendingCons(a: int, r: seq<int>)
    requires Ascending(r) && forall y :: y in r ==> a <= y
    ensures Ascending([a] + r)
  {
    forall i, j | 0 <= i < j < |[a] + r|
      ensures ([a] + r)[i] <= ([a] + r)[j]
    {
      if i > 0 {
        assert ([a] + r)[i] == r[i - 1];
      }
      assert ([a] + r)[j] == r[j - 1] && r[j - 1] in r;
    }
  }

  /** `sort_values` on a column of integers: an ascending permutation. */
  function Sort(s: seq<int>): (r: seq<int>)
    ensures Ascending(r)
    ensures multiset(r) == multiset(s)
  {
    if s == [] then []
    else
      assert s == [s[0]] + s[1..];
      InsertAscending(s[0], Sort(s[1..]));
      Insert(s[0], Sort(s[1..]))
  }

  /** The first element of an ascending sequence is its least. */
  lemma FirstIsLeast(s: seq<int>, y: int)
    requires Ascending(s) && y in s
    ensures s[0] <= y
  {
    var k :| 0 <= k < |s| && s[k] == y;
  }

  /** Two sequences with the same first element and the same multiset have tails with the same multiset. */
  lemma SameHeadSameTail(a: seq<int>, b: seq<int>)
    requires |a| > 0 && |b| > 0 && a[0] == b[0]
    requires multiset(a) == multiset(b)
    ensures multiset(a[1..]) == multiset(b[1..])
  {
    assert a == [a[0]] + a[1..];
    assert b == [b[0]] + b[1..];
    assert multiset(a[1..]) == multiset(a) - multiset{a[0]};
    assert multiset(b[1..]) == multiset(b) - multiset{b[0]};
  }

  /** An ascending sequence is determined by its elements and their multiplicities. */
  lemma {:induction false} AscendingUnique(a: seq<int>, b: seq<int>)
    requires Ascending(a) && Ascending(b)
    requires multiset(a) == multiset(b)
    ensures a == b
  {
    assert |a| == |multiset(a)| == |multiset(b)| == |b|;
    if a != [] {
      assert a[0] in multiset(b) && b[0] in multiset(a);
      FirstIsLeast(b, a[0]);
      FirstIsLeast(a, b[0]);
      SameHeadSameTail(a, b);
      AscendingUnique(a[1..], b[1..]);
      assert a == [a[0]] + a[1..];
      assert b == [b[0]] + b[1..];
    }
  }

  /** A non-empty set of days has an element. */
  lemma NonEmptyHasDay(s: set<Day>)
    requires s != {}
    ensures exists y :: y in s
  {
    if forall y :: y !in s {
      assert false;
    }
  }

  /** Some element of a non-empty set of days. */
  ghost function PickDay(s: set<Day>): (y: Day)
    requires s != {}
    ensures y in s
  {
    NonEmptyHasDay(s);
    var y :| y in s; y
  }

  /** A finite non-empty set of days has a least and a greatest element. */
  lemma {:induction false} DayBoundsExist(s: set<Day>)
    requires s != {}
    ensures exists m :: m in s && forall x :: x in s ==> m <= x
    ensures exists m :: m in s && forall x :: x in s ==> x <= m
  {
    var y := PickDay(s);
    if s != {y} {
      assert forall x :: x in s ==> x == y || x in s - {y};
      DayBoundsExist(s - {y});
      var lo :| lo in s - {y} && forall x :: x in s - {y} ==> lo <= x;
      var hi :| hi in s - {y} && forall x :: x in s - {y} ==> x <= hi;
      var m1 := if y <= lo then y else lo;
      var m2 := if hi <= y then y else hi;
      assert m1 in s && forall x :: x in s ==> m1 <= x;
      assert m2 in s && forall x :: x in s ==> x <= m2;
    } else {
      assert forall x :: x in s ==> y <= x;
    }
  }

  /** The least element of a finite non-empty set of days. */
  function MinDay(s: set<Day>): (m: Day)
    requires s != {}
    ensures m in s && forall x :: x in s ==> m <= x
  {
    DayBoundsExist(s);
    var m :| m in s && forall x :: x in s ==> m <= x;
    m
  }

  /** The greatest element of a finite non-empty set of days. */
  function MaxDay(s: set<Day>): (m: Day)
    requires s != {}
    ensures m in s && forall x :: x in s ==> x <= m
  {
    DayBoundsExist(s);
    var m :| m in s && forall x :: x in s ==> x <= m;
    m
  }

  /** The days of a finite set in increasing order. */
  function SortedDays(s: set<Day>): (r: seq<Day>)
    ensures StrictlyAscending(r)
    ensures forall d :: d in r <==> d in s
    ensures |r| == |s|
    decreases |s|
  {
    if s == {} then []
    else
      var m := MinDay(s);
      [m] + SortedDays(s - {m})
  }
}
