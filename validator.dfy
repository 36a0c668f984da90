/**
  The row-set validator (`DataValidator`): a schema gate that produces hard
  errors, a quality pass that produces warnings, their composition, and the
  filter that drops the rows the quality pass objects to.

  Messages are tags: the text of the source's f-strings is not modelled, the
  counts they report are.
*/
module Validator {
  import opened Wrappers
  import opened Bars

  /** A hard error of the schema gate. */
  datatype SchemaError =
    | EmptyFrame
    | MissingColumns(missing: set<Column>)
    | TickerNotString
    | DateNotParseable
    | NotNumeric(column: Column)

  /** A warning of the quality pass. */
  datatype Warning =
    | EmptyData
    | InsufficientData(rows: nat, minimum: nat)
    | NegativeValues(column: Column, count: nat)
    | HighBelowLowRows(count: nat)
    | MissingValues(column: Column, count: nat)
    | DuplicateKeys(count: nat)
    | DateGaps(count: nat)
    | SkippedQuality

  /** An exception raised instead of a result: a column looked up by name is absent. */
  datatype Raised = KeyError

  /** The columns whose dtype must be numeric, in the order they are checked. */
  const NumericColumns: seq<Column> := PriceColumns + [Volume]

  /** The largest gap in days between consecutive dates that draws no warning. */
  const MaxGapDays: int := 7

  // ---------------------------------------------------------------------
  // Schema gate
  // ---------------------------------------------------------------------

  /** The required columns absent from the row set. */
  function MissingRequired(f: Frame): set<Column> {
    set c | c in RequiredColumns && c !in f.columns
  }

  /** The dtype errors of the numeric columns `cs` that are present, in order. */
  function NumericErrors(columns: map<Column, ColumnType>, cs: seq<Column>): seq<SchemaError> {
    if cs == [] then []
    else
      var last := cs[|cs| - 1];
      NumericErrors(columns, cs[..|cs| - 1])
      + (if last in columns && !columns[last].isNumeric then [NotNumeric(last)] else [])
  }

  /** The errors about absent columns and the dtypes of `ticker` and `date`, in order. */
  function ColumnErrors(f: Frame): seq<SchemaError> {
    var missing := MissingRequired(f);
    (if missing != {} then [MissingColumns(missing)] else [])
    + (if Ticker in f.columns && !f.columns[Ticker].isString then [TickerNotString] else [])
    + (if Date in f.columns && !f.columns[Date].parsesAsDate then [DateNotParseable] else [])
  }

  /** The errors the schema gate reports for a row set, in the order it reports them. */
  function SchemaErrors(f: Frame): seq<SchemaError> {
    if IsEmpty(f) then [EmptyFrame]
    else ColumnErrors(f) + NumericErrors(f.columns, NumericColumns)
  }

  /** A row set the schema gate should accept, stated column by column. */
  predicate SchemaConforms(f: Frame) {
    && !IsEmpty(f)
    && (forall c :: c in RequiredColumns ==> c in f.columns)
    && f.columns[Ticker].isString
    && f.columns[Date].parsesAsDate
    && (forall c :: c in f.columns && c.IsNumeric() ==> f.columns[c].isNumeric)
  }

  /** The numeric dtype errors are empty iff every present column of `cs` is numeric. */
  lemma {:induction false} NumericErrorsEmpty(columns: map<Column, ColumnType>, cs: seq<Column>)
    ensures NumericErrors(columns, cs) == []
            <==> forall c :: c in cs && c in columns ==> columns[c].isNumeric
  {
    if cs != [] {
      var init := cs[..|cs| - 1];
      NumericErrorsEmpty(columns, init);
      assert forall c :: c in cs <==> c in init || c == cs[|cs| - 1];
    }
  }

  /** The schema gate passes exactly on conforming row sets. */
  lemma SchemaPassesIff(f: Frame)
    ensures SchemaErrors(f) == [] <==> SchemaConforms(f)
  {
    if !IsEmpty(f) {
      NumericErrorsEmpty(f.columns, NumericColumns);
      assert forall c: Column :: c.IsNumeric() <==> c in NumericColumns;
      if forall c :: c in RequiredColumns ==> c in f.columns {
        assert MissingRequired(f) == {};
      } else {
        var c :| c in RequiredColumns && c !in f.columns;
        assert c in MissingRequired(f);
      }
    }
  }

  /** An empty row set draws exactly one schema error. */
  lemma SchemaEmpty(f: Frame)
    requires IsEmpty(f)
    ensures SchemaErrors(f) == [EmptyFrame]
  {
  }

  /** A row set that passes the schema gate has rows and every required column. */
  lemma SchemaPassHasColumns(f: Frame)
    requires SchemaErrors(f) == []
    ensures !IsEmpty(f) && HasColumns(f, RequiredColumns)
  {
    SchemaPassesIff(f);
  }

  /** `validate_schema`: collects the hard errors of a row set. */
  method ValidateSchema(f: Frame) returns (valid: bool, errors: seq<SchemaError>)
    ensures errors == SchemaErrors(f)
    ensures valid <==> errors == []
  {
    errors := [];
    if IsEmpty(f) {
      errors := errors + [EmptyFrame];
      return false, errors;
    }
    var missing := MissingRequired(f);
    if missing != {} {
      errors := errors + [MissingColumns(missing)];
    }
    if Ticker in f.columns && !f.columns[Ticker].isString {
      errors := errors + [TickerNotString];
    }
    if Date in f.columns && !f.columns[Date].parsesAsDate {
      errors := errors + [DateNotParseable];
    }
    assert errors == ColumnErrors(f);
    var numeric := CheckNumeric(f.columns);
    errors := errors + numeric;
    valid := |errors| == 0;
  }

  /** The numeric dtype checks of the schema gate, one per numeric column. */
  method CheckNumeric(columns: map<Column, ColumnType>) returns (numeric: seq<SchemaError>)
    ensures numeric == NumericErrors(columns, NumericColumns)
  {
    numeric := [];
    for i := 0 to |PriceColumns|
      invariant numeric == NumericErrors(columns, PriceColumns[..i])
    {
      var col := PriceColumns[i];
      if col in columns && !columns[col].isNumeric {
        numeric := numeric + [NotNumeric(col)];
      }
      assert PriceColumns[..i + 1][..i] == PriceColumns[..i];
    }
    if Volume in columns && !columns[Volume].isNumeric {
      numeric := numeric + [NotNumeric(Volume)];
    }
    NumericErrorsLast(columns);
  }

  /** The numeric dtype errors: those of the price columns, then that of `volume`. */
  lemma NumericErrorsLast(columns: map<Column, ColumnType>)
    ensures NumericErrors(columns, NumericColumns)
            == NumericErrors(columns, PriceColumns[..|PriceColumns|])
               + (if Volume in columns && !columns[Volume].isNumeric then [NotNumeric(Volume)] else [])
  {
    assert NumericColumns[..|NumericColumns| - 1] == PriceColumns[..|PriceColumns|];
  }

  // ---------------------------------------------------------------------
  // Counting rows
  // ---------------------------------------------------------------------

  /** The number of rows satisfying `p`. */
  function Count(rows: seq<Bar>, p: Bar -> bool): (n: nat)
    ensures n <= |rows|
  {
    if rows == [] then 0
    else (if p(rows[0]) then 1 else 0) + Count(rows[1..], p)
  }

  /** No row is counted exactly when no row satisfies `p`. */
  lemma {:induction false} CountZero(rows: seq<Bar>, p: Bar -> bool)
    ensures Count(rows, p) == 0 <==> forall b :: b in rows ==> !p(b)
  {
    if rows != [] {
      CountZero(rows[1..], p);
      assert forall b :: b in rows <==> b == rows[0] || b in rows[1..];
    }
  }

  lemma {:induction false} CountAppend(a: seq<Bar>, b: seq<Bar>, p: Bar -> bool)
    ensures Count(a + b, p) == Count(a, p) + Count(b, p)
  {
    if a == [] {
      assert a + b == b;
    } else {
      assert (a + b)[1..] == a[1..] + b;
      CountAppend(a[1..], b, p);
    }
  }

  /** A row sequence with `b[k]` taken out at position `k`. */
  lemma RemoveAt(b: seq<Bar>, k: nat)
    requires k < |b|
    ensures b == b[..k] + [b[k]] + b[k + 1..]
    ensures multiset(b[..k] + b[k + 1..]) == multiset(b) - multiset{b[k]}
  {
    assert b == b[..k] + [b[k]] + b[k + 1..];
  }

  /** Counting a sequence with the element at `k` taken out. */
  lemma {:induction false} CountRemoveAt(b: seq<Bar>, k: nat, p: Bar -> bool)
    requires k < |b|
    ensures Count(b, p) == Count(b[..k] + b[k + 1..], p) + (if p(b[k]) then 1 else 0)
  {
    var front, back := b[..k], b[k + 1..];
    var middle := [b[k]] + back;
    assert front + middle == b;
    CountAppend(front, middle, p);
    assert middle[0] == b[k] && middle[1..] == back;
    assert Count(middle, p) == (if p(b[k]) then 1 else 0) + Count(back, p);
    CountAppend(front, back, p);
  }

  /** Counting does not depend on the order of the rows. */
  lemma {:induction false} CountPermutation(a: seq<Bar>, b: seq<Bar>, p: Bar -> bool)
    requires multiset(a) == multiset(b)
    ensures Count(a, p) == Count(b, p)
  {
    assert |a| == |multiset(a)| == |multiset(b)| == |b|;
    if a != [] {
      assert a[0] in multiset(b);
      var k :| 0 <= k < |b| && b[k] == a[0];
      var rest := b[..k] + b[k + 1..];
      RemoveAt(b, k);
      RemoveAt(a, 0);
      assert multiset(a[1..]) == multiset(rest);
      CountPermutation(a[1..], rest, p);
      CountRemoveAt(b, k, p);
      assert Count(a, p) == (if p(a[0]) then 1 else 0) + Count(a[1..], p);
    }
  }

  /** The rows with a negative value in column `c` (a missing value is not negative). */
  function NegativeCount(rows: seq<Bar>, c: Column): nat {
    Count(rows, (b: Bar) => IsNegative(b, c))
  }

  /** The rows whose high is below their low. */
  function HighBelowLowCount(rows: seq<Bar>): nat {
    Count(rows, (b: Bar) => HighBelowLow(b))
  }

  /** The rows with no value in column `c`. */
  function NullCount(rows: seq<Bar>, c: Column): nat {
    Count(rows, (b: Bar) => IsNull(b, c))
  }

  /** The keys of the rows. */
  function KeySet(rows: seq<Bar>): set<(Option<Symbol>, Option<Day>)> {
    set b | b in rows :: KeyOf(b)
  }

  /**
    `df.duplicated(subset=['ticker', 'date']).sum()`: the rows whose key
    repeats the key of an earlier row (two missing values count as equal).
  */
  function DuplicateCount(rows: seq<Bar>): nat {
    if rows == [] then 0
    else
      var init := rows[..|rows| - 1];
      DuplicateCount(init) + (if KeyOf(rows[|rows| - 1]) in KeySet(init) then 1 else 0)
  }

  /** The number of adjacent pairs of `s` more than `MaxGapDays` apart. */
  function GapCount(s: seq<Day>): nat {
    if |s| < 2 then 0
    else (if s[1] - s[0] > MaxGapDays then 1 else 0) + GapCount(s[1..])
  }

  /** The date gaps of the rows: gaps between neighbours once the present dates are sorted. */
  function DateGapCount(rows: seq<Bar>): nat {
    GapCount(Sort(PresentDates(rows)))
  }

  /** The duplicated rows are the rows beyond one per distinct key. */
  lemma {:induction false} DuplicateCountKeys(rows: seq<Bar>)
    ensures DuplicateCount(rows) == |rows| - |KeySet(rows)|
  {
    if rows != [] {
      var init := rows[..|rows| - 1];
      var last := rows[|rows| - 1];
      DuplicateCountKeys(init);
      assert rows == init + [last];
      assert KeySet(rows) == KeySet(init) + {KeyOf(last)};
    }
  }

  /** No row is counted as duplicated exactly when no two rows share a key. */
  lemma {:induction false} DuplicateCountZero(rows: seq<Bar>)
    ensures DuplicateCount(rows) == 0
            <==> forall i, j :: 0 <= i < j < |rows| ==> KeyOf(rows[i]) != KeyOf(rows[j])
  {
    if rows != [] {
      var init := rows[..|rows| - 1];
      var last := rows[|rows| - 1];
      DuplicateCountZero(init);
      if KeyOf(last) in KeySet(init) {
        var b :| b in init && KeyOf(b) == KeyOf(last);
        var i :| 0 <= i < |init| && init[i] == b;
        assert rows[i] == b && rows[|rows| - 1] == last;
      } else {
        forall i, j | 0 <= i < j < |rows| && j == |rows| - 1
          ensures KeyOf(rows[i]) != KeyOf(rows[j])
        {
          assert rows[i] in init;
        }
      }
    }
  }

  /** Two row sequences with the same multiset have the same keys and length. */
  lemma SameMultisetSameKeys(a: seq<Bar>, b: seq<Bar>)
    requires multiset(a) == multiset(b)
    ensures KeySet(a) == KeySet(b) && |a| == |b|
  {
    assert forall x :: x in a <==> x in multiset(a);
    assert forall x :: x in b <==> x in multiset(b);
    assert |a| == |multiset(a)| == |multiset(b)| == |b|;
  }

  /** The duplicate count does not depend on the order of the rows. */
  lemma DuplicateCountPermutation(a: seq<Bar>, b: seq<Bar>)
    requires multiset(a) == multiset(b)
    ensures DuplicateCount(a) == DuplicateCount(b)
  {
    DuplicateCountKeys(a);
    DuplicateCountKeys(b);
    SameMultisetSameKeys(a, b);
  }

  /** A date occurs among the present dates once per row carrying it. */
  lemma {:induction false} PresentDatesCount(rows: seq<Bar>, d: Day)
    ensures multiset(PresentDates(rows))[d] == Count(rows, (b: Bar) => b.date == Some(d))
  {
    if rows != [] {
      PresentDatesCount(rows[1..], d);
    }
  }

  /** The date gaps do not depend on the order of the rows. */
  lemma DateGapCountPermutation(a: seq<Bar>, b: seq<Bar>)
    requires multiset(a) == multiset(b)
    ensures DateGapCount(a) == DateGapCount(b)
  {
    forall d
      ensures multiset(PresentDates(a))[d] == multiset(PresentDates(b))[d]
    {
      PresentDatesCount(a, d);
      PresentDatesCount(b, d);
      CountPermutation(a, b, (r: Bar) => r.date == Some(d));
    }
    assert multiset(PresentDates(a)) == multiset(PresentDates(b));
    AscendingUnique(Sort(PresentDates(a)), Sort(PresentDates(b)));
  }

  /** No adjacent pair is counted exactly when neighbours are at most `MaxGapDays` apart. */
  lemma {:induction false} GapCountZero(s: seq<Day>)
    ensures GapCount(s) == 0 <==> forall i :: 0 <= i < |s| - 1 ==> s[i + 1] - s[i] <= MaxGapDays
  {
    if |s| >= 2 {
      GapCountZero(s[1..]);
      assert forall i :: 1 <= i < |s| - 1 ==> s[i] == s[1..][i - 1] && s[i + 1] == s[1..][i];
    }
  }

  // ---------------------------------------------------------------------
  // Quality pass
  // ---------------------------------------------------------------------

  /** The negative-value warnings for the columns of `cs` that are present, in order. */
  function NegativeWarnings(columns: map<Column, ColumnType>, rows: seq<Bar>, cs: seq<Column>): seq<Warning> {
    if cs == [] then []
    else
      var last := cs[|cs| - 1];
      NegativeWarnings(columns, rows, cs[..|cs| - 1])
      + (if last in columns && NegativeCount(rows, last) > 0 then [NegativeValues(last, NegativeCount(rows, last))] else [])
  }

  /** The missing-value warnings for the columns `cs`, in order. */
  function NullWarnings(rows: seq<Bar>, cs: seq<Column>): seq<Warning> {
    if cs == [] then []
    else
      var last := cs[|cs| - 1];
      NullWarnings(rows, cs[..|cs| - 1])
      + (if NullCount(rows, last) > 0 then [MissingValues(last, NullCount(rows, last))] else [])
  }

  /** The warnings about out-of-range values: negative prices and volume, then high below low. */
  function RangeWarnings(columns: map<Column, ColumnType>, rows: seq<Bar>): seq<Warning> {
    NegativeWarnings(columns, rows, PriceColumns)
    + (if Volume in columns && NegativeCount(rows, Volume) > 0 then [NegativeValues(Volume, NegativeCount(rows, Volume))] else [])
    + (if High in columns && Low in columns && HighBelowLowCount(rows) > 0 then [HighBelowLowRows(HighBelowLowCount(rows))] else [])
  }

  /** The warnings about repeated keys, then about gaps between dates. */
  function SequenceWarnings(rows: seq<Bar>): seq<Warning> {
    (if DuplicateCount(rows) > 0 then [DuplicateKeys(DuplicateCount(rows))] else [])
    + (if |rows| > 1 && DateGapCount(rows) > 0 then [DateGaps(DateGapCount(rows))] else [])
  }

  /** The warnings about the rows of a row set that has every required column. */
  function RowWarnings(columns: map<Column, ColumnType>, rows: seq<Bar>, minRows: nat): seq<Warning> {
    (if |rows| < minRows then [InsufficientData(|rows|, minRows)] else [])
    + RangeWarnings(columns, rows)
    + NullWarnings(rows, RequiredColumns)
    + SequenceWarnings(rows)
  }

  /**
    The outcome of the quality pass: the warnings, or the `KeyError` raised
    when a required column is absent from a non-empty row set.
  */
  function QualityWarnings(f: Frame, minRows: nat): Result<seq<Warning>, Raised> {
    if IsEmpty(f) then Success([EmptyData])
    else if !HasColumns(f, RequiredColumns) then Failure(KeyError)
    else Success(RowWarnings(f.columns, f.rows, minRows))
  }

  /** The range checks of the quality pass, column by column. */
  method CheckRanges(columns: map<Column, ColumnType>, rows: seq<Bar>) returns (ranged: seq<Warning>)
    ensures ranged == RangeWarnings(columns, rows)
  {
    ranged := [];
    for i := 0 to |PriceColumns|
      invariant ranged == NegativeWarnings(columns, rows, PriceColumns[..i])
    {
      var col := PriceColumns[i];
      if col in columns {
        var negative := NegativeCount(rows, col);
        if negative > 0 {
          ranged := ranged + [NegativeValues(col, negative)];
        }
      }
      assert PriceColumns[..i + 1][..i] == PriceColumns[..i];
    }
    assert PriceColumns[..|PriceColumns|] == PriceColumns;
    if Volume in columns {
      var negative := NegativeCount(rows, Volume);
      if negative > 0 {
        ranged := ranged + [NegativeValues(Volume, negative)];
      }
    }
    if High in columns && Low in columns {
      var inverted := HighBelowLowCount(rows);
      if inverted > 0 {
        ranged := ranged + [HighBelowLowRows(inverted)];
      }
    }
  }

  /** The missing-value checks of the quality pass, one per required column. */
  method CheckNulls(rows: seq<Bar>) returns (nulls: seq<Warning>)
    ensures nulls == NullWarnings(rows, RequiredColumns)
  {
    nulls := [];
    for i := 0 to |RequiredColumns|
      invariant nulls == NullWarnings(rows, RequiredColumns[..i])
    {
      var col := RequiredColumns[i];
      var missing := NullCount(rows, col);
      if missing > 0 {
        nulls := nulls + [MissingValues(col, missing)];
      }
      assert RequiredColumns[..i + 1][..i] == RequiredColumns[..i];
    }
    assert RequiredColumns[..|RequiredColumns|] == RequiredColumns;
  }

  /** The repeated-key and date-gap checks of the quality pass. */
  method CheckSequence(rows: seq<Bar>) returns (ordered: seq<Warning>)
    ensures ordered == SequenceWarnings(rows)
  {
    ordered := [];
    var duplicates := DuplicateCount(rows);
    if duplicates > 0 {
      ordered := ordered + [DuplicateKeys(duplicates)];
    }
    if |rows| > 1 {
      var gaps := DateGapCount(rows);
      if gaps > 0 {
        ordered := ordered + [DateGaps(gaps)];
      }
    }
  }

  /** `validate_data_quality`: collects the warnings about a row set. */
  method ValidateDataQuality(f: Frame, minRows: nat) returns (r: Result<seq<Warning>, Raised>, valid: bool)
    ensures r == QualityWarnings(f, minRows)
    ensures valid <==> r == Success([])
  {
    var warnings: seq<Warning> := [];
    if IsEmpty(f) {
      warnings := warnings + [EmptyData];
      assert warnings == [EmptyData];
      return Success(warnings), false;
    }
    var rows := f.rows;
    if |rows| < minRows {
      warnings := warnings + [InsufficientData(|rows|, minRows)];
    }
    assert warnings == if |rows| < minRows then [InsufficientData(|rows|, minRows)] else [];
    var ranged := CheckRanges(f.columns, rows);
    if !HasColumns(f, RequiredColumns) {
      return Failure(KeyError), false;
    }
    var nulls := CheckNulls(rows);
    var ordered := CheckSequence(rows);
    warnings := warnings + ranged + nulls + ordered;
    assert warnings == RowWarnings(f.columns, rows, minRows);
    r, valid := Success(warnings), |warnings| == 0;
  }

  /** The negative-value warnings do not depend on the order of the rows. */
  lemma {:induction false} NegativeWarningsPermutation(columns: map<Column, ColumnType>, a: seq<Bar>, b: seq<Bar>, cs: seq<Column>)
    requires multiset(a) == multiset(b)
    ensures NegativeWarnings(columns, a, cs) == NegativeWarnings(columns, b, cs)
  {
    if cs != [] {
      var last := cs[|cs| - 1];
      NegativeWarningsPermutation(columns, a, b, cs[..|cs| - 1]);
      CountPermutation(a, b, (r: Bar) => IsNegative(r, last));
    }
  }

  /** The missing-value warnings do not depend on the order of the rows. */
  lemma {:induction false} NullWarningsPermutation(a: seq<Bar>, b: seq<Bar>, cs: seq<Column>)
    requires multiset(a) == multiset(b)
    ensures NullWarnings(a, cs) == NullWarnings(b, cs)
  {
    if cs != [] {
      var last := cs[|cs| - 1];
      NullWarningsPermutation(a, b, cs[..|cs| - 1]);
      CountPermutation(a, b, (r: Bar) => IsNull(r, last));
    }
  }

  /** The quality pass reports the same outcome for any reordering of the rows. */
  lemma QualityPermutation(f: Frame, g: Frame, minRows: nat)
    requires f.columns == g.columns && f.otherColumns == g.otherColumns
    requires multiset(f.rows) == multiset(g.rows)
    ensures QualityWarnings(f, minRows) == QualityWarnings(g, minRows)
  {
    var a, b := f.rows, g.rows;
    SameMultisetSameKeys(a, b);
    assert IsEmpty(f) == IsEmpty(g);
    NegativeWarningsPermutation(f.columns, a, b, PriceColumns);
    CountPermutation(a, b, (r: Bar) => IsNegative(r, Volume));
    CountPermutation(a, b, (r: Bar) => HighBelowLow(r));
    NullWarningsPermutation(a, b, RequiredColumns);
    DuplicateCountPermutation(a, b);
    DateGapCountPermutation(a, b);
    assert RangeWarnings(f.columns, a) == RangeWarnings(g.columns, b);
    assert SequenceWarnings(a) == SequenceWarnings(b);
  }

  /** A non-empty row set with every required column is warned about its size exactly when it is short. */
  lemma InsufficientDataIff(f: Frame, minRows: nat)
    requires !IsEmpty(f) && HasColumns(f, RequiredColumns)
    ensures QualityWarnings(f, minRows).Success?
    ensures (exists w :: w in QualityWarnings(f, minRows).value && w.InsufficientData?) <==> |f.rows| < minRows
    ensures |f.rows| < minRows ==> QualityWarnings(f, minRows).value[0] == InsufficientData(|f.rows|, minRows)
  {
    assert QualityWarnings(f, minRows) == Success(RowWarnings(f.columns, f.rows, minRows));
    RowWarningsInsufficient(f.columns, f.rows, minRows);
  }

  /** The warnings about the rows mention their number exactly when it is short, and then first. */
  lemma RowWarningsInsufficient(columns: map<Column, ColumnType>, rows: seq<Bar>, minRows: nat)
    ensures (exists w :: w in RowWarnings(columns, rows, minRows) && w.InsufficientData?) <==> |rows| < minRows
    ensures |rows| < minRows ==> RowWarnings(columns, rows, minRows)[0] == InsufficientData(|rows|, minRows)
  {
    var rest := RangeWarnings(columns, rows) + NullWarnings(rows, RequiredColumns) + SequenceWarnings(rows);
    NoInsufficientData(columns, rows);
    var ws := RowWarnings(columns, rows, minRows);
    if |rows| < minRows {
      assert ws == [InsufficientData(|rows|, minRows)] + rest;
      assert ws[0] in ws;
    } else {
      assert ws == rest;
    }
  }

  /** Only the size check produces an `InsufficientData` warning. */
  lemma NoInsufficientData(columns: map<Column, ColumnType>, rows: seq<Bar>)
    ensures forall w :: w in RangeWarnings(columns, rows) + NullWarnings(rows, RequiredColumns) + SequenceWarnings(rows)
                        ==> !w.InsufficientData?
  {
    NegativeWarningsKind(columns, rows, PriceColumns);
    NullWarningsKind(rows, RequiredColumns);
  }

  /** Every negative-value warning names a present column of `cs` with a positive count of negative rows. */
  lemma {:induction false} NegativeWarningsKind(columns: map<Column, ColumnType>, rows: seq<Bar>, cs: seq<Column>)
    ensures forall w :: w in NegativeWarnings(columns, rows, cs)
                        ==> w.NegativeValues? && w.column in cs && w.column in columns
                            && w.count == NegativeCount(rows, w.column) > 0
  {
    if cs != [] {
      NegativeWarningsKind(columns, rows, cs[..|cs| - 1]);
      assert forall c :: c in cs[..|cs| - 1] ==> c in cs;
    }
  }

  /** Every missing-value warning names a column of `cs` with a positive count of missing values. */
  lemma {:induction false} NullWarningsKind(rows: seq<Bar>, cs: seq<Column>)
    ensures forall w :: w in NullWarnings(rows, cs)
                        ==> w.MissingValues? && w.column in cs && w.count == NullCount(rows, w.column) > 0
  {
    if cs != [] {
      NullWarningsKind(rows, cs[..|cs| - 1]);
      assert forall c :: c in cs[..|cs| - 1] ==> c in cs;
    }
  }

  /** No negative-value warning exactly when no present column of `cs` has a negative value. */
  lemma {:induction false} NegativeWarningsEmpty(columns: map<Column, ColumnType>, rows: seq<Bar>, cs: seq<Column>)
    ensures NegativeWarnings(columns, rows, cs) == []
            <==> forall c, b :: c in cs && c in columns && b in rows ==> !IsNegative(b, c)
  {
    if cs != [] {
      var init := cs[..|cs| - 1];
      var last := cs[|cs| - 1];
      NegativeWarningsEmpty(columns, rows, init);
      CountZero(rows, (r: Bar) => IsNegative(r, last));
      assert forall c :: c in cs <==> c in init || c == last;
    }
  }

  /** No missing-value warning exactly when no column of `cs` has a missing value. */
  lemma {:induction false} NullWarningsEmpty(rows: seq<Bar>, cs: seq<Column>)
    ensures NullWarnings(rows, cs) == []
            <==> forall c, b :: c in cs && b in rows ==> !IsNull(b, c)
  {
    if cs != [] {
      var init := cs[..|cs| - 1];
      var last := cs[|cs| - 1];
      NullWarningsEmpty(rows, init);
      CountZero(rows, (r: Bar) => IsNull(r, last));
      assert forall c :: c in cs <==> c in init || c == last;
    }
  }

  // ---------------------------------------------------------------------
  // Composition
  // ---------------------------------------------------------------------

  /** What `validate` returns: the verdict, the schema errors and the quality warnings. */
  datatype Validation = Validation(valid: bool, schemaErrors: seq<SchemaError>, qualityWarnings: seq<Warning>)

  /** `validate`: the schema gate, then the quality pass only if the gate passed. */
  function ValidationOf(f: Frame, minRows: nat): (v: Validation)
    ensures v.schemaErrors == SchemaErrors(f)
    ensures v.valid <==> v.schemaErrors == [] && v.qualityWarnings == []
    ensures v.schemaErrors != [] ==> v.qualityWarnings == [SkippedQuality]
    ensures v.schemaErrors == [] ==> QualityWarnings(f, minRows) == Success(v.qualityWarnings)
  {
    var errors := SchemaErrors(f);
    if errors != [] then Validation(false, errors, [SkippedQuality])
    else
      SchemaPassHasColumns(f);
      var warnings := QualityWarnings(f, minRows).value;
      Validation(warnings == [], errors, warnings)
  }

  /** `validate`, as the two passes run one after the other. */
  method Validate(f: Frame, minRows: nat) returns (v: Validation)
    ensures v == ValidationOf(f, minRows)
  {
    var schemaValid, schemaErrors := ValidateSchema(f);
    var qualityWarnings: seq<Warning>;
    var qualityValid: bool;
    if schemaValid {
      SchemaPassHasColumns(f);
      var quality;
      quality, qualityValid := ValidateDataQuality(f, minRows);
      qualityWarnings := quality.value;
    } else {
      qualityWarnings := [SkippedQuality];
      qualityValid := false;
    }
    v := Validation(schemaValid && qualityValid, schemaErrors, qualityWarnings);
  }

  // ---------------------------------------------------------------------
  // Row filter
  // ---------------------------------------------------------------------

  /** One of the row conditions the filter applies. */
  datatype Check = NonNegative(column: Column) | HighNotBelowLow | NotNull(column: Column)

  predicate Passes(b: Bar, c: Check) {
    match c
    case NonNegative(col) => AtLeastZero(b, col)
    case HighNotBelowLow => HighAtLeastLow(b)
    case NotNull(col) => !IsNull(b, col)
  }

  predicate PassesAll(b: Bar, cs: seq<Check>) {
    forall c :: c in cs ==> Passes(b, c)
  }

  /** The rows passing every check of `cs`, in their original order. */
  function Select(rows: seq<Bar>, cs: seq<Check>): (r: seq<Bar>)
    ensures |r| <= |rows|
  {
    if rows == [] then []
    else (if PassesAll(rows[0], cs) then [rows[0]] else []) + Select(rows[1..], cs)
  }

  /** Selection keeps every passing row as often as it occurs, and no other row. */
  lemma {:induction false} SelectMultiset(rows: seq<Bar>, cs: seq<Check>)
    ensures forall b :: multiset(Select(rows, cs))[b] == if PassesAll(b, cs) then multiset(rows)[b] else 0
  {
    if rows != [] {
      SelectMultiset(rows[1..], cs);
      assert rows == [rows[0]] + rows[1..];
    }
  }

  /** `r` is `s` with some elements left out and the rest in order. */
  predicate IsSubsequence(r: seq<Bar>, s: seq<Bar>)
    decreases |s|
  {
    if r == [] then true
    else if s == [] then false
    else if r[0] == s[0] then IsSubsequence(r[1..], s[1..])
    else IsSubsequence(r, s[1..])
  }

  lemma {:induction false} SelectIsSubsequence(rows: seq<Bar>, cs: seq<Check>)
    ensures IsSubsequence(Select(rows, cs), rows)
  {
    if rows != [] {
      var rest := Select(rows[1..], cs);
      SelectIsSubsequence(rows[1..], cs);
      if PassesAll(rows[0], cs) {
        assert Select(rows, cs) == [rows[0]] + rest;
        assert ([rows[0]] + rest)[1..] == rest;
      } else {
        assert Select(rows, cs) == rest;
        SkipHead(rest, rows);
      }
    }
  }

  /** A subsequence of the tail is a subsequence of the whole. */
  lemma {:induction false} SkipHead(r: seq<Bar>, s: seq<Bar>)
    requires s != [] && IsSubsequence(r, s[1..])
    ensures IsSubsequence(r, s)
    decreases |s|, |r|
  {
    if r != [] && r[0] == s[0] {
      SubsequenceOfTail(r, s[1..]);
    }
  }

  /** Leaving out the first element of a subsequence keeps it a subsequence. */
  lemma {:induction false} SubsequenceOfTail(r: seq<Bar>, s: seq<Bar>)
    requires r != [] && IsSubsequence(r, s)
    ensures IsSubsequence(r[1..], s)
    decreases |s|, |r|
  {
    if r[0] == s[0] {
      if r[1..] != [] {
        SkipHead(r[1..], s);
      }
    } else {
      SubsequenceOfTail(r, s[1..]);
      if r[1..] != [] {
        SkipHead(r[1..], s);
      }
    }
  }

  /** Selecting by `cs` and then by `ds` is selecting by both. */
  lemma {:induction false} SelectThen(rows: seq<Bar>, cs: seq<Check>, ds: seq<Check>)
    ensures Select(Select(rows, cs), ds) == Select(rows, cs + ds)
  {
    if rows != [] {
      SelectThen(rows[1..], cs, ds);
      assert PassesAll(rows[0], cs + ds) <==> PassesAll(rows[0], cs) && PassesAll(rows[0], ds);
      var head := if PassesAll(rows[0], cs) then [rows[0]] else [];
      assert Select(rows, cs) == head + Select(rows[1..], cs);
      SelectAppend(head, Select(rows[1..], cs), ds);
    }
  }

  lemma {:induction false} SelectAppend(a: seq<Bar>, b: seq<Bar>, cs: seq<Check>)
    ensures Select(a + b, cs) == Select(a, cs) + Select(b, cs)
  {
    if a == [] {
      assert a + b == b;
    } else {
      var head := if PassesAll(a[0], cs) then [a[0]] else [];
      assert (a + b)[0] == a[0] && (a + b)[1..] == a[1..] + b;
      assert Select(a + b, cs) == head + Select(a[1..] + b, cs);
      SelectAppend(a[1..], b, cs);
      assert Select(a, cs) == head + Select(a[1..], cs);
      assert head + (Select(a[1..], cs) + Select(b, cs)) == (head + Select(a[1..], cs)) + Select(b, cs);
    }
  }

  /** Selecting twice by the same checks is selecting once. */
  lemma {:induction false} SelectIdempotent(rows: seq<Bar>, cs: seq<Check>)
    ensures Select(Select(rows, cs), cs) == Select(rows, cs)
  {
    SelectThen(rows, cs, cs);
    SelectSameChecks(rows, cs + cs, cs);
  }

  /** Two check lists that every row passes alike select alike. */
  lemma {:induction false} SelectSameChecks(rows: seq<Bar>, cs: seq<Check>, ds: seq<Check>)
    requires forall b :: PassesAll(b, cs) <==> PassesAll(b, ds)
    ensures Select(rows, cs) == Select(rows, ds)
  {
    if rows != [] {
      SelectSameChecks(rows[1..], cs, ds);
    }
  }

  /** Selecting rows that all pass keeps them all. */
  lemma {:induction false} SelectKeepsPassing(rows: seq<Bar>, cs: seq<Check>)
    requires forall b :: b in rows ==> PassesAll(b, cs)
    ensures Select(rows, cs) == rows
  {
    if rows != [] {
      assert forall b :: b in rows[1..] ==> b in rows;
      SelectKeepsPassing(rows[1..], cs);
      assert rows == [rows[0]] + rows[1..];
    }
  }

  /** The non-negativity checks for the columns of `cs` that are present. */
  function PriceChecks(columns: map<Column, ColumnType>, cs: seq<Column>): seq<Check> {
    if cs == [] then []
    else
      var last := cs[|cs| - 1];
      PriceChecks(columns, cs[..|cs| - 1]) + (if last in columns then [NonNegative(last)] else [])
  }

  /** The range checks `filter_invalid_rows` applies to a row set with the given columns. */
  function RangeChecks(columns: map<Column, ColumnType>): seq<Check> {
    PriceChecks(columns, PriceColumns)
    + (if Volume in columns then [NonNegative(Volume)] else [])
    + (if High in columns && Low in columns then [HighNotBelowLow] else [])
  }

  /** The checks `filter_invalid_rows` applies to a row set with the given columns. */
  function FilterChecks(columns: map<Column, ColumnType>): seq<Check> {
    RangeChecks(columns) + [NotNull(Ticker), NotNull(Date), NotNull(Close)]
  }

  /**
    The outcome of `filter_invalid_rows`: an empty row set unchanged, a
    `KeyError` when `ticker`, `date` or `close` is absent, and otherwise the
    rows passing every check.
  */
  function FilterSpec(f: Frame): Result<Frame, Raised> {
    if IsEmpty(f) then Success(f)
    else if Ticker !in f.columns || Date !in f.columns || Close !in f.columns then Failure(KeyError)
    else Success(f.(rows := Select(f.rows, FilterChecks(f.columns))))
  }

  /** The range conditions of `filter_invalid_rows`, applied one at a time. */
  method FilterRanges(f: Frame) returns (rows: seq<Bar>)
    ensures rows == Select(f.rows, RangeChecks(f.columns))
  {
    rows := f.rows;
    ghost var applied: seq<Check> := [];
    SelectKeepsPassing(f.rows, applied);
    for i := 0 to |PriceColumns|
      invariant applied == PriceChecks(f.columns, PriceColumns[..i])
      invariant rows == Select(f.rows, applied)
    {
      var col := PriceColumns[i];
      if col in f.columns {
        SelectThen(f.rows, applied, [NonNegative(col)]);
        rows := Select(rows, [NonNegative(col)]);
        applied := applied + [NonNegative(col)];
      }
      assert PriceColumns[..i + 1][..i] == PriceColumns[..i];
    }
    assert PriceColumns[..|PriceColumns|] == PriceColumns;
    if Volume in f.columns {
      SelectThen(f.rows, applied, [NonNegative(Volume)]);
      rows := Select(rows, [NonNegative(Volume)]);
      applied := applied + [NonNegative(Volume)];
    }
    if High in f.columns && Low in f.columns {
      SelectThen(f.rows, applied, [HighNotBelowLow]);
      rows := Select(rows, [HighNotBelowLow]);
      applied := applied + [HighNotBelowLow];
    }
    assert applied == RangeChecks(f.columns);
  }

  /** `filter_invalid_rows`: narrows the rows one condition at a time. */
  method FilterInvalidRows(f: Frame) returns (r: Result<Frame, Raised>)
    ensures r == FilterSpec(f)
  {
    if IsEmpty(f) {
      return Success(f);
    }
    var rows := FilterRanges(f);
    if Ticker !in f.columns || Date !in f.columns || Close !in f.columns {
      return Failure(KeyError);
    }
    var required := [NotNull(Ticker), NotNull(Date), NotNull(Close)];
    SelectThen(f.rows, RangeChecks(f.columns), required);
    rows := Select(rows, required);
    r := Success(f.(rows := rows));
  }

  // ---------------------------------------------------------------------
  // Properties of the filter
  // ---------------------------------------------------------------------

  /**
    A row that a row set with every required column keeps: every price and
    the volume present and non-negative, high at least low, and ticker, date
    and close present.
  */
  predicate Clean(b: Bar) {
    && b.open.Some? && b.open.value >= 0
    && b.high.Some? && b.high.value >= 0
    && b.low.Some? && b.low.value >= 0
    && b.close.Some? && b.close.value >= 0
    && b.adjClose.Some? && b.adjClose.value >= 0
    && b.volume.Some? && b.volume.value >= 0
    && b.high.value >= b.low.value
    && b.ticker.Some? && b.date.Some?
  }

  lemma PassesAllAppend(b: Bar, cs: seq<Check>, ds: seq<Check>)
    ensures PassesAll(b, cs + ds) <==> PassesAll(b, cs) && PassesAll(b, ds)
  {
    assert forall c :: c in cs + ds <==> c in cs || c in ds;
  }

  /** The non-negativity checks for `cs` say that every present column of `cs` is non-negative. */
  lemma {:induction false} PriceChecksMeaning(columns: map<Column, ColumnType>, cs: seq<Column>, b: Bar)
    ensures PassesAll(b, PriceChecks(columns, cs))
            <==> forall c :: c in cs && c in columns ==> AtLeastZero(b, c)
  {
    if cs != [] {
      var init := cs[..|cs| - 1];
      var last := cs[|cs| - 1];
      PriceChecksMeaning(columns, init, b);
      var tail := if last in columns then [NonNegative(last)] else [];
      assert PriceChecks(columns, cs) == PriceChecks(columns, init) + tail;
      PassesAllAppend(b, PriceChecks(columns, init), tail);
      if last in columns {
        assert forall c :: c in tail <==> c == NonNegative(last);
        assert Passes(b, NonNegative(last)) <==> AtLeastZero(b, last);
      }
      assert PassesAll(b, tail) <==> (last in columns ==> AtLeastZero(b, last));
      assert forall c :: c in cs <==> c in init || c == last;
    }
  }

  /** With every price column present, the price checks say that every price is non-negative. */
  lemma AllPriceChecksMeaning(columns: map<Column, ColumnType>, b: Bar)
    requires forall c :: c in PriceColumns ==> c in columns
    ensures PassesAll(b, PriceChecks(columns, PriceColumns))
            <==> AtLeastZero(b, Open) && AtLeastZero(b, High) && AtLeastZero(b, Low)
                 && AtLeastZero(b, Close) && AtLeastZero(b, AdjClose)
  {
    PriceChecksMeaning(columns, PriceColumns, b);
  }

  /** `Clean`, stated as the conditions the checks test. */
  lemma CleanMeans(b: Bar)
    ensures Clean(b) <==>
      && AtLeastZero(b, Open) && AtLeastZero(b, High) && AtLeastZero(b, Low)
      && AtLeastZero(b, Close) && AtLeastZero(b, AdjClose)
      && AtLeastZero(b, Volume) && HighAtLeastLow(b) && b.ticker.Some? && b.date.Some? && b.close.Some?
  {
  }

  lemma OtherChecksMeaning(b: Bar)
    ensures PassesAll(b, [NonNegative(Volume), HighNotBelowLow, NotNull(Ticker), NotNull(Date), NotNull(Close)])
            <==> AtLeastZero(b, Volume) && HighAtLeastLow(b) && b.ticker.Some? && b.date.Some? && b.close.Some?
  {
    var rest := [NonNegative(Volume), HighNotBelowLow, NotNull(Ticker), NotNull(Date), NotNull(Close)];
    if PassesAll(b, rest) {
      assert Passes(b, rest[0]) && Passes(b, rest[1]) && Passes(b, rest[2]);
      assert Passes(b, rest[3]) && Passes(b, rest[4]);
    }
    if AtLeastZero(b, Volume) && HighAtLeastLow(b) && b.ticker.Some? && b.date.Some? && b.close.Some? {
      forall i | 0 <= i < |rest|
        ensures Passes(b, rest[i])
      {
      }
    }
  }

  /** With every required column present, the filter's checks say exactly `Clean`. */
  lemma ChecksMeanClean(f: Frame, b: Bar)
    requires HasColumns(f, RequiredColumns)
    ensures PassesAll(b, FilterChecks(f.columns)) <==> Clean(b)
  {
    assert forall c :: c in PriceColumns ==> c in RequiredColumns;
    assert Volume in RequiredColumns && High in RequiredColumns && Low in RequiredColumns;
    var prices := PriceChecks(f.columns, PriceColumns);
    var rest := [NonNegative(Volume), HighNotBelowLow, NotNull(Ticker), NotNull(Date), NotNull(Close)];
    assert FilterChecks(f.columns) == prices + rest;
    PassesAllAppend(b, prices, rest);
    AllPriceChecksMeaning(f.columns, b);
    OtherChecksMeaning(b);
    CleanMeans(b);
  }

  /**
    On a row set with rows and every required column, the filter keeps
    exactly the clean rows, each as often as it occurs, in their original
    order, and keeps the columns.
  */
  lemma FilterKeepsExactlyClean(f: Frame)
    requires !IsEmpty(f) && HasColumns(f, RequiredColumns)
    ensures FilterSpec(f).Success?
    ensures FilterSpec(f).value.columns == f.columns
    ensures IsSubsequence(FilterSpec(f).value.rows, f.rows)
    ensures forall b :: b in FilterSpec(f).value.rows ==> Clean(b)
    ensures forall b :: Clean(b) ==> multiset(FilterSpec(f).value.rows)[b] == multiset(f.rows)[b]
  {
    assert Ticker in RequiredColumns && Date in RequiredColumns && Close in RequiredColumns;
    var cs := FilterChecks(f.columns);
    SelectIsSubsequence(f.rows, cs);
    SelectMultiset(f.rows, cs);
    forall b
      ensures PassesAll(b, cs) <==> Clean(b)
    {
      ChecksMeanClean(f, b);
    }
  }

  /** Filtering a filtered row set changes nothing. */
  lemma FilterIdempotent(f: Frame)
    requires FilterSpec(f).Success?
    ensures FilterSpec(FilterSpec(f).value) == FilterSpec(f)
  {
    if !IsEmpty(f) {
      SelectIdempotent(f.rows, FilterChecks(f.columns));
    }
  }

  /** An empty row set comes back unchanged. */
  lemma FilterEmpty(f: Frame)
    requires IsEmpty(f)
    ensures FilterSpec(f) == Success(f)
  {
  }

  /** A row is clean exactly when it has none of the defects the quality pass counts. */
  lemma CleanIffNoDefect(b: Bar)
    ensures Clean(b) <==>
      && (forall c :: c in RequiredColumns ==> !IsNull(b, c))
      && (forall c :: c in PriceColumns ==> !IsNegative(b, c))
      && !IsNegative(b, Volume) && !HighBelowLow(b)
  {
    NoNullIff(b);
    NoNegativeIff(b);
  }

  /** A row has no missing value in a required column exactly when all eight are present. */
  lemma NoNullIff(b: Bar)
    ensures (forall c :: c in RequiredColumns ==> !IsNull(b, c)) <==>
      && b.ticker.Some? && b.date.Some? && b.open.Some? && b.high.Some?
      && b.low.Some? && b.close.Some? && b.volume.Some? && b.adjClose.Some?
  {
    assert Ticker in RequiredColumns && Date in RequiredColumns && Open in RequiredColumns;
    assert High in RequiredColumns && Low in RequiredColumns && Close in RequiredColumns;
    assert Volume in RequiredColumns && AdjClose in RequiredColumns;
  }

  /** A row has no negative price exactly when none of its five prices is negative. */
  lemma NoNegativeIff(b: Bar)
    ensures (forall c :: c in PriceColumns ==> !IsNegative(b, c)) <==>
      && !IsNegative(b, Open) && !IsNegative(b, High) && !IsNegative(b, Low)
      && !IsNegative(b, Close) && !IsNegative(b, AdjClose)
  {
    assert Open in PriceColumns && High in PriceColumns && Low in PriceColumns;
    assert Close in PriceColumns && AdjClose in PriceColumns;
  }

  /**
    On a non-empty row set with every required column, the quality pass
    reports no negative, inverted or missing value exactly when every row is
    clean.
  */
  lemma NoDefectWarningsIffClean(f: Frame)
    requires !IsEmpty(f) && HasColumns(f, RequiredColumns)
    ensures RangeWarnings(f.columns, f.rows) == [] && NullWarnings(f.rows, RequiredColumns) == []
            <==> forall b :: b in f.rows ==> Clean(b)
  {
    var rows := f.rows;
    assert forall c :: c in PriceColumns ==> c in RequiredColumns;
    assert Volume in RequiredColumns && High in RequiredColumns && Low in RequiredColumns;
    NegativeWarningsEmpty(f.columns, rows, PriceColumns);
    NullWarningsEmpty(rows, RequiredColumns);
    CountZero(rows, (r: Bar) => IsNegative(r, Volume));
    CountZero(rows, (r: Bar) => HighBelowLow(r));
    forall b | b in rows {
      CleanIffNoDefect(b);
    }
  }

  /** On a row set with rows and every required column, the filter keeps every row exactly when every row is clean. */
  lemma FilterKeepsAllIffClean(f: Frame)
    requires !IsEmpty(f) && HasColumns(f, RequiredColumns)
    ensures FilterSpec(f) == Success(f) <==> forall b :: b in f.rows ==> Clean(b)
  {
    FilterKeepsExactlyClean(f);
    if forall b :: b in f.rows ==> Clean(b) {
      var cs := FilterChecks(f.columns);
      forall b | b in f.rows
        ensures PassesAll(b, cs)
      {
        ChecksMeanClean(f, b);
      }
      SelectKeepsPassing(f.rows, cs);
    }
  }

  /**
    The filter and the quality pass agree: on a row set with rows and every
    required column, the filter drops no row exactly when the quality pass
    reports no negative, inverted or missing value.
  */
  lemma FilterAgreesWithQuality(f: Frame)
    requires !IsEmpty(f) && HasColumns(f, RequiredColumns)
    ensures FilterSpec(f) == Success(f)
            <==> RangeWarnings(f.columns, f.rows) == [] && NullWarnings(f.rows, RequiredColumns) == []
  {
    FilterKeepsAllIffClean(f);
    NoDefectWarningsIffClean(f);
  }

  /**
    A row set with rows but without some required column `c` (possibly with
    only columns outside the modelled ones) is not treated as empty: the
    schema gate reports `c` missing, the quality pass raises `KeyError`, and
    so does the filter when `c` is one of the columns it drops NULLs from.
  */
  lemma MissingColumnRejected(f: Frame, minRows: nat, c: Column)
    requires !IsEmpty(f) && c in RequiredColumns && c !in f.columns
    ensures c in MissingRequired(f) && SchemaErrors(f)[0] == MissingColumns(MissingRequired(f))
    ensures QualityWarnings(f, minRows) == Failure(KeyError)
    ensures c in [Ticker, Date, Close] ==> FilterSpec(f) == Failure(KeyError)
  {
  }
}
