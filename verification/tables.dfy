/** Uploaded sheets as the engines see them: a list of column names and a
    list of rows, each row mapping column names to cells.  The pandas
    operations the engines use are modelled one by one: boolean-mask
    selection, `pd.to_numeric(..., errors='coerce')`, `fillna(0)`, `.sum()`
    (which skips missing values) and `pd.to_datetime`. */
module Tables {
  import opened Wrappers
  import Text
  import Numbers
  import Dates
  import IsoDates
  import Decimals

  /** One cell: a number, a text, a boolean, a date, or a missing value
      (NaN / None / NaT). */
  datatype Cell = Num(x: real) | Str(s: string) | Flag(b: bool) | Day(d: Dates.Date) | Missing

  type Row = map<string, Cell>

  datatype Frame = Frame(columns: seq<string>, rows: seq<Row>)

  /** `df.empty`: no rows or no columns. */
  predicate Empty(f: Frame) {
    |f.rows| == 0 || |f.columns| == 0
  }

  /** `row.get(col)`: a column the row does not carry reads as missing. */
  function Get(row: Row, col: string): (c: Cell)
    ensures col !in row ==> c == Missing
  {
    if col in row then row[col] else Missing
  }

  /** The first column satisfying `p`. */
  function FirstColumn(columns: seq<string>, p: string -> bool): (r: Option<string>)
    ensures r.Some? ==> exists i :: 0 <= i < |columns| && columns[i] == r.value && p(columns[i])
                                    && forall j :: 0 <= j < i ==> !p(columns[j])
    ensures r.None? ==> forall i :: 0 <= i < |columns| ==> !p(columns[i])
  {
    if columns == [] then None
    else if p(columns[0]) then Some(columns[0])
    else match FirstColumn(columns[1..], p)
      case None => None
      case Some(c) =>
        assert forall j :: 1 <= j < |columns| ==> columns[j] == columns[1..][j - 1];
        Some(c)
  }

  /** `pd.notna(c)` */
  predicate NotNull(c: Cell) {
    c != Missing
  }

  /** `c == True` as pandas compares it: a boolean true or the number 1. */
  predicate IsTrue(c: Cell) {
    c == Flag(true) || c == Num(1.0)
  }

  /** Python truthiness of a cell (a missing value, NaN, is truthy in
      Python but every use here is guarded by `notna` or a default). */
  predicate Truthy(c: Cell) {
    match c
    case Num(x) => x != 0.0
    case Str(s) => s != ""
    case Flag(b) => b
    case Day(_) => true
    case Missing => false
  }

  /** `pd.to_numeric(c, errors='coerce')`: `None` stands for NaN. */
  function ToNumeric(c: Cell): (r: Option<real>)
    ensures c.Num? ==> r == Some(c.x)
    ensures c.Missing? || c.Day? ==> r == None
  {
    match c
    case Num(x) => Some(x)
    case Str(s) => Numbers.ParseDecimal(s)
    case Flag(b) => Some(if b then 1.0 else 0.0)
    case Day(_) => None
    case Missing => None
  }

  /** `pd.to_numeric(c, errors='coerce')` followed by `fillna(0)`. */
  function NumOrZero(c: Cell): (v: real)
    ensures ToNumeric(c).Some? ==> v == ToNumeric(c).value
    ensures ToNumeric(c).None? ==> v == 0.0
  {
    ToNumeric(c).GetOr(0.0)
  }

  /** `pd.to_numeric(rows[col], errors='coerce').sum()`: unreadable and
      missing values add nothing. */
  function ColumnTotal(rows: seq<Row>, col: string): (t: real)
    decreases |rows|
  {
    if |rows| == 0 then 0.0
    else ColumnTotal(rows[..|rows| - 1], col) + NumOrZero(Get(rows[|rows| - 1], col))
  }

  lemma {:induction false} ColumnTotalAppend(a: seq<Row>, b: seq<Row>, col: string)
    ensures ColumnTotal(a + b, col) == ColumnTotal(a, col) + ColumnTotal(b, col)
    decreases |b|
  {
    if |b| == 0 {
      assert a + b == a;
    } else {
      assert (a + b)[..|a + b| - 1] == a + b[..|b| - 1];
      ColumnTotalAppend(a, b[..|b| - 1], col);
    }
  }

  /** Adding the last row's share to the rate applied to the earlier rows'
      total gives the rate applied to the whole column total. */
  lemma PercentOfTotalStep(rows: seq<Row>, col: string, rate: real, rest: real)
    requires |rows| > 0
    requires rest == Decimals.Percent(ColumnTotal(rows[..|rows| - 1], col), rate)
    ensures rest + Decimals.Percent(NumOrZero(Get(rows[|rows| - 1], col)), rate)
            == Decimals.Percent(ColumnTotal(rows, col), rate)
  {
    var total := ColumnTotal(rows[..|rows| - 1], col);
    var v := NumOrZero(Get(rows[|rows| - 1], col));
    assert ColumnTotal(rows, col) == total + v;
    Decimals.PercentAdd(total, v, rate);
  }

  lemma ColumnTotalPair(a: Row, b: Row, col: string)
    ensures ColumnTotal([a, b], col) == NumOrZero(Get(a, col)) + NumOrZero(Get(b, col))
  {
    assert [a, b][..1] == [a] && [a][..0] == [];
    assert ColumnTotal([a], col) == ColumnTotal([], col) + NumOrZero(Get(a, col));
    assert ColumnTotal([a, b], col) == ColumnTotal([a], col) + NumOrZero(Get(b, col));
  }

  /** The column total of non-negative readings is non-negative. */
  lemma {:induction false} ColumnTotalNonNegative(rows: seq<Row>, col: string)
    requires forall i :: 0 <= i < |rows| ==> NumOrZero(Get(rows[i], col)) >= 0.0
    ensures ColumnTotal(rows, col) >= 0.0
    decreases |rows|
  {
    if |rows| > 0 {
      ColumnTotalNonNegative(rows[..|rows| - 1], col);
    }
  }

  /** `df[df[col] == value]` for a text value: the rows, in order, whose
      cell in `col` is exactly that text. */
  function WhereEquals(rows: seq<Row>, col: string, value: string): (r: seq<Row>)
    ensures |r| <= |rows|
    ensures forall i :: 0 <= i < |r| ==> Get(r[i], col) == Str(value)
    ensures forall row :: row in r <==> row in rows && Get(row, col) == Str(value)
    decreases |rows|
  {
    if |rows| == 0 then []
    else
      var rest := WhereEquals(rows[..|rows| - 1], col, value);
      var last := rows[|rows| - 1];
      assert forall row :: row in rows <==> row in rows[..|rows| - 1] || row == last;
      if Get(last, col) == Str(value) then rest + [last] else rest
  }

  /** When every row holds the value, the filter keeps every row. */
  lemma {:induction false} WhereEqualsAll(rows: seq<Row>, col: string, value: string)
    requires forall i :: 0 <= i < |rows| ==> Get(rows[i], col) == Str(value)
    ensures WhereEquals(rows, col, value) == rows
    decreases |rows|
  {
    if |rows| > 0 {
      WhereEqualsAll(rows[..|rows| - 1], col, value);
      assert rows[..|rows| - 1] + [rows[|rows| - 1]] == rows;
    }
  }

  lemma {:induction false} WhereEqualsAppend(a: seq<Row>, b: seq<Row>, col: string, value: string)
    ensures WhereEquals(a + b, col, value) == WhereEquals(a, col, value) + WhereEquals(b, col, value)
    decreases |b|
  {
    if |b| == 0 {
      assert a + b == a;
    } else {
      assert (a + b)[..|a + b| - 1] == a + b[..|b| - 1];
      WhereEqualsAppend(a, b[..|b| - 1], col, value);
    }
  }

  /** `str(c)` for the cells a text column can hold: a number prints in
      Python's float form when it is whole ("42.0"), a boolean as
      "True"/"False", a date as pandas prints a timestamp, a missing value
      as "nan".  Numbers with a fraction are not printed by this model (they
      read as ""), since no name or unit in a text column is one. */
  function CellText(c: Cell): (t: string)
    ensures c.Str? ==> t == c.s
    ensures c.Missing? ==> t == "nan"
    ensures c.Flag? ==> t == if c.b then "True" else "False"
    ensures c.Num? && Decimals.IsIntegral(c.x) ==> |t| >= 3 && Text.EndsWith(t, ".0")
  {
    match c
    case Str(s) => s
    case Num(x) =>
      if Decimals.IsIntegral(x) then
        (if x < 0.0 then "-" else "") + Text.NatToString(Decimals.Abs(x).Floor) + ".0"
      else ""
    case Flag(b) => if b then "True" else "False"
    case Day(d) => if Dates.Valid(d) && d.year <= 9999 then IsoDates.FormatIsoDate(d) + " 00:00:00" else ""
    case Missing => "nan"
  }

  /** The text of a whole, non-negative number reads back as that number. */
  lemma WholeNumberText(x: real)
    requires Decimals.IsIntegral(x) && x >= 0.0
    ensures Numbers.ParseDecimal(CellText(Num(x))) == Some(x)
  {
    Decimals.AbsIntegral(x);
    var m: nat := Decimals.Abs(x).Floor;
    var s := Text.NatToString(m);
    WholeCellText(x, m);
    Text.DigitsOfNat(m);
    Numbers.UnsignedPointZero(s);
    Numbers.ParseUnsignedText(CellText(Num(x)), s);
  }

  /** The text of a whole number: its sign, its magnitude's digits, ".0". */
  lemma WholeCellText(x: real, m: nat)
    requires Decimals.IsIntegral(x) && m == Decimals.Abs(x).Floor
    ensures x < 0.0 ==> CellText(Num(x)) == "-" + Text.NatToString(m) + ".0"
    ensures x >= 0.0 ==> CellText(Num(x)) == Text.NatToString(m) + ".0"
  {
    assert "" + Text.NatToString(m) + ".0" == Text.NatToString(m) + ".0";
  }

  /** The text a cell holds, or `None`. */
  function TextOf(c: Cell): (r: Option<string>)
    ensures r.Some? <==> c.Str?
  {
    if c.Str? then Some(c.s) else None
  }

  /** `pd.to_datetime` of one cell: a date, an ISO date text, or nothing. */
  function ToDate(c: Cell): (r: Option<Dates.Date>)
    ensures c.Day? ==> r == Some(c.d)
    ensures c.Missing? || c.Num? || c.Flag? ==> r == None
  {
    match c
    case Day(d) => Some(d)
    case Str(s) => IsoDates.ParseIsoDate(s)
    case _ => None
  }

  /** `start <= d <= end`, both ends included. */
  predicate InRange(d: Dates.Date, start: Dates.Date, end: Dates.Date) {
    Dates.NotAfter(start, d) && Dates.NotAfter(d, end)
  }

  /** Rows whose `Date` cell reads as a date in `[start, end]`; an unreadable
      date (NaT after `errors='coerce'`) never satisfies the comparison. */
  function RowsInRange(rows: seq<Row>, start: Dates.Date, end: Dates.Date): (r: seq<Row>)
    ensures |r| <= |rows|
    ensures forall row :: row in r <==> row in rows && InDateRange(row, start, end)
    decreases |rows|
  {
    if |rows| == 0 then []
    else
      var rest := RowsInRange(rows[..|rows| - 1], start, end);
      var last := rows[|rows| - 1];
      assert forall row :: row in rows <==> row in rows[..|rows| - 1] || row == last;
      if InDateRange(last, start, end) then rest + [last] else rest
  }

  predicate InDateRange(row: Row, start: Dates.Date, end: Dates.Date) {
    var d := ToDate(Get(row, "Date"));
    d.Some? && InRange(d.value, start, end)
  }

  /** Every `Date` cell is either missing or readable, so that the strict
      `pd.to_datetime(column)` does not raise. */
  predicate DatesReadable(rows: seq<Row>) {
    forall i :: 0 <= i < |rows| ==> Get(rows[i], "Date").Missing? || ToDate(Get(rows[i], "Date")).Some?
  }
}
