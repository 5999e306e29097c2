/** The timesheet screen of data management: the hour columns a sheet
    offers, the hour totals per employee shown for editing, and the hour
    overrides saved from the edited totals, which replace the timesheet in
    every later calculation. */
module HourEditing {
  import opened Wrappers
  import Tables
  import Decimals
  import Grouping
  import Seqs

  const NameColumn := "Employee Name"
  const RegColumn := "Reg Hours"
  const RegularColumn := "Regular Hours"
  const OtColumn := "OT Hours"
  const DtColumn := "DT Hours"

  /** The hour columns used: "Reg Hours" in preference to "Regular Hours",
      then "OT Hours" and "DT Hours" when present. */
  function HourColumns(columns: seq<string>): (r: seq<string>)
    ensures forall c :: c in r ==> c in columns
    ensures RegColumn in r <==> RegColumn in columns
    ensures RegularColumn in r <==> RegularColumn in columns && RegColumn !in columns
    ensures OtColumn in r <==> OtColumn in columns
    ensures DtColumn in r <==> DtColumn in columns
    ensures forall c :: c in r ==> c == RegColumn || c == RegularColumn || c == OtColumn || c == DtColumn
    ensures Seqs.NoDuplicates(r)
  {
    (if RegColumn in columns then [RegColumn] else if RegularColumn in columns then [RegularColumn] else [])
    + (if OtColumn in columns then [OtColumn] else [])
    + (if DtColumn in columns then [DtColumn] else [])
  }

  // ---- totals per employee ---------------------------------------------------------------

  /** The rows that name an employee in text (`groupby` drops missing
      names). */
  function NamedOnly(rows: seq<Tables.Row>): (r: seq<Tables.Row>)
    ensures forall i :: 0 <= i < |r| ==> Tables.Get(r[i], NameColumn).Str?
    ensures |r| <= |rows|
  {
    if rows == [] then []
    else (if Tables.Get(rows[0], NameColumn).Str? then [rows[0]] else []) + NamedOnly(rows[1..])
  }

  /** A name column holding something other than text or a missing value. */
  predicate OddNames(rows: seq<Tables.Row>) {
    exists i :: 0 <= i < |rows| && !Tables.Get(rows[i], NameColumn).Str? && !Tables.Get(rows[i], NameColumn).Missing?
  }

  function NameList(rows: seq<Tables.Row>): (names: seq<string>)
    requires forall i :: 0 <= i < |rows| ==> Tables.Get(rows[i], NameColumn).Str?
    ensures |names| == |rows|
  {
    seq(|rows|, i requires 0 <= i < |rows| => Tables.Get(rows[i], NameColumn).s)
  }

  /** One hour column after `pd.to_numeric(errors='coerce').fillna(0)`. */
  function ColumnValues(rows: seq<Tables.Row>, col: string): (vals: seq<real>)
    ensures |vals| == |rows|
    ensures forall i :: 0 <= i < |rows| ==> vals[i] == Tables.NumOrZero(Tables.Get(rows[i], col))
  {
    seq(|rows|, i requires 0 <= i < |rows| => Tables.NumOrZero(Tables.Get(rows[i], col)))
  }

  /** One line of the editable totals: the employee, the rounded sum of
      each hour column, and the rounded sum of those sums. */
  datatype EmployeeHours = EmployeeHours(name: string, hours: seq<real>, total: real)

  /** An employee's unrounded sum of each hour column. */
  function Sums(names: seq<string>, rows: seq<Tables.Row>, cols: seq<string>, e: string): (r: seq<real>)
    requires |names| == |rows|
    ensures |r| == |cols|
    ensures forall j :: 0 <= j < |cols| ==> r[j] == Grouping.SumFor(names, ColumnValues(rows, cols[j]), e)
  {
    seq(|cols|, j requires 0 <= j < |cols| => Grouping.SumFor(names, ColumnValues(rows, cols[j]), e))
  }

  /** The totals line of one employee. */
  function LineOf(names: seq<string>, rows: seq<Tables.Row>, cols: seq<string>, e: string): (l: EmployeeHours)
    requires |names| == |rows|
    ensures l.name == e && |l.hours| == |cols|
    ensures forall j :: 0 <= j < |cols| ==>
              Decimals.IsCents(l.hours[j])
              && -0.005 <= l.hours[j] - Grouping.SumFor(names, ColumnValues(rows, cols[j]), e) <= 0.005
    ensures l.total == Decimals.CentsHalfEven(Grouping.Total(Sums(names, rows, cols, e)))
  {
    var sums := Sums(names, rows, cols, e);
    EmployeeHours(e, seq(|cols|, j requires 0 <= j < |cols| => Decimals.CentsHalfEven(sums[j])),
                  Decimals.CentsHalfEven(Grouping.Total(sums)))
  }

  const NoNameColumn := "No 'Employee Name' column found in timesheet data"
  const NoHourColumns := "No hour columns found in timesheet data"
  const NotAggregated := "Error aggregating timesheet data"

  /** The employee hour totals offered for editing: one line per distinct
      employee name in ascending order, each hour column summed over that
      employee's rows, and the total of the columns; rounded to cents. */
  function EmployeeHourTotals(f: Tables.Frame): (r: Result<seq<EmployeeHours>>)
    ensures NameColumn !in f.columns ==> r == Err(NoNameColumn)
    ensures NameColumn in f.columns && HourColumns(f.columns) == [] ==> r == Err(NoHourColumns)
    ensures r.Ok? <==> NameColumn in f.columns && HourColumns(f.columns) != [] && !OddNames(f.rows)
    ensures r.Ok? ==>
              var rows := NamedOnly(f.rows);
              var names := NameList(rows);
              var keys := Grouping.Keys(names);
              |r.value| == |keys|
              && forall i :: 0 <= i < |keys| ==>
                   r.value[i] == LineOf(names, rows, HourColumns(f.columns), keys[i])
  {
    if NameColumn !in f.columns then Err(NoNameColumn)
    else if HourColumns(f.columns) == [] then Err(NoHourColumns)
    else if OddNames(f.rows) then Err(NotAggregated)
    else
      var rows := NamedOnly(f.rows);
      var names := NameList(rows);
      var keys := Grouping.Keys(names);
      Ok(seq(|keys|, i requires 0 <= i < |keys| => LineOf(names, rows, HourColumns(f.columns), keys[i])))
  }

  /** The column values of the rows, summed, are the column total. */
  lemma {:induction false} ColumnValuesTotal(rows: seq<Tables.Row>, col: string)
    ensures Grouping.Total(ColumnValues(rows, col)) == Tables.ColumnTotal(rows, col)
  {
    if rows != [] {
      var n := |rows| - 1;
      ColumnValuesTotal(rows[..n], col);
      assert ColumnValues(rows, col)[..n] == ColumnValues(rows[..n], col);
    }
  }

  /** Totalling per employee conserves each hour column: the employees'
      unrounded sums add up to the column total over the named rows. */
  lemma HourTotalsConserve(f: Tables.Frame, col: string)
    ensures var rows := NamedOnly(f.rows);
            var names := NameList(rows);
            Grouping.SumOver(Grouping.Keys(names), names, ColumnValues(rows, col)) == Tables.ColumnTotal(rows, col)
  {
    var rows := NamedOnly(f.rows);
    Grouping.GroupsConserve(NameList(rows), ColumnValues(rows, col));
    ColumnValuesTotal(rows, col);
  }

  // ---- saved overrides -------------------------------------------------------------------

  /** A saved override; the stamp is the time of saving, given as a
      parameter. */
  datatype HourOverride = HourOverride(regular: real, overtime: real, doubleTime: real, total: real, updated: string)

  /** A row of the edited totals: the employee and the edited hour cells. */
  datatype EditedRow = EditedRow(name: string, hours: map<string, real>)

  function Cell(row: EditedRow, col: string): real {
    if col in row.hours then row.hours[col] else 0.0
  }

  /** The override one edited row makes: regular hours from "Reg Hours" or
      else "Regular Hours" when the table has it, overtime and double time
      when it has them, 0 otherwise; the total is their sum. */
  function OverrideOf(row: EditedRow, cols: seq<string>, now: string): (o: HourOverride)
    ensures o.total == o.regular + o.overtime + o.doubleTime
    ensures o.regular == (if RegColumn in cols then Cell(row, RegColumn)
                          else if RegularColumn in cols then Cell(row, RegularColumn) else 0.0)
    ensures o.overtime == (if OtColumn in cols then Cell(row, OtColumn) else 0.0)
    ensures o.doubleTime == (if DtColumn in cols then Cell(row, DtColumn) else 0.0)
    ensures o.updated == now
  {
    var regular := if RegColumn in cols then Cell(row, RegColumn)
                   else if RegularColumn in cols then Cell(row, RegularColumn) else 0.0;
    var ot := if OtColumn in cols then Cell(row, OtColumn) else 0.0;
    var dt := if DtColumn in cols then Cell(row, DtColumn) else 0.0;
    HourOverride(regular, ot, dt, regular + ot + dt, now)
  }

  predicate Balanced(overrides: map<string, HourOverride>) {
    forall k :: k in overrides ==> overrides[k].total == overrides[k].regular + overrides[k].overtime + overrides[k].doubleTime
  }

  /** The index of the last edited row for `name`. */
  function LastRowOf(rows: seq<EditedRow>, name: string): (r: Option<nat>)
    ensures r.Some? ==> r.value < |rows| && rows[r.value].name == name
                        && forall j :: r.value < j < |rows| ==> rows[j].name != name
    ensures r.None? <==> forall j :: 0 <= j < |rows| ==> rows[j].name != name
  {
    if rows == [] then None
    else if rows[|rows| - 1].name == name then Some(|rows| - 1)
    else LastRowOf(rows[..|rows| - 1], name)
  }

  /** Saving the edited totals: every edited employee's override is
      replaced by the one its row makes (a later row for the same name
      wins); other overrides are kept. */
  function SaveOverrides(rows: seq<EditedRow>, cols: seq<string>, overrides: map<string, HourOverride>, now: string)
    : (r: map<string, HourOverride>)
    ensures forall k :: k in r <==> k in overrides || LastRowOf(rows, k).Some?
    ensures forall k :: k in r && LastRowOf(rows, k).Some? ==> r[k] == OverrideOf(rows[LastRowOf(rows, k).value], cols, now)
    ensures forall k :: k in overrides && LastRowOf(rows, k).None? ==> r[k] == overrides[k]
    ensures Balanced(overrides) ==> Balanced(r)
  {
    if rows == [] then overrides
    else
      var n := |rows| - 1;
      SaveOverrides(rows[..n], cols, overrides, now)[rows[n].name := OverrideOf(rows[n], cols, now)]
  }
}
