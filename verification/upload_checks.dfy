/** The upload service's checks of a timesheet, revenue or employee sheet
    before it is stored.  A sheet without its key columns gets exactly one
    column error and no data; otherwise every row is checked and the sheet
    is accepted exactly when no row has a problem.  The upload statistics
    count the rows that drew at least one error. */
module UploadChecks {
  import opened Wrappers
  import Text
  import Tables

  datatype Problem = MissingColumns | MissingHourColumns | RequiredField | InvalidValue | InvalidFormat

  /** One reported problem: a column error has no row; a row error carries
      its 1-based row number and the column. */
  datatype UploadError = UploadError(row: Option<nat>, column: Option<string>, problem: Problem, message: string)

  /** The checked sheet (only when there are no errors) and the errors. */
  datatype Checked = Checked(data: Option<Tables.Frame>, errors: seq<UploadError>)

  // ---- cells ----------------------------------------------------------------------------

  /** `pd.isna(v) or str(v).strip() == ''`: only a missing value or a blank
      text is blank; numbers, flags and dates always print something. */
  predicate BlankCell(c: Tables.Cell) {
    c.Missing? || (c.Str? && Text.Strip(c.s) == "")
  }

  /** A number cell that is acceptable: missing, or `float(v)` reads it as
      a number that is not negative. */
  predicate GoodNumber(c: Tables.Cell) {
    c.Missing? || (Tables.ToNumeric(c).Some? && Tables.ToNumeric(c).value >= 0.0)
  }

  /** The error for a number cell: none for a missing value, a format
      error when `float` fails, a value error when it is negative. */
  function NumberErrors(c: Tables.Cell, row: nat, col: string, what: string): (r: seq<UploadError>)
    ensures r == [] <==> GoodNumber(c)
    ensures |r| <= 1
    ensures r != [] ==> r[0].row == Some(row) && r[0].column == Some(col)
    ensures r != [] ==> (r[0].problem == InvalidFormat <==> Tables.ToNumeric(c).None?)
  {
    if c.Missing? then []
    else match Tables.ToNumeric(c)
      case None => [UploadError(Some(row), Some(col), InvalidFormat, what + " must be a valid number")]
      case Some(x) =>
        if x < 0.0 then [UploadError(Some(row), Some(col), InvalidValue, what + " cannot be negative")] else []
  }

  /** The error for a required text cell. */
  function RequiredErrors(c: Tables.Cell, row: nat, col: string, message: string): (r: seq<UploadError>)
    ensures r == [] <==> !BlankCell(c)
    ensures r != [] ==> r == [UploadError(Some(row), Some(col), RequiredField, message)]
  {
    if BlankCell(c) then [UploadError(Some(row), Some(col), RequiredField, message)] else []
  }

  /** A choice cell (status, plan) is wrong when present and, stripped,
      neither empty nor one of the choices; anything but text prints as
      something that is not a choice. */
  predicate BadChoice(c: Tables.Cell, choices: seq<string>) {
    match c
    case Missing => false
    case Str(s) => Text.Strip(s) != "" && Text.Strip(s) !in choices
    case _ => true
  }

  function ChoiceErrors(c: Tables.Cell, row: nat, col: string, choices: seq<string>, message: string)
    : (r: seq<UploadError>)
    ensures r == [] <==> !BadChoice(c, choices)
    ensures r != [] ==> r == [UploadError(Some(row), Some(col), InvalidValue, message)]
  {
    if BadChoice(c, choices) then [UploadError(Some(row), Some(col), InvalidValue, message)] else []
  }

  // ---- the three kinds of sheet ---------------------------------------------------------------

  const EmployeeNameColumn := "Employee Name"
  const NameColumn := "Name"
  const StatusColumn := "Status"
  const PlanColumn := "Commission Plan"
  const Statuses: seq<string> := ["Active", "Inactive", "Helper/Apprentice", "Excluded from Payroll"]
  const Plans: seq<string> := ["Hourly + Commission", "Efficiency Pay"]

  /** What a row is checked against, once the key columns are known. */
  datatype Rules =
    | TimesheetRules(hourColumns: seq<string>)
    | RevenueRules(unitColumn: string, revenueColumn: string)
    | EmployeeRules(rateColumn: string, hasStatus: bool, hasPlan: bool)

  /** Every hour column of a row holds an acceptable number. */
  predicate HoursGood(row: Tables.Row, cols: seq<string>) {
    forall k :: 0 <= k < |cols| ==> GoodNumber(Tables.Get(row, cols[k]))
  }

  /** A row passes its checks, stated directly. */
  predicate RowClean(rules: Rules, row: Tables.Row) {
    match rules
    case TimesheetRules(cols) =>
      !BlankCell(Tables.Get(row, EmployeeNameColumn)) && HoursGood(row, cols)
    case RevenueRules(unit, revenue) =>
      !BlankCell(Tables.Get(row, unit)) && GoodNumber(Tables.Get(row, revenue))
    case EmployeeRules(rate, hasStatus, hasPlan) =>
      !BlankCell(Tables.Get(row, NameColumn)) && GoodNumber(Tables.Get(row, rate))
      && !(hasStatus && BadChoice(Tables.Get(row, StatusColumn), Statuses))
      && !(hasPlan && BadChoice(Tables.Get(row, PlanColumn), Plans))
  }

  /** The errors of the hour columns of one row, column by column. */
  function HourErrors(row: Tables.Row, n: nat, cols: seq<string>): (r: seq<UploadError>)
    ensures r == [] <==> HoursGood(row, cols)
    ensures forall e :: e in r ==> e.row == Some(n)
  {
    if cols == [] then []
    else
      var rest := HourErrors(row, n, cols[1..]);
      assert HoursGood(row, cols) <==> GoodNumber(Tables.Get(row, cols[0])) && HoursGood(row, cols[1..]) by {
        assert forall k :: 1 <= k < |cols| ==> cols[k] == cols[1..][k - 1];
      }
      NumberErrors(Tables.Get(row, cols[0]), n, cols[0], "Hours") + rest
  }

  const NameRequired := "Employee name is required"
  const UnitRequired := "Business unit is required"
  const BadStatus := "Invalid status. Must be one of: Active, Inactive, Helper/Apprentice, Excluded from Payroll"
  const BadPlan := "Invalid commission plan. Must be one of: Hourly + Commission, Efficiency Pay"

  /** The errors of row number `n`, in the order the checks run. */
  function RowErrors(rules: Rules, row: Tables.Row, n: nat): (r: seq<UploadError>)
    ensures r == [] <==> RowClean(rules, row)
    ensures forall e :: e in r ==> e.row == Some(n)
  {
    match rules
    case TimesheetRules(cols) => TimesheetRowErrors(row, n, cols)
    case RevenueRules(unit, revenue) => RevenueRowErrors(row, n, unit, revenue)
    case EmployeeRules(rate, hasStatus, hasPlan) => EmployeeRowErrors(row, n, rate, hasStatus, hasPlan)
  }

  function TimesheetRowErrors(row: Tables.Row, n: nat, cols: seq<string>): (r: seq<UploadError>)
    ensures r == [] <==> RowClean(TimesheetRules(cols), row)
    ensures forall e :: e in r ==> e.row == Some(n)
  {
    RequiredErrors(Tables.Get(row, EmployeeNameColumn), n, EmployeeNameColumn, NameRequired)
    + HourErrors(row, n, cols)
  }

  function RevenueRowErrors(row: Tables.Row, n: nat, unit: string, revenue: string): (r: seq<UploadError>)
    ensures r == [] <==> RowClean(RevenueRules(unit, revenue), row)
    ensures forall e :: e in r ==> e.row == Some(n)
  {
    RequiredErrors(Tables.Get(row, unit), n, unit, UnitRequired)
    + NumberErrors(Tables.Get(row, revenue), n, revenue, "Revenue")
  }

  function EmployeeRowErrors(row: Tables.Row, n: nat, rate: string, hasStatus: bool, hasPlan: bool)
    : (r: seq<UploadError>)
    ensures r == [] <==> RowClean(EmployeeRules(rate, hasStatus, hasPlan), row)
    ensures forall e :: e in r ==> e.row == Some(n)
  {
    var status := if hasStatus then ChoiceErrors(Tables.Get(row, StatusColumn), n, StatusColumn, Statuses, BadStatus)
                  else [];
    var plan := if hasPlan then ChoiceErrors(Tables.Get(row, PlanColumn), n, PlanColumn, Plans, BadPlan) else [];
    RequiredErrors(Tables.Get(row, NameColumn), n, NameColumn, NameRequired)
    + NumberErrors(Tables.Get(row, rate), n, rate, "Hourly rate")
    + status + plan
  }

  /** Every row passes its checks. */
  predicate AllClean(rules: Rules, rows: seq<Tables.Row>) {
    forall i :: 0 <= i < |rows| ==> RowClean(rules, rows[i])
  }

  /** The errors of all rows; the first row is number `start + 1`. */
  function RowsErrors(rules: Rules, rows: seq<Tables.Row>, start: nat): (r: seq<UploadError>)
    ensures r == [] <==> AllClean(rules, rows)
    ensures forall e :: e in r ==> e.row.Some? && start < e.row.value <= start + |rows|
  {
    if rows == [] then []
    else
      var rest := RowsErrors(rules, rows[1..], start + 1);
      assert forall i :: 1 <= i < |rows| ==> rows[i] == rows[1..][i - 1];
      RowErrors(rules, rows[0], start + 1) + rest
  }

  /** The sheet with its row errors: accepted exactly when there are none. */
  function CheckRows(f: Tables.Frame, rules: Rules): (r: Checked)
    ensures r.data.Some? <==> r.errors == []
    ensures r.data.Some? ==> r.data.value == f
    ensures r.data.Some? <==> AllClean(rules, f.rows)
  {
    var errors := RowsErrors(rules, f.rows, 0);
    Checked(if errors == [] then Some(f) else None, errors)
  }

  const NoEmployeeNameColumn := "Required columns missing: Employee Name"
  const NoHourColumns := "No hour columns found (expecting columns with 'hours' and 'reg', 'ot', or 'dt')"
  const NoUnitColumn := "Business Unit column not found"
  const NoRevenueColumn := "Revenue column not found (looking for columns containing 'revenue', 'total', or 'amount')"
  const NoNameColumn := "Required columns missing: Name"
  const NoRateColumn := "Hourly rate column not found"

  /** A single column error and no data. */
  function ColumnError(problem: Problem, message: string): Checked {
    Checked(None, [UploadError(None, None, problem, message)])
  }

  /** A column `_validate_timesheet_data` reads as hours: it mentions
      "hour" and one of the kind keywords. */
  predicate HourColumn(col: string) {
    var l := Text.Lower(col);
    Text.Contains(l, "hour")
    && (Text.Contains(l, "reg") || Text.Contains(l, "regular") || Text.Contains(l, "ot")
        || Text.Contains(l, "overtime") || Text.Contains(l, "dt") || Text.Contains(l, "double"))
  }

  /** The columns satisfying `p`, in order. */
  function ColumnsWhere(columns: seq<string>, p: string -> bool): (r: seq<string>)
    ensures forall c :: c in r <==> c in columns && p(c)
  {
    if columns == [] then []
    else (if p(columns[0]) then [columns[0]] else []) + ColumnsWhere(columns[1..], p)
  }

  /** `_validate_timesheet_data` */
  function CheckTimesheet(f: Tables.Frame): (r: Checked)
    ensures EmployeeNameColumn !in f.columns ==>
              r == ColumnError(MissingColumns, NoEmployeeNameColumn)
    ensures EmployeeNameColumn in f.columns && ColumnsWhere(f.columns, HourColumn) == [] ==>
              r.data.None? && |r.errors| == 1 && r.errors[0].problem == MissingHourColumns
    ensures r.data.Some? <==> r.errors == []
    ensures r.data.Some? ==> r.data.value == f
    ensures r.data.Some? <==> EmployeeNameColumn in f.columns && ColumnsWhere(f.columns, HourColumn) != []
                              && AllClean(TimesheetRules(ColumnsWhere(f.columns, HourColumn)), f.rows)
  {
    if EmployeeNameColumn !in f.columns then ColumnError(MissingColumns, NoEmployeeNameColumn)
    else
      var hours := ColumnsWhere(f.columns, HourColumn);
      if hours == [] then
        ColumnError(MissingHourColumns, NoHourColumns)
      else
        CheckRows(f, TimesheetRules(hours))
  }

  predicate UnitColumn(col: string) {
    Text.Contains(Text.Lower(col), "business") && Text.Contains(Text.Lower(col), "unit")
  }

  predicate RevenueColumn(col: string) {
    var l := Text.Lower(col);
    Text.Contains(l, "revenue") || Text.Contains(l, "total") || Text.Contains(l, "amount")
  }

  /** `_validate_revenue_data`: the first business-unit column and the
      first revenue column are checked. */
  function CheckRevenue(f: Tables.Frame): (r: Checked)
    ensures Tables.FirstColumn(f.columns, UnitColumn).None? ==>
              r == ColumnError(MissingColumns, NoUnitColumn)
    ensures Tables.FirstColumn(f.columns, UnitColumn).Some? && Tables.FirstColumn(f.columns, RevenueColumn).None? ==>
              r.data.None? && |r.errors| == 1 && r.errors[0].problem == MissingColumns
    ensures r.data.Some? <==> r.errors == []
    ensures r.data.Some? ==> r.data.value == f
    ensures r.data.Some? <==>
              Tables.FirstColumn(f.columns, UnitColumn).Some? && Tables.FirstColumn(f.columns, RevenueColumn).Some?
              && AllClean(RevenueRules(Tables.FirstColumn(f.columns, UnitColumn).value,
                                       Tables.FirstColumn(f.columns, RevenueColumn).value), f.rows)
  {
    match Tables.FirstColumn(f.columns, UnitColumn)
    case None => ColumnError(MissingColumns, NoUnitColumn)
    case Some(unit) =>
      match Tables.FirstColumn(f.columns, RevenueColumn)
      case None =>
        ColumnError(MissingColumns, NoRevenueColumn)
      case Some(revenue) => CheckRows(f, RevenueRules(unit, revenue))
  }

  predicate RateColumn(col: string) {
    Text.Contains(Text.Lower(col), "rate") || Text.Contains(Text.Lower(col), "hourly")
  }

  /** `_validate_employee_data`: names required, the first rate column
      checked, and status and plan checked when the sheet has them. */
  function CheckEmployees(f: Tables.Frame): (r: Checked)
    ensures NameColumn !in f.columns ==> r == ColumnError(MissingColumns, NoNameColumn)
    ensures NameColumn in f.columns && Tables.FirstColumn(f.columns, RateColumn).None? ==>
              r == ColumnError(MissingColumns, NoRateColumn)
    ensures r.data.Some? <==> r.errors == []
    ensures r.data.Some? ==> r.data.value == f
    ensures r.data.Some? <==>
              NameColumn in f.columns && Tables.FirstColumn(f.columns, RateColumn).Some?
              && AllClean(EmployeeRules(Tables.FirstColumn(f.columns, RateColumn).value,
                                        StatusColumn in f.columns, PlanColumn in f.columns), f.rows)
  {
    if NameColumn !in f.columns then ColumnError(MissingColumns, NoNameColumn)
    else match Tables.FirstColumn(f.columns, RateColumn)
      case None => ColumnError(MissingColumns, NoRateColumn)
      case Some(rate) => CheckRows(f, EmployeeRules(rate, StatusColumn in f.columns, PlanColumn in f.columns))
  }

  // ---- statistics ------------------------------------------------------------------------

  datatype UploadStats = UploadStats(totalRows: nat, validRows: int, invalidRows: nat, duplicateRows: nat,
                                     columns: seq<string>)

  /** The row numbers that drew an error (`if error.row` skips column
      errors). */
  function ErrorRows(errors: seq<UploadError>): set<nat> {
    set e | e in errors && e.row.Some? && e.row.value != 0 :: e.row.value
  }

  /** `_generate_upload_stats` without the size estimate. */
  function Stats(f: Tables.Frame, errors: seq<UploadError>): (s: UploadStats)
    ensures s.totalRows == |f.rows| && s.duplicateRows == 0 && s.columns == f.columns
    ensures s.validRows + s.invalidRows == s.totalRows
  {
    var bad := |ErrorRows(errors)|;
    UploadStats(|f.rows|, |f.rows| - bad, bad, 0, f.columns)
  }

  /** The number of rows that fail their checks. */
  function DirtyCount(rules: Rules, rows: seq<Tables.Row>): (n: nat)
    ensures n <= |rows|
  {
    if rows == [] then 0 else (if RowClean(rules, rows[0]) then 0 else 1) + DirtyCount(rules, rows[1..])
  }

  lemma ErrorRowsAppend(a: seq<UploadError>, b: seq<UploadError>)
    ensures ErrorRows(a + b) == ErrorRows(a) + ErrorRows(b)
  {
    forall x | x in ErrorRows(a + b) ensures x in ErrorRows(a) + ErrorRows(b) {
      var e :| e in a + b && e.row.Some? && e.row.value != 0 && e.row.value == x;
    }
    forall x | x in ErrorRows(a) + ErrorRows(b) ensures x in ErrorRows(a + b) {
      if x in ErrorRows(a) {
        var e :| e in a && e.row.Some? && e.row.value != 0 && e.row.value == x;
        assert e in a + b;
      } else {
        var e :| e in b && e.row.Some? && e.row.value != 0 && e.row.value == x;
        assert e in a + b;
      }
    }
  }

  /** The rows of one row's errors: its own number, or none. */
  lemma OneRowErrorRows(rules: Rules, row: Tables.Row, n: nat)
    requires n != 0
    ensures ErrorRows(RowErrors(rules, row, n)) == if RowClean(rules, row) then {} else {n}
  {
    var es := RowErrors(rules, row, n);
    if !RowClean(rules, row) {
      assert es[0] in es;
      assert n in ErrorRows(es);
    }
  }

  /** The rows counted as invalid are exactly the rows that fail their
      checks: their numbers lie after `start`, and there are as many as
      there are failing rows. */
  lemma {:induction false} ErrorRowsCount(rules: Rules, rows: seq<Tables.Row>, start: nat)
    ensures forall x :: x in ErrorRows(RowsErrors(rules, rows, start)) ==> start < x <= start + |rows|
    ensures |ErrorRows(RowsErrors(rules, rows, start))| == DirtyCount(rules, rows)
  {
    ErrorRowsBounds(rules, rows, start);
    if rows != [] {
      var head := RowErrors(rules, rows[0], start + 1);
      var rest := RowsErrors(rules, rows[1..], start + 1);
      assert RowsErrors(rules, rows, start) == head + rest;
      ErrorRowsAppend(head, rest);
      ErrorRowsCount(rules, rows[1..], start + 1);
      OneRowErrorRows(rules, rows[0], start + 1);
      assert start + 1 !in ErrorRows(rest);
    }
  }

  /** The row numbers counted as invalid lie after `start`. */
  lemma ErrorRowsBounds(rules: Rules, rows: seq<Tables.Row>, start: nat)
    ensures forall x :: x in ErrorRows(RowsErrors(rules, rows, start)) ==> start < x <= start + |rows|
  {
    var all := RowsErrors(rules, rows, start);
    forall x | x in ErrorRows(all) ensures start < x <= start + |rows| {
      var e :| e in all && e.row.Some? && e.row.value != 0 && e.row.value == x;
    }
  }

  /** For a sheet whose key columns are present, the statistics count as
      invalid exactly the rows that fail their checks, so the valid count
      is never negative. */
  lemma StatsCountFailingRows(f: Tables.Frame, rules: Rules)
    ensures Stats(f, CheckRows(f, rules).errors).invalidRows == DirtyCount(rules, f.rows)
    ensures Stats(f, CheckRows(f, rules).errors).validRows >= 0
  {
    ErrorRowsCount(rules, f.rows, 0);
  }

  /** A column error counts no row as invalid: every row is reported valid
      although no data is kept. */
  lemma ColumnErrorCountsNoRows(f: Tables.Frame, problem: Problem, message: string)
    ensures Stats(f, ColumnError(problem, message).errors).invalidRows == 0
    ensures Stats(f, ColumnError(problem, message).errors).validRows == |f.rows|
  {
    assert ErrorRows(ColumnError(problem, message).errors) == {};
  }
}
