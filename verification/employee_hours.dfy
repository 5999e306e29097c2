/** The hours an employee worked in a pay period, as both row-based engines
    look them up: a manual hour override for the employee replaces the
    timesheet; otherwise the employee's timesheet rows are summed, reading
    regular hours from 'Reg Hours' when the sheet has that column and from
    'Regular Hours' otherwise, and unreadable cells count as 0. */
module EmployeeHours {
  import Tables

  datatype Hours = Hours(regular: real, overtime: real, doubleTime: real)

  function Zero(): Hours {
    Hours(0.0, 0.0, 0.0)
  }

  /** employee name -> saved override (`regular_hours`, `ot_hours`,
      `dt_hours`, and the `total_hours` the editor also stores). */
  type HourOverrides = map<string, map<string, real>>

  /** `override.get(key, 0)` */
  function OverrideValue(o: map<string, real>, key: string): real {
    if key in o then o[key] else 0.0
  }

  function Has(f: Tables.Frame, col: string): bool {
    col in f.columns
  }

  /** The column regular hours are read from, if any. */
  function RegularColumn(f: Tables.Frame): (c: string)
    ensures Has(f, "Reg Hours") ==> c == "Reg Hours"
    ensures !Has(f, "Reg Hours") ==> c == "Regular Hours"
  {
    if Has(f, "Reg Hours") then "Reg Hours" else "Regular Hours"
  }

  /** Total of one hour column over some rows, 0 when the sheet lacks it. */
  function ColumnHours(f: Tables.Frame, rows: seq<Tables.Row>, col: string): real {
    if Has(f, col) then Tables.ColumnTotal(rows, col) else 0.0
  }

  /** The rows of `employee` in the sheet (none without an 'Employee Name'
      column). */
  function RowsOf(employee: string, f: Tables.Frame): (rows: seq<Tables.Row>)
    ensures !Has(f, "Employee Name") ==> rows == []
    ensures forall r :: r in rows <==> Has(f, "Employee Name") && r in f.rows && Tables.Get(r, "Employee Name") == Tables.Str(employee)
  {
    if Has(f, "Employee Name") then Tables.WhereEquals(f.rows, "Employee Name", employee) else []
  }

  /** Hours of `employee`, override first. */
  function HoursWithOverrides(employee: string, timesheet: Tables.Frame, overrides: HourOverrides): (h: Hours)
    ensures employee in overrides ==> h == Hours(OverrideValue(overrides[employee], "regular_hours"),
                                               OverrideValue(overrides[employee], "ot_hours"),
                                               OverrideValue(overrides[employee], "dt_hours"))
    ensures employee !in overrides && RowsOf(employee, timesheet) == [] ==> h == Zero()
    ensures employee !in overrides ==>
      h.overtime == ColumnHours(timesheet, RowsOf(employee, timesheet), "OT Hours")
      && h.doubleTime == ColumnHours(timesheet, RowsOf(employee, timesheet), "DT Hours")
  {
    if employee in overrides then
      var o := overrides[employee];
      Hours(OverrideValue(o, "regular_hours"), OverrideValue(o, "ot_hours"), OverrideValue(o, "dt_hours"))
    else
      var rows := RowsOf(employee, timesheet);
      if rows == [] then Zero()
      else
        Hours(ColumnHours(timesheet, rows, RegularColumn(timesheet)),
              ColumnHours(timesheet, rows, "OT Hours"),
              ColumnHours(timesheet, rows, "DT Hours"))
  }

  /** An override makes the timesheet irrelevant. */
  lemma OverrideTakesPrecedence(employee: string, t1: Tables.Frame, t2: Tables.Frame, overrides: HourOverrides)
    requires employee in overrides
    ensures HoursWithOverrides(employee, t1, overrides) == HoursWithOverrides(employee, t2, overrides)
  {
  }

  /** With both column spellings present, regular hours come from
      'Reg Hours' only. */
  lemma RegHoursPreferred(employee: string, t: Tables.Frame, overrides: HourOverrides)
    requires employee !in overrides && Has(t, "Reg Hours") && Has(t, "Regular Hours")
    ensures HoursWithOverrides(employee, t, overrides).regular == Tables.ColumnTotal(RowsOf(employee, t), "Reg Hours")
  {
    if RowsOf(employee, t) == [] {
      assert Tables.ColumnTotal([], "Reg Hours") == 0.0;
    }
  }

  /** Without an override the hours are the three column totals over the
      employee's rows; no rows give zero either way. */
  lemma SheetHours(employee: string, t: Tables.Frame, overrides: HourOverrides)
    requires employee !in overrides
    ensures var rows := RowsOf(employee, t);
      HoursWithOverrides(employee, t, overrides)
        == Hours(ColumnHours(t, rows, RegularColumn(t)), ColumnHours(t, rows, "OT Hours"), ColumnHours(t, rows, "DT Hours"))
  {
    if RowsOf(employee, t) == [] {
      assert forall col :: Tables.ColumnTotal([], col) == 0.0;
    }
  }

  /** One column's total over the rows of two sheets with the same columns. */
  lemma ColumnHoursAppend(a: Tables.Frame, b: Tables.Frame, ra: seq<Tables.Row>, rb: seq<Tables.Row>, col: string)
    requires a.columns == b.columns
    ensures ColumnHours(Tables.Frame(a.columns, a.rows + b.rows), ra + rb, col) == ColumnHours(a, ra, col) + ColumnHours(b, rb, col)
  {
    if Has(a, col) {
      Tables.ColumnTotalAppend(ra, rb, col);
    }
  }

  /** Hours are summed over entries: a sheet whose rows are those of two
      sheets with the same columns gives the sum of their hours. */
  lemma HoursAdditive(employee: string, a: Tables.Frame, b: Tables.Frame, overrides: HourOverrides)
    requires a.columns == b.columns && employee !in overrides
    ensures var c := Tables.Frame(a.columns, a.rows + b.rows);
      var ha, hb, hc := HoursWithOverrides(employee, a, overrides), HoursWithOverrides(employee, b, overrides),
                        HoursWithOverrides(employee, c, overrides);
      hc.regular == ha.regular + hb.regular
      && hc.overtime == ha.overtime + hb.overtime
      && hc.doubleTime == ha.doubleTime + hb.doubleTime
  {
    var c := Tables.Frame(a.columns, a.rows + b.rows);
    var ra, rb := RowsOf(employee, a), RowsOf(employee, b);
    if Has(a, "Employee Name") {
      Tables.WhereEqualsAppend(a.rows, b.rows, "Employee Name", employee);
    }
    assert RowsOf(employee, c) == ra + rb;
    SheetHours(employee, a, overrides);
    SheetHours(employee, b, overrides);
    SheetHours(employee, c, overrides);
    ColumnHoursAppend(a, b, ra, rb, RegularColumn(a));
    ColumnHoursAppend(a, b, ra, rb, "OT Hours");
    ColumnHoursAppend(a, b, ra, rb, "DT Hours");
  }

  /** Non-negative sheet cells give non-negative hours. */
  lemma HoursNonNegative(employee: string, t: Tables.Frame, overrides: HourOverrides)
    requires employee !in overrides
    requires forall r, c :: r in t.rows ==> Tables.NumOrZero(Tables.Get(r, c)) >= 0.0
    ensures var h := HoursWithOverrides(employee, t, overrides);
      h.regular >= 0.0 && h.overtime >= 0.0 && h.doubleTime >= 0.0
  {
    var rows := RowsOf(employee, t);
    forall c { Tables.ColumnTotalNonNegative(rows, c); }
  }
}
