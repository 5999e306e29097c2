/** The multi-format timesheet reader: guessing which of the two layouts
    a workbook uses, and turning either layout into one row of hour totals
    per employee.  Layout 1 lists individual entries that are totalled per
    employee; layout 2 already holds one row per employee, possibly with
    hours written as times. */
module TimesheetProcessor {
  import opened Wrappers
  import Text
  import Decimals
  import Tables
  import TimeValues

  /** The two layouts (`format_1` and `format_2`). */
  datatype Layout = EntryRows | EmployeeTotals

  // ---- layout detection ---------------------------------------------------------------

  /** A sheet name that announces a totals sheet. */
  predicate SummarySheet(name: string) {
    Text.Contains(Text.Lower(name), "total") || Text.Contains(Text.Lower(name), "summary")
  }

  /** A column whose name mentions a kind of hours. */
  predicate HourLike(col: string) {
    var l := Text.Lower(col);
    Text.Contains(l, "regular") || Text.Contains(l, "overtime") || Text.Contains(l, "double")
  }

  /** `str(value)` of a sampled cell shows a time of day: it has a ':' and
      so splits into at least two fields. */
  predicate ShowsClock(c: Tables.Cell) {
    ClockText(Tables.CellText(c))
  }

  /** A text with a ':' that splits into at least two fields. */
  predicate ClockText(t: string) {
    ':' in t && |Text.Split(t, ':')| >= 2
  }

  /** The non-missing cells of a column, in row order (`dropna`). */
  function Present(rows: seq<Tables.Row>, col: string): (r: seq<Tables.Cell>)
    ensures forall c :: c in r ==> c != Tables.Missing
    ensures |r| <= |rows|
  {
    if rows == [] then []
    else
      var c := Tables.Get(rows[0], col);
      (if c == Tables.Missing then [] else [c]) + Present(rows[1..], col)
  }

  /** The first five non-missing cells of a column (`dropna().head(5)`). */
  function Samples(rows: seq<Tables.Row>, col: string): (r: seq<Tables.Cell>)
    ensures |r| <= 5
  {
    var p := Present(rows, col);
    if |p| <= 5 then p else p[..5]
  }

  /** Some sheet name mentions a total or a summary. */
  predicate AnySummary(names: seq<string>) {
    exists i :: 0 <= i < |names| && SummarySheet(names[i])
  }

  /** Some sampled value is written as a time of day. */
  predicate AnyClock(samples: seq<Tables.Cell>)
    decreases |samples|
  {
    |samples| > 0 && (ShowsClock(samples[0]) || AnyClock(samples[1..]))
  }

  /** Column `j` holds hours and one of its samples is written as a time. */
  predicate ClockColumn(f: Tables.Frame, j: int)
    requires 0 <= j < |f.columns|
  {
    HourLike(f.columns[j]) && AnyClock(Samples(f.rows, f.columns[j]))
  }

  /** The reason `detect_format` picks layout 2, stated directly. */
  predicate TotalsEvidence(f: Tables.Frame, sheetNames: Option<seq<string>>) {
    (sheetNames.Some? && AnySummary(sheetNames.value))
    || AnyClockColumn(f)
  }

  /** Some column holds hours and has a sample written as a time. */
  predicate AnyClockColumn(f: Tables.Frame) {
    exists j :: 0 <= j < |f.columns| && ClockColumn(f, j)
  }

  /** Some column before `n` holds hours and has a sample written as a time. */
  predicate ClockColumnBelow(f: Tables.Frame, n: int)
    requires 0 <= n <= |f.columns|
  {
    exists j :: 0 <= j < n && ClockColumn(f, j)
  }

  /** The columns before `n + 1` are those before `n` and column `n`. */
  lemma ClockColumnStep(f: Tables.Frame, n: int)
    requires 0 <= n < |f.columns|
    ensures ClockColumnBelow(f, n + 1) <==> ClockColumnBelow(f, n) || ClockColumn(f, n)
  {
  }

  /** The scan of the sheet names for a totals or summary sheet. */
  method HasSummarySheet(names: seq<string>) returns (found: bool)
    ensures found <==> AnySummary(names)
  {
    var i := 0;
    while i < |names|
      invariant 0 <= i <= |names|
      invariant forall q :: 0 <= q < i ==> !SummarySheet(names[q])
    {
      if SummarySheet(names[i]) {
        return true;
      }
      i := i + 1;
    }
    return false;
  }

  /** The scan of a column's samples for a value written as a time. */
  method HasClockSample(samples: seq<Tables.Cell>) returns (found: bool)
    ensures found <==> AnyClock(samples)
  {
    var k := 0;
    while k < |samples|
      invariant 0 <= k <= |samples|
      invariant AnyClock(samples) == AnyClock(samples[k..])
    {
      if ShowsClock(samples[k]) {
        return true;
      }
      assert samples[k..][1..] == samples[k + 1..];
      k := k + 1;
    }
    return false;
  }

  /** The test of one column: it holds hours and a sample is written as a time. */
  method HasClockColumn(f: Tables.Frame, j: int) returns (found: bool)
    requires 0 <= j < |f.columns|
    ensures found <==> ClockColumn(f, j)
  {
    found := false;
    if HourLike(f.columns[j]) {
      found := HasClockSample(Samples(f.rows, f.columns[j]));
    }
  }

  /** The scan of the columns for one that holds hours written as times. */
  method HasClockColumns(f: Tables.Frame) returns (found: bool)
    ensures found <==> AnyClockColumn(f)
  {
    var j := 0;
    while j < |f.columns|
      invariant 0 <= j <= |f.columns|
      invariant !ClockColumnBelow(f, j)
    {
      var hit := HasClockColumn(f, j);
      ClockColumnStep(f, j);
      if hit {
        return true;
      }
      j := j + 1;
    }
    return false;
  }

  /** `detect_format`: layout 2 for a workbook with a totals or summary
      sheet, or when a sampled value of an hour column is written as a
      time; layout 1 otherwise.  (The employee/hours test the original
      makes afterwards answers layout 1 either way.) */
  method DetectLayout(f: Tables.Frame, sheetNames: Option<seq<string>>) returns (layout: Layout)
    ensures layout == EmployeeTotals <==> TotalsEvidence(f, sheetNames)
  {
    if sheetNames.Some? {
      var summary := HasSummarySheet(sheetNames.value);
      if summary {
        return EmployeeTotals;
      }
    }
    var clock := HasClockColumns(f);
    layout := if clock then EmployeeTotals else EntryRows;
  }

  // ---- hour columns ---------------------------------------------------------------------

  /** The three kinds of hours a sheet can carry. */
  datatype Slot = Regular | Overtime | DoubleTime

  /** Which kind of hours a column holds under each layout's naming rules
      (the `if/elif` chain of each processor). */
  function SlotOf(layout: Layout, col: string): Option<Slot> {
    match layout
    case EntryRows =>
      var l := Text.Lower(col);
      if (Text.Contains(l, "regular") || Text.Contains(l, "reg")) && Text.Contains(l, "hour") then Some(Regular)
      else if Text.Contains(l, "ot") || Text.Contains(l, "overtime") then Some(Overtime)
      else if Text.Contains(l, "dt") || Text.Contains(l, "double") then Some(DoubleTime)
      else None
    case EmployeeTotals =>
      var l := Text.Strip(Text.Lower(col));
      if Text.Contains(l, "regular") && !Text.Contains(l, "hour") then Some(Regular)
      else if l == "overtime" || Text.Contains(l, "overtime") then Some(Overtime)
      else if Text.Contains(l, "double") && Text.Contains(l, "ot") then Some(DoubleTime)
      else if l == "dt hours" || l == "dt" then Some(DoubleTime)
      else None
  }

  /** The kind of every column. */
  function Kinds(layout: Layout, columns: seq<string>): (r: seq<Option<Slot>>)
    ensures |r| == |columns|
    ensures forall i :: 0 <= i < |columns| ==> r[i] == SlotOf(layout, columns[i])
  {
    seq(|columns|, i requires 0 <= i < |columns| => SlotOf(layout, columns[i]))
  }

  /** The position of the last column of kind `k`. */
  function LastOfSlot(kinds: seq<Option<Slot>>, k: Slot): (r: Option<nat>)
    ensures r.Some? ==> r.value < |kinds| && kinds[r.value] == Some(k)
    ensures r.Some? ==> forall j :: r.value < j < |kinds| ==> kinds[j] != Some(k)
    ensures r.None? ==> forall j :: 0 <= j < |kinds| ==> kinds[j] != Some(k)
  {
    if kinds == [] then None
    else if kinds[|kinds| - 1] == Some(k) then Some(|kinds| - 1)
    else LastOfSlot(kinds[..|kinds| - 1], k)
  }

  /** The `hour_columns` dictionary after the loop over `columns`: each
      column writes its slot, so the last column of a kind wins. */
  function ScanSlots(layout: Layout, columns: seq<string>): (m: map<Slot, string>)
    ensures forall k :: k in m <==> LastOfSlot(Kinds(layout, columns), k).Some?
    ensures forall k :: k in m ==> m[k] == columns[LastOfSlot(Kinds(layout, columns), k).value]
  {
    if columns == [] then map[]
    else
      var n := |columns| - 1;
      var before := ScanSlots(layout, columns[..n]);
      assert Kinds(layout, columns[..n]) == Kinds(layout, columns)[..n];
      match SlotOf(layout, columns[n])
      case Some(k) => before[k := columns[n]]
      case None => before
  }

  /** The columns whose name mentions hours. */
  function HourNamed(columns: seq<string>): (r: seq<string>)
    ensures forall c :: c in r <==> c in columns && Text.Contains(Text.Lower(c), "hour")
  {
    if columns == [] then []
    else (if Text.Contains(Text.Lower(columns[0]), "hour") then [columns[0]] else []) + HourNamed(columns[1..])
  }

  /** Layout 1's fallback when no column was recognised: the first three
      columns mentioning hours are taken as regular, overtime and double
      time, in that order. */
  function GenericSlots(columns: seq<string>): (m: map<Slot, string>)
    ensures Regular in m <==> |HourNamed(columns)| >= 1
    ensures Overtime in m <==> |HourNamed(columns)| >= 2
    ensures DoubleTime in m <==> |HourNamed(columns)| >= 3
    ensures forall k :: k in m ==> m[k] in columns
  {
    var hs := HourNamed(columns);
    (if |hs| >= 1 then map[Regular := hs[0]] else map[])
    + (if |hs| >= 2 then map[Overtime := hs[1]] else map[])
    + (if |hs| >= 3 then map[DoubleTime := hs[2]] else map[])
  }

  /** Layout 1's hour columns: the recognised ones, or the fallback when
      none was recognised. */
  function EntrySlots(columns: seq<string>): (m: map<Slot, string>)
    ensures ScanSlots(EntryRows, columns) != map[] ==> m == ScanSlots(EntryRows, columns)
    ensures ScanSlots(EntryRows, columns) == map[] ==> m == GenericSlots(columns)
  {
    var found := ScanSlots(EntryRows, columns);
    if found == map[] then GenericSlots(columns) else found
  }

  // ---- employee columns -----------------------------------------------------------------

  predicate MentionsEmployee(col: string) {
    Text.Contains(Text.Lower(col), "employee")
  }

  predicate MentionsId(col: string) {
    Text.Contains(Text.Lower(col), "id")
  }

  predicate MentionsName(col: string) {
    Text.Contains(Text.Lower(col), "name")
  }

  const NoEmployeeColumn := "No employee column found"

  /** Layout 1's employee column: the first mentioning "employee". */
  function EntryEmployeeColumn(columns: seq<string>): (r: Option<string>)
    ensures r.Some? ==> r.value in columns && MentionsEmployee(r.value)
    ensures r.None? <==> forall i :: 0 <= i < |columns| ==> !MentionsEmployee(columns[i])
  {
    Tables.FirstColumn(columns, MentionsEmployee)
  }

  /** Layout 2's employee column: the first mentioning "employee" but not
      "id", else the first mentioning "name". */
  function TotalsEmployeeColumn(columns: seq<string>): (r: Option<string>)
    ensures r.Some? ==> r.value in columns
                        && ((MentionsEmployee(r.value) && !MentionsId(r.value)) || MentionsName(r.value))
    ensures r.None? <==> forall i :: 0 <= i < |columns| ==>
                           !(MentionsEmployee(columns[i]) && !MentionsId(columns[i])) && !MentionsName(columns[i])
  {
    match Tables.FirstColumn(columns, (c: string) => MentionsEmployee(c) && !MentionsId(c))
    case Some(c) => Some(c)
    case None => Tables.FirstColumn(columns, MentionsName)
  }

  // ---- hours of one row -------------------------------------------------------------------

  /** A cell handed to the converter: a missing value or '' is blank, a
      timestamp has a time part of midnight, and a boolean is its text. */
  function ValueOf(c: Tables.Cell): TimeValues.TimeValue {
    match c
    case Missing => TimeValues.Blank
    case Num(x) => TimeValues.Number(x)
    case Str(s) => if s == "" then TimeValues.Blank else TimeValues.Written(s)
    case Flag(b) => TimeValues.Written(if b then "True" else "False")
    case Day(_) => TimeValues.Clock(0, 0)
  }

  /** The hours of one kind in one row: the converted cell of that kind's
      column, or zero when the sheet has no such column.  The cell is read
      by `convert_time_to_decimal` as written, or by the corrected
      converter when `corrected` holds. */
  function RowHours(row: Tables.Row, slots: map<Slot, string>, corrected: bool, k: Slot): (h: real)
    ensures Decimals.IsCents(h)
    ensures k !in slots ==> h == 0.0
  {
    if k !in slots then 0.0
    else
      var v := ValueOf(Tables.Get(row, slots[k]));
      if corrected then TimeValues.Convert(v) else TimeValues.ConvertAsWritten(v)
  }

  /** The two readings differ only on written text: a blank, a number or a
      clock time reads the same either way. */
  lemma ReadingsAgree(row: Tables.Row, slots: map<Slot, string>, k: Slot)
    requires k in slots ==> !ValueOf(Tables.Get(row, slots[k])).Written?
    ensures RowHours(row, slots, false, k) == RowHours(row, slots, true, k)
  {
  }

  /** A cell reading "7.5 hours" counts as 5.00 hours as written and as
      7.50 once corrected. */
  lemma DecimalHoursCell(row: Tables.Row, slots: map<Slot, string>, k: Slot)
    requires k in slots && Tables.Get(row, slots[k]) == Tables.Str("7.5 hours")
    ensures RowHours(row, slots, false, k) == 5.0
    ensures RowHours(row, slots, true, k) == 7.5
  {
    TimeValues.SevenAndAHalfHours();
  }

  /** The hours of one kind over a list of rows. */
  function SlotSum(rows: seq<Tables.Row>, slots: map<Slot, string>, corrected: bool, k: Slot): real
  {
    if rows == [] then 0.0
    else SlotSum(rows[..|rows| - 1], slots, corrected, k) + RowHours(rows[|rows| - 1], slots, corrected, k)
  }

  /** One output row. */
  datatype Totals = Totals(employee: Tables.Cell, regular: real, overtime: real, doubleTime: real, total: real)

  function Field(t: Totals, k: Slot): real {
    match k
    case Regular => t.regular
    case Overtime => t.overtime
    case DoubleTime => t.doubleTime
  }

  /** Totals for one employee over their rows; Total Hours is the sum of
      the three kinds. */
  function TotalsOver(employee: Tables.Cell, rows: seq<Tables.Row>, slots: map<Slot, string>, corrected: bool): (t: Totals)
    ensures t.employee == employee
    ensures forall k :: Field(t, k) == SlotSum(rows, slots, corrected, k)
    ensures t.total == t.regular + t.overtime + t.doubleTime
  {
    var r := SlotSum(rows, slots, corrected, Regular);
    var o := SlotSum(rows, slots, corrected, Overtime);
    var d := SlotSum(rows, slots, corrected, DoubleTime);
    Totals(employee, r, o, d, r + o + d)
  }

  // ---- layout 1: entries totalled per employee ---------------------------------------------

  /** The rows whose employee cell is `e`. */
  function RowsOf(rows: seq<Tables.Row>, col: string, e: Tables.Cell): (r: seq<Tables.Row>)
  {
    if rows == [] then []
    else
      var n := |rows| - 1;
      RowsOf(rows[..n], col, e) + (if Tables.Get(rows[n], col) == e then [rows[n]] else [])
  }

  /** The rows that name an employee. */
  function NamedRows(rows: seq<Tables.Row>, col: string): (r: seq<Tables.Row>)
  {
    if rows == [] then []
    else
      var n := |rows| - 1;
      NamedRows(rows[..n], col) + (if Tables.Get(rows[n], col) != Tables.Missing then [rows[n]] else [])
  }

  /** The employees of a sheet, once each, in order of first appearance
      (`unique()` without the missing value). */
  function Employees(rows: seq<Tables.Row>, col: string): (r: seq<Tables.Cell>)
    ensures forall i, j :: 0 <= i < j < |r| ==> r[i] != r[j]
    ensures forall e :: e in r ==> e != Tables.Missing
    ensures forall i :: 0 <= i < |rows| && Tables.Get(rows[i], col) != Tables.Missing ==> Tables.Get(rows[i], col) in r
    ensures forall j :: 0 <= j < |r| ==> exists i :: 0 <= i < |rows| && Tables.Get(rows[i], col) == r[j]
  {
    if rows == [] then []
    else
      var n := |rows| - 1;
      var before := Employees(rows[..n], col);
      var e := Tables.Get(rows[n], col);
      assert forall i :: 0 <= i < n ==> rows[..n][i] == rows[i];
      if e == Tables.Missing || e in before then before else before + [e]
  }

  /** No row of an employee who does not appear. */
  lemma {:induction false} RowsOfAbsent(rows: seq<Tables.Row>, col: string, e: Tables.Cell)
    requires forall i :: 0 <= i < |rows| ==> Tables.Get(rows[i], col) != e
    ensures RowsOf(rows, col, e) == []
  {
    if rows != [] {
      RowsOfAbsent(rows[..|rows| - 1], col, e);
    }
  }

  /** One totals row per employee, in the given order. */
  function Totalled(employees: seq<Tables.Cell>, rows: seq<Tables.Row>, col: string, slots: map<Slot, string>, corrected: bool)
    : (r: seq<Totals>)
    ensures |r| == |employees|
    ensures forall i :: 0 <= i < |r| ==> r[i] == TotalsOver(employees[i], RowsOf(rows, col, employees[i]), slots, corrected)
  {
    if employees == [] then []
    else
      var n := |employees| - 1;
      Totalled(employees[..n], rows, col, slots, corrected) + [TotalsOver(employees[n], RowsOf(rows, col, employees[n]), slots, corrected)]
  }

  /** `process_format_1`: an error without an employee column; otherwise
      one totals row per distinct employee, summing that employee's
      entries. */
  function ProcessEntries(f: Tables.Frame, corrected: bool): (r: Result<seq<Totals>>)
    ensures r.Err? <==> EntryEmployeeColumn(f.columns).None?
    ensures r.Err? ==> r.error == NoEmployeeColumn
    ensures r.Ok? ==> var es := Employees(f.rows, EntryEmployeeColumn(f.columns).value);
                      |r.value| == |es|
                      && forall i :: 0 <= i < |es| ==>
                           r.value[i].employee == es[i]
                           && r.value[i].total == r.value[i].regular + r.value[i].overtime + r.value[i].doubleTime
  {
    match EntryEmployeeColumn(f.columns)
    case None => Err(NoEmployeeColumn)
    case Some(col) =>
      var es := Employees(f.rows, col);
      var ts := Totalled(es, f.rows, col, EntrySlots(f.columns), corrected);
      assert forall i :: 0 <= i < |es| ==> ts[i].employee == es[i]
                                           && ts[i].total == ts[i].regular + ts[i].overtime + ts[i].doubleTime by {
        forall i | 0 <= i < |es|
          ensures ts[i].employee == es[i] && ts[i].total == ts[i].regular + ts[i].overtime + ts[i].doubleTime
        {
          assert ts[i] == TotalsOver(es[i], RowsOf(f.rows, col, es[i]), EntrySlots(f.columns), corrected);
        }
      }
      Ok(ts)
  }

  /** Sum of one kind of hours over the output rows. */
  function FieldSum(ts: seq<Totals>, k: Slot): real {
    if ts == [] then 0.0 else FieldSum(ts[..|ts| - 1], k) + Field(ts[|ts| - 1], k)
  }

  lemma SlotSumAppend(rows: seq<Tables.Row>, row: Tables.Row, slots: map<Slot, string>, corrected: bool, k: Slot)
    ensures SlotSum(rows + [row], slots, corrected, k) == SlotSum(rows, slots, corrected, k) + RowHours(row, slots, corrected, k)
  {
    assert (rows + [row])[..|rows|] == rows;
  }

  lemma FieldSumAppend(ts: seq<Totals>, t: Totals, k: Slot)
    ensures FieldSum(ts + [t], k) == FieldSum(ts, k) + Field(t, k)
  {
    assert (ts + [t])[..|ts|] == ts;
  }

  lemma TotalledAppend(es: seq<Tables.Cell>, e: Tables.Cell, rows: seq<Tables.Row>, col: string, slots: map<Slot, string>, corrected: bool)
    ensures Totalled(es + [e], rows, col, slots, corrected)
            == Totalled(es, rows, col, slots, corrected) + [TotalsOver(e, RowsOf(rows, col, e), slots, corrected)]
  {
    assert (es + [e])[..|es|] == es;
  }

  lemma RowsOfAppend(rows: seq<Tables.Row>, x: Tables.Row, col: string, e: Tables.Cell)
    ensures RowsOf(rows + [x], col, e) == RowsOf(rows, col, e) + (if Tables.Get(x, col) == e then [x] else [])
  {
    assert (rows + [x])[..|rows|] == rows;
  }

  lemma NamedRowsAppend(rows: seq<Tables.Row>, x: Tables.Row, col: string)
    ensures NamedRows(rows + [x], col) == NamedRows(rows, col) + (if Tables.Get(x, col) != Tables.Missing then [x] else [])
  {
    assert (rows + [x])[..|rows|] == rows;
  }

  lemma EmployeesAppend(rows: seq<Tables.Row>, x: Tables.Row, col: string)
    ensures var e := Tables.Get(x, col);
            Employees(rows + [x], col)
            == if e == Tables.Missing || e in Employees(rows, col) then Employees(rows, col) else Employees(rows, col) + [e]
  {
    assert (rows + [x])[..|rows|] == rows;
  }

  /** Adding one row adds its hours to its employee's totals only. */
  lemma {:induction false} TotalledExtend(es: seq<Tables.Cell>, rows: seq<Tables.Row>, x: Tables.Row,
                                          col: string, slots: map<Slot, string>, corrected: bool, k: Slot)
    requires forall i, j :: 0 <= i < j < |es| ==> es[i] != es[j]
    ensures FieldSum(Totalled(es, rows + [x], col, slots, corrected), k)
            == FieldSum(Totalled(es, rows, col, slots, corrected), k)
               + (if Tables.Get(x, col) in es then RowHours(x, slots, corrected, k) else 0.0)
  {
    if es != [] {
      var n := |es| - 1;
      assert es == es[..n] + [es[n]];
      TotalledExtend(es[..n], rows, x, col, slots, corrected, k);
      ExtendStep(es[..n], es[n], rows, x, col, slots, corrected, k);
    }
  }

  lemma ExtendStep(front: seq<Tables.Cell>, e: Tables.Cell, rows: seq<Tables.Row>, x: Tables.Row,
                   col: string, slots: map<Slot, string>, corrected: bool, k: Slot)
    requires e !in front
    requires FieldSum(Totalled(front, rows + [x], col, slots, corrected), k)
             == FieldSum(Totalled(front, rows, col, slots, corrected), k)
                + (if Tables.Get(x, col) in front then RowHours(x, slots, corrected, k) else 0.0)
    ensures FieldSum(Totalled(front + [e], rows + [x], col, slots, corrected), k)
            == FieldSum(Totalled(front + [e], rows, col, slots, corrected), k)
               + (if Tables.Get(x, col) in front + [e] then RowHours(x, slots, corrected, k) else 0.0)
  {
    TotalledAppend(front, e, rows + [x], col, slots, corrected);
    TotalledAppend(front, e, rows, col, slots, corrected);
    FieldSumAppend(Totalled(front, rows + [x], col, slots, corrected), TotalsOver(e, RowsOf(rows + [x], col, e), slots, corrected), k);
    FieldSumAppend(Totalled(front, rows, col, slots, corrected), TotalsOver(e, RowsOf(rows, col, e), slots, corrected), k);
    RowsOfAppend(rows, x, col, e);
    if Tables.Get(x, col) == e {
      SlotSumAppend(RowsOf(rows, col, e), x, slots, corrected, k);
    } else {
      assert RowsOf(rows, col, e) + [] == RowsOf(rows, col, e);
    }
  }

  /** Totalling by employee loses and invents no hours: the totals of
      every kind add up to the hours of all rows that name an employee. */
  lemma {:induction false} TotallingConserves(rows: seq<Tables.Row>, col: string, slots: map<Slot, string>, corrected: bool, k: Slot)
    ensures FieldSum(Totalled(Employees(rows, col), rows, col, slots, corrected), k) == SlotSum(NamedRows(rows, col), slots, corrected, k)
  {
    if rows != [] {
      var n := |rows| - 1;
      LastSplit(rows);
      TotallingConserves(rows[..n], col, slots, corrected, k);
      ConserveStep(rows[..n], rows[n], col, slots, corrected, k);
    }
  }

  lemma LastSplit(rows: seq<Tables.Row>)
    requires rows != []
    ensures rows == rows[..|rows| - 1] + [rows[|rows| - 1]]
  {
  }

  lemma ConserveStep(p: seq<Tables.Row>, x: Tables.Row, col: string, slots: map<Slot, string>, corrected: bool, k: Slot)
    requires FieldSum(Totalled(Employees(p, col), p, col, slots, corrected), k) == SlotSum(NamedRows(p, col), slots, corrected, k)
    ensures FieldSum(Totalled(Employees(p + [x], col), p + [x], col, slots, corrected), k) == SlotSum(NamedRows(p + [x], col), slots, corrected, k)
  {
    var e := Tables.Get(x, col);
    if e == Tables.Missing {
      UnnamedStep(p, x, col, slots, corrected, k);
    } else if e in Employees(p, col) {
      KnownStep(p, x, col, slots, corrected, k);
    } else {
      NewStep(p, x, col, slots, corrected, k);
    }
  }

  lemma UnnamedStep(p: seq<Tables.Row>, x: Tables.Row, col: string, slots: map<Slot, string>, corrected: bool, k: Slot)
    requires FieldSum(Totalled(Employees(p, col), p, col, slots, corrected), k) == SlotSum(NamedRows(p, col), slots, corrected, k)
    requires Tables.Get(x, col) == Tables.Missing
    ensures FieldSum(Totalled(Employees(p + [x], col), p + [x], col, slots, corrected), k) == SlotSum(NamedRows(p + [x], col), slots, corrected, k)
  {
    EmployeesAppend(p, x, col);
    NamedRowsAppend(p, x, col);
    assert NamedRows(p, col) + [] == NamedRows(p, col);
    TotalledExtend(Employees(p, col), p, x, col, slots, corrected, k);
  }

  lemma KnownStep(p: seq<Tables.Row>, x: Tables.Row, col: string, slots: map<Slot, string>, corrected: bool, k: Slot)
    requires FieldSum(Totalled(Employees(p, col), p, col, slots, corrected), k) == SlotSum(NamedRows(p, col), slots, corrected, k)
    requires Tables.Get(x, col) in Employees(p, col)
    ensures FieldSum(Totalled(Employees(p + [x], col), p + [x], col, slots, corrected), k) == SlotSum(NamedRows(p + [x], col), slots, corrected, k)
  {
    KnownRow(p, x, col);
    TotalledExtend(Employees(p, col), p, x, col, slots, corrected, k);
    SlotSumAppend(NamedRows(p, col), x, slots, corrected, k);
  }

  /** A row of an employee already seen adds no employee and one named row. */
  lemma KnownRow(p: seq<Tables.Row>, x: Tables.Row, col: string)
    requires Tables.Get(x, col) in Employees(p, col)
    ensures Employees(p + [x], col) == Employees(p, col)
    ensures NamedRows(p + [x], col) == NamedRows(p, col) + [x]
  {
    EmployeesAppend(p, x, col);
    NamedRowsAppend(p, x, col);
  }

  lemma NewStep(p: seq<Tables.Row>, x: Tables.Row, col: string, slots: map<Slot, string>, corrected: bool, k: Slot)
    requires FieldSum(Totalled(Employees(p, col), p, col, slots, corrected), k) == SlotSum(NamedRows(p, col), slots, corrected, k)
    requires Tables.Get(x, col) != Tables.Missing && Tables.Get(x, col) !in Employees(p, col)
    ensures FieldSum(Totalled(Employees(p + [x], col), p + [x], col, slots, corrected), k) == SlotSum(NamedRows(p + [x], col), slots, corrected, k)
  {
    NewRow(p, x, col);
    TotalledExtend(Employees(p, col), p, x, col, slots, corrected, k);
    SlotSumAppend(NamedRows(p, col), x, slots, corrected, k);
    NewEmployee(p, x, col, slots, corrected, k);
  }

  /** A row naming a new employee adds that employee and one named row. */
  lemma NewRow(p: seq<Tables.Row>, x: Tables.Row, col: string)
    requires Tables.Get(x, col) != Tables.Missing && Tables.Get(x, col) !in Employees(p, col)
    ensures Employees(p + [x], col) == Employees(p, col) + [Tables.Get(x, col)]
    ensures NamedRows(p + [x], col) == NamedRows(p, col) + [x]
  {
    EmployeesAppend(p, x, col);
    NamedRowsAppend(p, x, col);
  }

  /** A row naming an employee not seen before opens a totals row of its
      own holding just that row's hours. */
  lemma NewEmployee(p: seq<Tables.Row>, x: Tables.Row, col: string, slots: map<Slot, string>, corrected: bool, k: Slot)
    requires Tables.Get(x, col) != Tables.Missing && Tables.Get(x, col) !in Employees(p, col)
    ensures FieldSum(Totalled(Employees(p, col) + [Tables.Get(x, col)], p + [x], col, slots, corrected), k)
            == FieldSum(Totalled(Employees(p, col), p + [x], col, slots, corrected), k) + RowHours(x, slots, corrected, k)
  {
    var e := Tables.Get(x, col);
    var before := Employees(p, col);
    TotalledAppend(before, e, p + [x], col, slots, corrected);
    FieldSumAppend(Totalled(before, p + [x], col, slots, corrected), TotalsOver(e, RowsOf(p + [x], col, e), slots, corrected), k);
    RowsOfAppend(p, x, col, e);
    RowsOfAbsent(p, col, e);
    assert RowsOf(p + [x], col, e) == [x];
    SingleRowHours(x, slots, corrected, k);
  }

  /** The same, for the output of `process_format_1`. */
  lemma EntriesConserveHours(f: Tables.Frame, corrected: bool, k: Slot)
    requires EntryEmployeeColumn(f.columns).Some?
    ensures FieldSum(ProcessEntries(f, corrected).value, k)
            == SlotSum(NamedRows(f.rows, EntryEmployeeColumn(f.columns).value), EntrySlots(f.columns), corrected, k)
  {
    TotallingConserves(f.rows, EntryEmployeeColumn(f.columns).value, EntrySlots(f.columns), corrected, k);
  }

  // ---- layout 2: one row per employee -----------------------------------------------------

  /** `process_format_2`: an error without an employee column; otherwise
      one totals row per row that names an employee, in order, with each
      kind of hours converted from its column. */
  function ProcessTotals(f: Tables.Frame, corrected: bool): (r: Result<seq<Totals>>)
    ensures r.Err? <==> TotalsEmployeeColumn(f.columns).None?
    ensures r.Err? ==> r.error == NoEmployeeColumn
    ensures r.Ok? ==> var col := TotalsEmployeeColumn(f.columns).value;
                      var named := NamedRows(f.rows, col);
                      |r.value| == |named|
                      && forall i :: 0 <= i < |named| ==>
                           r.value[i] == TotalsOver(Tables.Get(named[i], col), [named[i]], ScanSlots(EmployeeTotals, f.columns), corrected)
  {
    match TotalsEmployeeColumn(f.columns)
    case None => Err(NoEmployeeColumn)
    case Some(col) =>
      var named := NamedRows(f.rows, col);
      var slots := ScanSlots(EmployeeTotals, f.columns);
      Ok(PerRow(named, col, slots, corrected))
  }

  /** One totals row for each of `named`, holding just that row. */
  function PerRow(named: seq<Tables.Row>, col: string, slots: map<Slot, string>, corrected: bool): (r: seq<Totals>)
    ensures |r| == |named|
    ensures forall i :: 0 <= i < |named| ==> r[i] == TotalsOver(Tables.Get(named[i], col), [named[i]], slots, corrected)
  {
    seq(|named|, i requires 0 <= i < |named| => TotalsOver(Tables.Get(named[i], col), [named[i]], slots, corrected))
  }

  lemma PerRowAppend(a: seq<Tables.Row>, b: seq<Tables.Row>, col: string, slots: map<Slot, string>, corrected: bool)
    ensures PerRow(a + b, col, slots, corrected) == PerRow(a, col, slots, corrected) + PerRow(b, col, slots, corrected)
  {
    var all := PerRow(a + b, col, slots, corrected);
    var parts := PerRow(a, col, slots, corrected) + PerRow(b, col, slots, corrected);
    forall i | 0 <= i < |all| ensures all[i] == parts[i] {
      if i < |a| {
        assert (a + b)[i] == a[i];
      } else {
        assert (a + b)[i] == b[i - |a|];
      }
    }
  }

  /** A one-row total is that row's converted hours. */
  lemma SingleRowHours(row: Tables.Row, slots: map<Slot, string>, corrected: bool, k: Slot)
    ensures SlotSum([row], slots, corrected, k) == RowHours(row, slots, corrected, k)
  {
    assert [row][..0] == [];
  }

  /** Layout 2 works row by row: processing two sheets with the same
      columns one after the other gives the rows of processing them
      together. */
  lemma TotalsRowByRow(columns: seq<string>, a: seq<Tables.Row>, b: seq<Tables.Row>, corrected: bool)
    requires TotalsEmployeeColumn(columns).Some?
    ensures ProcessTotals(Tables.Frame(columns, a + b), corrected).value
            == ProcessTotals(Tables.Frame(columns, a), corrected).value + ProcessTotals(Tables.Frame(columns, b), corrected).value
  {
    var col := TotalsEmployeeColumn(columns).value;
    NamedAppend(a, b, col);
    PerRowAppend(NamedRows(a, col), NamedRows(b, col), col, ScanSlots(EmployeeTotals, columns), corrected);
  }

  lemma {:induction false} NamedAppend(a: seq<Tables.Row>, b: seq<Tables.Row>, col: string)
    ensures NamedRows(a + b, col) == NamedRows(a, col) + NamedRows(b, col)
    decreases |b|
  {
    if b == [] {
      assert a + b == a;
    } else {
      var n := |b| - 1;
      NamedAppend(a, b[..n], col);
      assert (a + b)[..|a + b| - 1] == a + b[..n];
    }
  }

  // ---- the whole upload ---------------------------------------------------------------

  predicate TotalName(name: string) {
    Text.Contains(Text.Lower(name), "total")
  }

  predicate EmployeeTotalName(name: string) {
    TotalName(name) && Text.Contains(Text.Lower(name), "employee")
  }

  /** The index of the first name satisfying `p`. */
  function FirstName(names: seq<string>, p: string -> bool): (r: Option<nat>)
    ensures r.Some? ==> r.value < |names| && p(names[r.value]) && forall j :: 0 <= j < r.value ==> !p(names[j])
    ensures r.None? ==> forall j :: 0 <= j < |names| ==> !p(names[j])
  {
    if names == [] then None
    else if p(names[0]) then Some(0)
    else match FirstName(names[1..], p)
      case None => None
      case Some(i) => Some(i + 1)
  }

  /** The sheet `process_timesheet` reads from a workbook: the first whose
      name mentions both "total" and "employee", else the first mentioning
      "total", else the first sheet; nothing for a workbook without sheets. */
  function ChosenSheet(names: seq<string>): (r: Option<nat>)
    ensures r.None? <==> names == []
    ensures r.Some? ==> r.value < |names|
    ensures (exists i :: 0 <= i < |names| && EmployeeTotalName(names[i])) ==>
              EmployeeTotalName(names[r.value]) && forall j :: 0 <= j < r.value ==> !EmployeeTotalName(names[j])
    ensures (forall i :: 0 <= i < |names| ==> !EmployeeTotalName(names[i])) && names != [] ==>
              if exists i :: 0 <= i < |names| && TotalName(names[i])
              then TotalName(names[r.value]) && forall j :: 0 <= j < r.value ==> !TotalName(names[j])
              else r.value == 0
  {
    if names == [] then None
    else match FirstName(names, EmployeeTotalName)
      case Some(i) => Some(i)
      case None =>
        match FirstName(names, TotalName)
        case Some(i) => Some(i)
        case None => Some(0)
  }

  /** What the uploaded file reads as: a CSV table, or the named sheets of
      a workbook in their order. */
  datatype Upload = CsvFile(table: Tables.Frame) | WorkbookFile(names: seq<string>, sheets: seq<Tables.Frame>)

  /** The file name decides the reader: only a name ending in ".csv" is
      read as CSV. */
  predicate ReadsAsCsv(filename: Option<string>) {
    filename.Some? && Text.EndsWith(filename.value, ".csv")
  }

  /** The frame the layouts are detected on, and the sheet names detection
      sees (none for CSV). */
  function Chosen(u: Upload): (r: Option<(Tables.Frame, Option<seq<string>>)>)
    requires u.WorkbookFile? ==> |u.names| == |u.sheets|
    ensures u.CsvFile? ==> r == Some((u.table, None))
    ensures u.WorkbookFile? ==> (r.None? <==> u.names == [])
    ensures u.WorkbookFile? && r.Some? ==> r.value.1 == Some(u.names) && r.value.0 in u.sheets
  {
    match u
    case CsvFile(t) => Some((t, None))
    case WorkbookFile(names, sheets) =>
      match ChosenSheet(names)
      case None => None
      case Some(i) => Some((sheets[i], Some(names)))
  }

  /** The summary `process_timesheet` returns next to the totals. */
  datatype Summary = Summary(layout: Layout, employees: nat, regular: real, overtime: real,
                             doubleTime: real, total: real, sheets: seq<string>)

  /** Sum of the "Total Hours" column of the output. */
  function TotalSum(ts: seq<Totals>): real {
    if ts == [] then 0.0 else TotalSum(ts[..|ts| - 1]) + ts[|ts| - 1].total
  }

  /** Each output row's total is its three kinds together. */
  predicate Balanced(ts: seq<Totals>) {
    forall i :: 0 <= i < |ts| ==> ts[i].total == ts[i].regular + ts[i].overtime + ts[i].doubleTime
  }

  /** The summary's grand total is the sum of its three kinds. */
  lemma {:induction false} GrandTotalSplits(ts: seq<Totals>)
    requires Balanced(ts)
    ensures TotalSum(ts) == FieldSum(ts, Regular) + FieldSum(ts, Overtime) + FieldSum(ts, DoubleTime)
  {
    if ts != [] {
      GrandTotalSplits(ts[..|ts| - 1]);
    }
  }

  /** The error a summary over no output rows raises: the empty frame has
      no "Regular Hours" column. */
  const NoTotalsColumn := "'Regular Hours'"

  /** `process_timesheet`: pick the frame, detect its layout, run that
      layout's processor and summarise; a workbook without sheets, a frame
      without an employee column and a frame without any named row are
      errors. */
  method ProcessTimesheet(filename: Option<string>, u: Upload, corrected: bool) returns (r: Result<(seq<Totals>, Summary)>)
    requires u.WorkbookFile? ==> |u.names| == |u.sheets|
    requires ReadsAsCsv(filename) <==> u.CsvFile?
    ensures Chosen(u).None? ==> r.Err?
    ensures Chosen(u).Some? ==>
              var (f, names) := Chosen(u).value;
              var processed := if TotalsEvidence(f, names) then ProcessTotals(f, corrected) else ProcessEntries(f, corrected);
              (r.Err? <==> processed.Err? || processed.value == [])
              && (processed.Ok? && processed.value == [] ==> r == Err(NoTotalsColumn))
              && (r.Ok? ==> r.value.0 == processed.value
                            && (r.value.1.layout == EmployeeTotals <==> TotalsEvidence(f, names))
                            && r.value.1.employees == |r.value.0|
                            && r.value.1.regular == FieldSum(r.value.0, Regular)
                            && r.value.1.overtime == FieldSum(r.value.0, Overtime)
                            && r.value.1.doubleTime == FieldSum(r.value.0, DoubleTime)
                            && r.value.1.total == r.value.1.regular + r.value.1.overtime + r.value.1.doubleTime
                            && r.value.1.sheets == (if u.CsvFile? then ["CSV"] else u.names))
  {
    var chosen := Chosen(u);
    if chosen.None? {
      return Err("No sheets in workbook");
    }
    var (f, names) := chosen.value;
    var layout := DetectLayout(f, names);
    var processed := if layout == EmployeeTotals then ProcessTotals(f, corrected) else ProcessEntries(f, corrected);
    if processed.Err? {
      return Err(processed.error);
    }
    var ts := processed.value;
    if ts == [] {
      return Err(NoTotalsColumn);
    }
    assert Balanced(ts);
    GrandTotalSplits(ts);
    var summary := Summary(layout, |ts|, FieldSum(ts, Regular), FieldSum(ts, Overtime), FieldSum(ts, DoubleTime),
                           TotalSum(ts), if names.Some? then names.value else ["CSV"]);
    return Ok((ts, summary));
  }
}
