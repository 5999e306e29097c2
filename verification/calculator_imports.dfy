/** Loading sheets into the pool-distribution calculator.  A timesheet
    sets the hours of the employees it names, creating the ones not yet
    known; a revenue sheet is summed per business unit, the units being
    found by name or created.

    Both imports read names with `astype(str)`, so a missing name reads as
    the text "nan".  Two defects follow, each modelled next to its
    correction (`corrected == false` is the code as written): a timesheet
    row without a name creates an employee called "nan", and revenue
    groups that land on the same unit (a blank or "nan" unit and
    "Unassigned", or names differing only in case) overwrite each other's
    revenue instead of adding up. */
module CalculatorImports {
  import opened Wrappers
  import Text
  import Decimals
  import Seqs
  import Tables
  import EmployeeModel
  import UnitModel
  import opened PoolCalculator

  /** What an import reports: whether it succeeded, its messages, and the
      state it leaves behind (a failure part-way keeps what was done). */
  datatype Outcome = Outcome(ok: bool, errors: seq<string>, state: Calculator)

  const NameColumn := "Employee Name"
  const RegularColumn := "Regular Hours"
  const OvertimeColumn := "OT Hours"
  const DoubleTimeColumn := "DT Hours"
  const TimesheetColumns: seq<string> := [NameColumn, RegularColumn, OvertimeColumn, DoubleTimeColumn]

  /** The required columns a sheet lacks, in the required order. */
  function MissingColumns(required: seq<string>, columns: seq<string>): (r: seq<string>)
    ensures forall x :: x in r <==> x in required && x !in columns
    ensures |r| <= |required|
    ensures (forall x :: x in required ==> x in columns) ==> r == []
    decreases |required|
  {
    if |required| == 0 then []
    else
      assert forall x :: x in required <==> x == required[0] || x in required[1..];
      (if required[0] in columns then [] else [required[0]]) + MissingColumns(required[1..], columns)
  }

  // ---- timesheet ---------------------------------------------------------------

  /** The name a timesheet row gives, stripped.  As written a missing cell
      reads "nan"; corrected, it reads as blank. */
  function RowName(row: Tables.Row, corrected: bool): (n: string)
    ensures Text.Strip(n) == n
    ensures Tables.Get(row, NameColumn).Str? ==> n == Text.Strip(Tables.Get(row, NameColumn).s)
    ensures Tables.Get(row, NameColumn).Missing? ==> n == (if corrected then "" else "nan")
  {
    var cell := Tables.Get(row, NameColumn);
    if corrected && cell.Missing? then ""
    else
      var t := Tables.CellText(cell);
      Text.StripIdempotent(t);
      if cell.Missing? then NanName(); Text.Strip(t) else Text.Strip(t)
  }

  /** The text a missing cell reads as is already stripped and not blank. */
  lemma NanName()
    ensures Tables.CellText(Tables.Missing) == "nan"
    ensures Text.Strip("nan") == "nan" && !Text.IsBlank("nan")
  {
    Text.StripKeepsNonBlank("nan");
    assert !Text.IsSpace("nan"[0]);
  }

  /** An hours cell read as a number, unreadable or missing counting 0. */
  function Hours(row: Tables.Row, col: string): real {
    Tables.NumOrZero(Tables.Get(row, col))
  }

  /** The row's hours given to an employee. */
  function WithRowHours(e: Employee, row: Tables.Row): (r: Employee)
    ensures r.id == e.id && r.name == e.name
  {
    EmployeeModel.UpdateHours(e, Some(Hours(row, RegularColumn)), Some(Hours(row, OvertimeColumn)),
                              Some(Hours(row, DoubleTimeColumn)))
  }

  /** The row's hours given to the known employee `id`. */
  function SetHours(c: Calculator, id: string, row: Tables.Row): (r: Calculator)
    requires c.employees.Valid() && id in c.employees.entries
    ensures r.employees.Valid() && r.employees.order == c.employees.order
    ensures r.employees.entries == c.employees.entries[id := WithRowHours(c.employees.entries[id], row)]
    ensures r.units == c.units && r.commissions == c.commissions && r.splits == c.splits
    ensures Valid(c) ==> Valid(r)
    ensures Referenced(c) ==> Referenced(r)
  {
    c.(employees := c.employees.Put(id, WithRowHours(c.employees.entries[id], row)))
  }

  /** An employee created by a timesheet: no rate and no hours yet.  For
      a stripped name that is not empty, only the length can fail. */
  function NewEmployee(id: string, name: string): (r: Result<Employee>)
    requires name != "" && Text.Strip(name) == name
    ensures r.Ok? <==> |name| <= EmployeeModel.MaxNameLength
    ensures r.Ok? ==> r.value.id == id && r.value.name == name
  {
    if |name| <= EmployeeModel.MaxNameLength then Ok(EmployeeModel.Employee(id, name, 0.0, 0.0, 0.0, 0.0, true))
    else Err(EmployeeModel.NameLengthError)
  }

  /** The new employee is the record the model's constructor builds from
      the name with no rate and no hours, and so is well formed. */
  lemma NewEmployeeIsMade(id: string, name: string)
    requires name != "" && Text.Strip(name) == name
    ensures NewEmployee(id, name) == EmployeeModel.MakeEmployee(id, name, 0.0, 0.0, 0.0, 0.0)
    ensures NewEmployee(id, name).Ok? ==> EmployeeModel.WellFormed(NewEmployee(id, name).value)
  {
    Text.StripEmptyIffBlank(name);
    ZeroAmount();
  }

  /** A zero amount passes the amount check unchanged. */
  lemma ZeroAmount()
    ensures EmployeeModel.CheckAmount(0.0) == Ok(0.0)
  {
    assert Decimals.IsCents(0.0);
  }

  /** Only the employee table differs, and it is still well formed. */
  ghost predicate EmployeesOnly(c: Calculator, d: Calculator) {
    d.employees.Valid() && d.units == c.units && d.commissions == c.commissions && d.splits == c.splits
  }

  /** One timesheet row: a blank name is skipped; otherwise the employee of
      that name gets the row's hours, a new employee `freshId` being created
      first when nobody has the name. */
  function TimesheetRow(c: Calculator, row: Tables.Row, freshId: string, corrected: bool): Result<Calculator>
    requires c.employees.Valid()
  {
    var name := RowName(row, corrected);
    if name == "" then Ok(c) else NamedRow(c, row, freshId, name)
  }

  /** A row without a name changes nothing. */
  lemma TimesheetRowSkips(c: Calculator, row: Tables.Row, freshId: string, corrected: bool)
    requires c.employees.Valid() && RowName(row, corrected) == ""
    ensures TimesheetRow(c, row, freshId, corrected) == Ok(c)
  {
  }

  /** A row with a name fails only when it names nobody known and the
      name is longer than 100 characters. */
  lemma TimesheetRowFails(c: Calculator, row: Tables.Row, freshId: string, corrected: bool)
    requires c.employees.Valid() && RowName(row, corrected) != ""
    ensures var name := RowName(row, corrected);
      TimesheetRow(c, row, freshId, corrected).Err? <==> FindEmployeeByName(c, name).None? && |name| > EmployeeModel.MaxNameLength
  {
    NamedRowOutcome(c, row, freshId, RowName(row, corrected));
  }

  /** A row with a name: the employee of that name gets the row's hours,
      `freshId` being created first when nobody has the name. */
  function NamedRow(c: Calculator, row: Tables.Row, freshId: string, name: string): Result<Calculator>
    requires c.employees.Valid() && name != "" && Text.Strip(name) == name
  {
    match FindEmployeeByName(c, name)
    case Some(id) => Ok(SetHours(c, id, row))
    case None =>
      match NewEmployee(freshId, name)
      case Err(m) => Err(m)
      case Ok(e) => Ok(AddEmployee(c, WithRowHours(e, row)))
  }

  /** A known name always succeeds; a new one fails only when too long.
      Either way only the employee table changes. */
  lemma NamedRowOutcome(c: Calculator, row: Tables.Row, freshId: string, name: string)
    requires c.employees.Valid() && name != "" && Text.Strip(name) == name
    ensures NamedRow(c, row, freshId, name).Err? <==> FindEmployeeByName(c, name).None? && |name| > EmployeeModel.MaxNameLength
    ensures NamedRow(c, row, freshId, name).Ok? ==> EmployeesOnly(c, NamedRow(c, row, freshId, name).value)
  {
    var found := FindEmployeeByName(c, name);
    if found.Some? {
      assert NamedRow(c, row, freshId, name) == Ok(SetHours(c, found.value, row));
    } else {
      NewRowOutcome(c, row, freshId, name);
    }
  }

  lemma NewRowOutcome(c: Calculator, row: Tables.Row, freshId: string, name: string)
    requires c.employees.Valid() && name != "" && Text.Strip(name) == name
    requires FindEmployeeByName(c, name).None?
    ensures NamedRow(c, row, freshId, name).Err? <==> |name| > EmployeeModel.MaxNameLength
    ensures NamedRow(c, row, freshId, name).Ok? ==> EmployeesOnly(c, NamedRow(c, row, freshId, name).value)
  {
    var made := NewEmployee(freshId, name);
    if made.Ok? {
      assert NamedRow(c, row, freshId, name) == Ok(AddEmployee(c, WithRowHours(made.value, row)));
    }
  }

  /** A row keeps the calculator's invariants, adds no employee but
      `freshId`, and renames nobody. */
  lemma TimesheetRowKeeps(c: Calculator, row: Tables.Row, freshId: string, corrected: bool)
    requires c.employees.Valid() && TimesheetRow(c, row, freshId, corrected).Ok?
    ensures var d := TimesheetRow(c, row, freshId, corrected).value;
      EmployeesOnly(c, d) && (Valid(c) ==> Valid(d)) && (Referenced(c) ==> Referenced(d))
      && KeysWithin(c.employees.entries, d.employees.entries, freshId)
      && KeepsNames(c.employees.entries, d.employees.entries, freshId)
  {
    var name := RowName(row, corrected);
    var d := TimesheetRow(c, row, freshId, corrected).value;
    if name != "" {
      NamedRowOutcome(c, row, freshId, name);
      assert d == NamedRow(c, row, freshId, name).value;
      match FindEmployeeByName(c, name)
      case Some(id) =>
        assert d == SetHours(c, id, row);
        assert d.employees.entries == c.employees.entries[id := WithRowHours(c.employees.entries[id], row)];
        UpdateKeepsNames(c.employees.entries, id, WithRowHours(c.employees.entries[id], row), freshId);
      case None =>
        var e := WithRowHours(NewEmployee(freshId, name).value, row);
        assert d == AddEmployee(c, e);
        assert d.employees.entries == c.employees.entries[freshId := e];
        UpdateKeepsNames(c.employees.entries, freshId, e, freshId);
    }
  }

  /** No key appears but the old ones and `extra`. */
  predicate KeysWithin<T>(before: map<string, T>, after: map<string, T>, extra: string) {
    forall id :: id in after ==> id in before || id == extra
  }

  /** Every old employee but `except` is still there under the same name. */
  predicate KeepsNames(before: map<string, Employee>, after: map<string, Employee>, except: string) {
    forall id :: id in before && id != except ==> id in after && after[id].name == before[id].name
  }

  lemma UpdateKeepsNames(m: map<string, Employee>, k: string, e: Employee, except: string)
    requires k in m && k != except ==> e.name == m[k].name
    ensures KeepsNames(m, m[k := e], except)
  {
  }

  /** The rows in order, each new employee taking the next new id; the
      first failure stops the import and keeps what was done. */
  function ImportRows(c: Calculator, rows: seq<Tables.Row>, newIds: seq<string>, corrected: bool): (r: (Calculator, Option<string>))
    requires c.employees.Valid() && |newIds| >= |rows|
    ensures EmployeesOnly(c, r.0)
    ensures Valid(c) ==> Valid(r.0)
    ensures Referenced(c) ==> Referenced(r.0)
    decreases |rows|
  {
    if |rows| == 0 then (c, None)
    else
      match TimesheetRow(c, rows[0], newIds[0], corrected)
      case Err(m) => (c, Some(m))
      case Ok(d) =>
        TimesheetRowKeeps(c, rows[0], newIds[0], corrected);
        ImportRows(d, rows[1..], newIds[1..], corrected)
  }

  const TimesheetError := "Error processing timesheet: "

  /** Importing a timesheet: a sheet lacking a required column is refused
      with the list of the missing ones and changes nothing. */
  function ImportTimesheet(c: Calculator, sheet: Tables.Frame, newIds: seq<string>, corrected: bool): (o: Outcome)
    requires c.employees.Valid() && |newIds| >= |sheet.rows|
    ensures MissingColumns(TimesheetColumns, sheet.columns) != [] ==>
      o == Outcome(false, ["Missing required columns: " + Text.Join(MissingColumns(TimesheetColumns, sheet.columns), ", ")], c)
    ensures o.ok <==> o.errors == []
    ensures o.state.units == c.units && o.state.commissions == c.commissions && o.state.splits == c.splits
    ensures Valid(c) ==> Valid(o.state)
    ensures Referenced(c) ==> Referenced(o.state)
  {
    var missing := MissingColumns(TimesheetColumns, sheet.columns);
    if missing != [] then Outcome(false, ["Missing required columns: " + Text.Join(missing, ", ")], c)
    else
      var r := ImportRows(c, sheet.rows, newIds, corrected);
      if r.1.Some? then Outcome(false, [TimesheetError + r.1.value], r.0) else Outcome(true, [], r.0)
  }

  /** Ids no record has yet, none twice. */
  predicate FreshIds(newIds: seq<string>, entries: set<string>) {
    Seqs.NoDuplicates(newIds) && forall i :: 0 <= i < |newIds| ==> newIds[i] !in entries
  }

  /** After a step that may use the first fresh id, the others are still fresh. */
  lemma FreshIdsStep<T>(newIds: seq<string>, before: map<string, T>, after: map<string, T>)
    requires |newIds| > 0 && FreshIds(newIds, before.Keys) && KeysWithin(before, after, newIds[0])
    ensures FreshIds(newIds[1..], after.Keys)
  {
    forall i | 0 <= i < |newIds| - 1
      ensures newIds[1..][i] !in after
    {
      assert newIds[1..][i] == newIds[i + 1] != newIds[0];
    }
  }

  /** A name found stays found while the record found keeps its name. */
  lemma FoundStaysFound(c: Calculator, d: Calculator, name: string)
    requires FindEmployeeByName(c, name).Some?
    requires d.employees.Valid()
    requires var id := FindEmployeeByName(c, name).value;
      id in d.employees.entries && d.employees.entries[id].name == c.employees.entries[id].name
    ensures FindEmployeeByName(d, name).Some?
  {
    var id := FindEmployeeByName(c, name).value;
    assert NamedAs(d.employees.entries, EmployeeName, NameKey(name), id);
  }

  /** After a row with a name, that name is found. */
  lemma RowNameFound(c: Calculator, row: Tables.Row, freshId: string, corrected: bool)
    requires Valid(c) && freshId !in c.employees.entries
    requires TimesheetRow(c, row, freshId, corrected).Ok? && RowName(row, corrected) != ""
    ensures FindEmployeeByName(TimesheetRow(c, row, freshId, corrected).value, RowName(row, corrected)).Some?
  {
    var name := RowName(row, corrected);
    var d := TimesheetRow(c, row, freshId, corrected).value;
    match FindEmployeeByName(c, name)
    case Some(id) =>
      FoundStaysFound(c, d, name);
    case None =>
      Text.LowerKeepsStripped(name);
      assert d.employees.entries[freshId].name == name;
      assert NamedAs(d.employees.entries, EmployeeName, NameKey(name), freshId);
  }

  /** Later rows never lose a name already found. */
  lemma {:induction false} ImportKeepsFound(c: Calculator, rows: seq<Tables.Row>, newIds: seq<string>, corrected: bool, name: string)
    requires c.employees.Valid() && |newIds| >= |rows| && FreshIds(newIds, c.employees.entries.Keys)
    requires FindEmployeeByName(c, name).Some?
    ensures FindEmployeeByName(ImportRows(c, rows, newIds, corrected).0, name).Some?
    decreases |rows|
  {
    if |rows| > 0 {
      var t := TimesheetRow(c, rows[0], newIds[0], corrected);
      if t.Ok? {
        var d := t.value;
        TimesheetRowKeeps(c, rows[0], newIds[0], corrected);
        FoundStaysFound(c, d, name);
        FreshIdsStep(newIds, c.employees.entries, d.employees.entries);
        ImportKeepsFound(d, rows[1..], newIds[1..], corrected, name);
      }
    }
  }

  /** Every name the rows give is found among the employees. */
  predicate NamesFound(c: Calculator, rows: seq<Tables.Row>, corrected: bool) {
    forall row :: row in rows && RowName(row, corrected) != "" ==> FindEmployeeByName(c, RowName(row, corrected)).Some?
  }

  lemma NamesFoundCons(c: Calculator, rows: seq<Tables.Row>, corrected: bool)
    requires |rows| > 0 && NamesFound(c, rows[1..], corrected)
    requires RowName(rows[0], corrected) != "" ==> FindEmployeeByName(c, RowName(rows[0], corrected)).Some?
    ensures NamesFound(c, rows, corrected)
  {
    forall row | row in rows && RowName(row, corrected) != ""
      ensures FindEmployeeByName(c, RowName(row, corrected)).Some?
    {
      var i :| 0 <= i < |rows| && rows[i] == row;
      if i > 0 {
        assert rows[1..][i - 1] == row;
      }
    }
  }

  /** After a timesheet import that completes, every name the sheet gives
      is found among the employees. */
  lemma {:induction false} ImportedNamesFound(c: Calculator, rows: seq<Tables.Row>, newIds: seq<string>, corrected: bool)
    requires Valid(c) && |newIds| >= |rows| && FreshIds(newIds, c.employees.entries.Keys)
    ensures var r := ImportRows(c, rows, newIds, corrected);
      r.1.None? ==> NamesFound(r.0, rows, corrected)
    decreases |rows|
  {
    if |rows| > 0 {
      var t := TimesheetRow(c, rows[0], newIds[0], corrected);
      if t.Ok? {
        var d := t.value;
        TimesheetRowKeeps(c, rows[0], newIds[0], corrected);
        FreshIdsStep(newIds, c.employees.entries, d.employees.entries);
        ImportedNamesFound(d, rows[1..], newIds[1..], corrected);
        var r := ImportRows(c, rows, newIds, corrected);
        assert r == ImportRows(d, rows[1..], newIds[1..], corrected);
        if r.1.None? {
          var first := RowName(rows[0], corrected);
          if first != "" {
            RowNameFound(c, rows[0], newIds[0], corrected);
            ImportKeepsFound(d, rows[1..], newIds[1..], corrected, first);
          }
          NamesFoundCons(r.0, rows, corrected);
        }
      }
    }
  }

  /** A sheet with one row whose name cell is empty. */
  function NamelessSheet(): Tables.Frame {
    Tables.Frame(TimesheetColumns, [map[NameColumn := Tables.Missing, RegularColumn := Tables.Num(8.0)]])
  }

  /** A sheet with every required column whose rows all go through is
      reported as a success holding the imported state. */
  lemma SheetComplete(c: Calculator, sheet: Tables.Frame, newIds: seq<string>, corrected: bool)
    requires c.employees.Valid() && |newIds| >= |sheet.rows|
    requires forall x :: x in TimesheetColumns ==> x in sheet.columns
    requires ImportRows(c, sheet.rows, newIds, corrected).1.None?
    ensures ImportTimesheet(c, sheet, newIds, corrected) == Outcome(true, [], ImportRows(c, sheet.rows, newIds, corrected).0)
  {
  }

  /** One row that goes through is the whole import of a one-row sheet. */
  lemma OneRowImport(c: Calculator, row: Tables.Row, freshId: string, corrected: bool)
    requires c.employees.Valid() && TimesheetRow(c, row, freshId, corrected).Ok?
    ensures ImportRows(c, [row], [freshId], corrected) == (TimesheetRow(c, row, freshId, corrected).value, None)
  {
    TimesheetRowKeeps(c, row, freshId, corrected);
  }

  /** As written, the nameless row creates an employee called "nan". */
  lemma NamelessRowAsWritten()
    ensures var o := ImportTimesheet(NewCalculator(), NamelessSheet(), ["e1"], false);
      o.ok && "e1" in o.state.employees.entries && o.state.employees.entries["e1"].name == "nan"
  {
    var c := NewCalculator();
    var row := NamelessSheet().rows[0];
    assert NamelessSheet().rows == [row];
    assert Tables.Get(row, NameColumn) == Tables.Missing;
    assert RowName(row, false) == "nan";
    assert FindEmployeeByName(c, "nan").None?;
    var e := EmployeeModel.Employee("e1", "nan", 0.0, 0.0, 0.0, 0.0, true);
    assert NewEmployee("e1", "nan") == Ok(e);
    var d := AddEmployee(c, WithRowHours(e, row));
    assert TimesheetRow(c, row, "e1", false) == NamedRow(c, row, "e1", "nan") == Ok(d);
    OneRowImport(c, row, "e1", false);
    SheetComplete(c, NamelessSheet(), ["e1"], false);
  }

  /** Corrected, the nameless row is skipped. */
  lemma NamelessRowCorrected()
    ensures var o := ImportTimesheet(NewCalculator(), NamelessSheet(), ["e1"], true);
      o.ok && o.state.employees.entries == map[]
  {
    var c := NewCalculator();
    var row := NamelessSheet().rows[0];
    assert NamelessSheet().rows == [row];
    assert Tables.Get(row, NameColumn) == Tables.Missing;
    TimesheetRowSkips(c, row, "e1", true);
    OneRowImport(c, row, "e1", true);
    SheetComplete(c, NamelessSheet(), ["e1"], true);
  }

  // ---- revenue -----------------------------------------------------------------

  const RevenueColumn := "Revenue"
  const UnitColumn := "Business Unit"
  const DefaultUnit := "Unassigned"
  const RevenueError := "Error processing revenue: "

  /** The group a revenue row falls in: its unit cell as stripped text, or
      the default unit when the sheet has no unit column. */
  function UnitKey(row: Tables.Row, columns: seq<string>): string {
    if UnitColumn in columns then Text.Strip(Tables.CellText(Tables.Get(row, UnitColumn))) else DefaultUnit
  }

  function UnitKeys(rows: seq<Tables.Row>, columns: seq<string>): (ks: seq<string>)
    ensures |ks| == |rows| && forall i :: 0 <= i < |rows| ==> ks[i] == UnitKey(rows[i], columns)
  {
    seq(|rows|, i requires 0 <= i < |rows| => UnitKey(rows[i], columns))
  }

  /** The groups of the sheet, in ascending order, each once. */
  function Groups(rows: seq<Tables.Row>, columns: seq<string>): (keys: seq<string>)
    ensures Seqs.Ascending(keys) && Seqs.NoDuplicates(keys) && |keys| <= |rows|
    ensures forall i :: 0 <= i < |rows| ==> UnitKey(rows[i], columns) in keys
    ensures forall k :: k in keys ==> exists i :: 0 <= i < |rows| && UnitKey(rows[i], columns) == k
  {
    var ks := UnitKeys(rows, columns);
    var keys := Seqs.SortedDistinct(ks);
    assert forall i :: 0 <= i < |rows| ==> ks[i] in ks;
    keys
  }

  /** The revenue of one group; unreadable or missing amounts count 0. */
  function GroupRevenue(rows: seq<Tables.Row>, columns: seq<string>, key: string): real
    decreases |rows|
  {
    if |rows| == 0 then 0.0
    else
      var last := rows[|rows| - 1];
      GroupRevenue(rows[..|rows| - 1], columns, key)
        + (if UnitKey(last, columns) == key then Tables.NumOrZero(Tables.Get(last, RevenueColumn)) else 0.0)
  }

  /** The unit a group is booked to: blank and "nan" groups go to the
      default unit. */
  function UnitNameFor(key: string): (n: string)
    ensures key == "" || key == "nan" ==> n == DefaultUnit
    ensures key != "" && key != "nan" ==> n == key
  {
    if key == "" || key == "nan" then DefaultUnit else key
  }

  /** One group's revenue booked to its unit, found by name or created as
      `freshId` with rate 0.  As written the revenue replaces the unit's;
      corrected, a unit already booked in this import (listed in
      `touched`) adds it up.  Creating a unit fails only for a name longer
      than 100 characters. */
  function ApplyGroup(c: Calculator, name: string, revenue: real, freshId: string, touched: seq<string>, corrected: bool)
    : (r: Result<(Calculator, seq<string>)>)
    requires c.units.Valid()
    ensures r.Err? <==> FindUnitByName(c, name).None? && !(1 <= |name| <= UnitModel.MaxNameLength && !Text.IsBlank(name))
    ensures r.Ok? ==> r.value.0.units.Valid() && r.value.0.employees == c.employees
                      && r.value.0.commissions == c.commissions && r.value.0.splits == c.splits
    ensures r.Ok? && Valid(c) ==> Valid(r.value.0)
    ensures r.Ok? && Referenced(c) ==> Referenced(r.value.0)
  {
    match FindUnitByName(c, name)
    case Some(id) =>
      var total := if corrected && id in touched then c.units.entries[id].revenue + revenue else revenue;
      Ok((SetRevenue(c, id, total), if id in touched then touched else touched + [id]))
    case None =>
      match NewUnit(freshId, name)
      case Err(m) => Err(m)
      case Ok(u) => Ok((AddUnit(c, u.(revenue := revenue)), touched + [freshId]))
  }

  /** A unit created by a revenue sheet: rate 0, no revenue yet. */
  function NewUnit(id: string, name: string): (r: Result<BusinessUnit>)
    ensures r.Ok? <==> 1 <= |name| <= UnitModel.MaxNameLength && !Text.IsBlank(name)
    ensures r.Ok? ==> r.value.id == id && r.value.name == Text.Strip(name)
  {
    UnitModel.MakeUnit(id, name, 0.0, 0.0)
  }

  /** The known unit `id` given the revenue `total`. */
  function SetRevenue(c: Calculator, id: string, total: real): (r: Calculator)
    requires c.units.Valid() && id in c.units.entries
    ensures r.units.Valid() && r.units.order == c.units.order
    ensures r.units.entries == c.units.entries[id := c.units.entries[id].(revenue := total)]
    ensures r.employees == c.employees && r.commissions == c.commissions && r.splits == c.splits
    ensures Valid(c) ==> Valid(r)
    ensures Referenced(c) ==> Referenced(r)
    ensures TotalRevenue(r) == TotalRevenue(c) - c.units.entries[id].revenue + total
  {
    var u := c.units.entries[id].(revenue := total);
    var r := c.(units := c.units.Put(id, u));
    assert Seqs.NoDuplicates(c.units.order) by {
      assert forall i, j :: 0 <= i < j < |c.units.order| ==> c.units.order[i] != c.units.order[j];
    }
    RevenueOverListed(c.units.order, c.units.entries, id, u);
    r
  }

  /** The groups in order, each new unit taking the next new id; the
      first failure stops the import and keeps what was done. */
  function ApplyGroups(c: Calculator, rows: seq<Tables.Row>, columns: seq<string>, keys: seq<string>,
                       newIds: seq<string>, touched: seq<string>, corrected: bool): (r: (Calculator, seq<string>, Option<string>))
    requires c.units.Valid() && |newIds| >= |keys|
    ensures r.0.units.Valid() && r.0.employees == c.employees && r.0.commissions == c.commissions && r.0.splits == c.splits
    ensures Valid(c) ==> Valid(r.0)
    ensures Referenced(c) ==> Referenced(r.0)
    decreases |keys|
  {
    if |keys| == 0 then (c, touched, None)
    else
      match ApplyGroup(c, UnitNameFor(keys[0]), GroupRevenue(rows, columns, keys[0]), newIds[0], touched, corrected)
      case Err(m) => (c, touched, Some(m))
      case Ok(step) => ApplyGroups(step.0, rows, columns, keys[1..], newIds[1..], step.1, corrected)
  }

  /** Importing a revenue sheet: a sheet without a revenue column is
      refused and changes nothing. */
  function ImportRevenue(c: Calculator, sheet: Tables.Frame, newIds: seq<string>, corrected: bool): (o: Outcome)
    requires c.units.Valid() && |newIds| >= |sheet.rows|
    ensures RevenueColumn !in sheet.columns ==> o == Outcome(false, ["Missing 'Revenue' column"], c)
    ensures o.ok <==> o.errors == []
    ensures o.state.employees == c.employees && o.state.commissions == c.commissions && o.state.splits == c.splits
    ensures Valid(c) ==> Valid(o.state)
    ensures Referenced(c) ==> Referenced(o.state)
  {
    if RevenueColumn !in sheet.columns then Outcome(false, ["Missing 'Revenue' column"], c)
    else
      var keys := Groups(sheet.rows, sheet.columns);
      var r := ApplyGroups(c, sheet.rows, sheet.columns, keys, newIds, [], corrected);
      if r.2.Some? then Outcome(false, [RevenueError + r.2.value], r.0) else Outcome(true, [], r.0)
  }

  // ---- what the revenue adds up to ---------------------------------------------

  function TotalRevenue(c: Calculator): real {
    RevenueOver(c.units.order, c.units.entries)
  }

  /** The revenue of the listed groups, one after another. */
  function KeysRevenue(rows: seq<Tables.Row>, columns: seq<string>, keys: seq<string>): real
    decreases |keys|
  {
    if |keys| == 0 then 0.0 else GroupRevenue(rows, columns, keys[0]) + KeysRevenue(rows, columns, keys[1..])
  }

  lemma {:induction false} KeysRevenueStep(rows: seq<Tables.Row>, columns: seq<string>, keys: seq<string>)
    requires |rows| > 0
    ensures var last := rows[|rows| - 1];
      KeysRevenue(rows, columns, keys)
        == KeysRevenue(rows[..|rows| - 1], columns, keys)
           + Indicator(keys, UnitKey(last, columns), Tables.NumOrZero(Tables.Get(last, RevenueColumn)))
    decreases |keys|
  {
    if |keys| > 0 {
      KeysRevenueStep(rows, columns, keys[1..]);
    }
  }

  lemma {:induction false} KeysRevenueEmpty(columns: seq<string>, keys: seq<string>)
    ensures KeysRevenue([], columns, keys) == 0.0
    decreases |keys|
  {
    if |keys| > 0 {
      KeysRevenueEmpty(columns, keys[1..]);
    }
  }

  /** Summing group by group, over groups that list every row's group
      once, adds up the whole revenue column. */
  lemma {:induction false} GroupsPartitionRevenue(rows: seq<Tables.Row>, columns: seq<string>, keys: seq<string>)
    requires Seqs.NoDuplicates(keys)
    requires forall i :: 0 <= i < |rows| ==> UnitKey(rows[i], columns) in keys
    ensures KeysRevenue(rows, columns, keys) == Tables.ColumnTotal(rows, RevenueColumn)
    decreases |rows|
  {
    if |rows| == 0 {
      KeysRevenueEmpty(columns, keys);
    } else {
      var last := rows[|rows| - 1];
      KeysRevenueStep(rows, columns, keys);
      IndicatorOnce(keys, UnitKey(last, columns), Tables.NumOrZero(Tables.Get(last, RevenueColumn)));
      GroupsPartitionRevenue(rows[..|rows| - 1], columns, keys);
    }
  }

  /** What the corrected booking keeps: the units booked so far are known,
      listed once, and every other unit has no revenue. */
  ghost predicate Booked(c: Calculator, touched: seq<string>) {
    Valid(c) && Seqs.NoDuplicates(touched)
    && (forall i :: 0 <= i < |touched| ==> touched[i] in c.units.entries)
    && (forall id :: id in c.units.entries && id !in touched ==> c.units.entries[id].revenue == 0.0)
  }

  /** Booking one group, corrected, adds its revenue to the total. */
  lemma ApplyGroupAdds(c: Calculator, name: string, revenue: real, freshId: string, touched: seq<string>)
    requires Booked(c, touched) && freshId !in c.units.entries
    requires ApplyGroup(c, name, revenue, freshId, touched, true).Ok?
    ensures var r := ApplyGroup(c, name, revenue, freshId, touched, true).value;
      Booked(r.0, r.1) && TotalRevenue(r.0) == TotalRevenue(c) + revenue
      && KeysWithin(c.units.entries, r.0.units.entries, freshId)
  {
    match FindUnitByName(c, name)
    case Some(id) =>
      BookKnown(c, id, revenue, touched);
    case None =>
      var u := NewUnit(freshId, name).value.(revenue := revenue);
      BookNew(c, u, touched);
  }

  /** Booking to a known unit: its revenue grows by the group's when it
      was booked before, and starts from it otherwise. */
  lemma BookKnown(c: Calculator, id: string, revenue: real, touched: seq<string>)
    requires Booked(c, touched) && id in c.units.entries
    ensures var total := if id in touched then c.units.entries[id].revenue + revenue else revenue;
      var d := SetRevenue(c, id, total);
      Booked(d, if id in touched then touched else touched + [id])
      && TotalRevenue(d) == TotalRevenue(c) + revenue
      && KeysWithin(c.units.entries, d.units.entries, id)
  {
  }

  /** Booking to a new unit. */
  lemma BookNew(c: Calculator, u: BusinessUnit, touched: seq<string>)
    requires Booked(c, touched) && u.id !in c.units.entries
    ensures var d := AddUnit(c, u);
      Booked(d, touched + [u.id]) && TotalRevenue(d) == TotalRevenue(c) + u.revenue
      && KeysWithin(c.units.entries, d.units.entries, u.id)
  {
    AddUnitRevenue(c, u);
    assert u.id !in touched;
  }

  /** Booking the groups, corrected, adds all their revenue to the total. */
  lemma {:induction false} ApplyGroupsAdd(c: Calculator, rows: seq<Tables.Row>, columns: seq<string>, keys: seq<string>,
                                          newIds: seq<string>, touched: seq<string>)
    requires Booked(c, touched) && |newIds| >= |keys| && FreshIds(newIds, c.units.entries.Keys)
    ensures var r := ApplyGroups(c, rows, columns, keys, newIds, touched, true);
      r.2.None? ==> TotalRevenue(r.0) == TotalRevenue(c) + KeysRevenue(rows, columns, keys)
    decreases |keys|
  {
    if |keys| > 0 {
      var g := ApplyGroup(c, UnitNameFor(keys[0]), GroupRevenue(rows, columns, keys[0]), newIds[0], touched, true);
      if g.Ok? {
        ApplyGroupAdds(c, UnitNameFor(keys[0]), GroupRevenue(rows, columns, keys[0]), newIds[0], touched);
        FreshIdsStep(newIds, c.units.entries, g.value.0.units.entries);
        ApplyGroupsAdd(g.value.0, rows, columns, keys[1..], newIds[1..], g.value.1);
      }
    }
  }

  lemma {:induction false} RevenueOverZero(ids: seq<string>, entries: map<string, BusinessUnit>)
    requires forall id :: id in entries ==> entries[id].revenue == 0.0
    ensures RevenueOver(ids, entries) == 0.0
    decreases |ids|
  {
    if |ids| > 0 {
      RevenueOverZero(ids[1..], entries);
    }
  }

  /** Starting from units without revenue, a corrected revenue import that
      completes leaves the units holding exactly the sheet's revenue. */
  lemma RevenueImportConserves(c: Calculator, sheet: Tables.Frame, newIds: seq<string>)
    requires Valid(c) && |newIds| >= |sheet.rows| && FreshIds(newIds, c.units.entries.Keys)
    requires forall id :: id in c.units.entries ==> c.units.entries[id].revenue == 0.0
    ensures var o := ImportRevenue(c, sheet, newIds, true);
      o.ok ==> TotalRevenue(o.state) == Tables.ColumnTotal(sheet.rows, RevenueColumn)
  {
    if RevenueColumn in sheet.columns {
      var keys := Groups(sheet.rows, sheet.columns);
      RevenueOverZero(c.units.order, c.units.entries);
      ApplyGroupsAdd(c, sheet.rows, sheet.columns, keys, newIds, []);
      GroupsPartitionRevenue(sheet.rows, sheet.columns, keys);
    }
  }

  /** The revenue one row holds. */
  function RowRevenue(row: Tables.Row): real {
    Tables.NumOrZero(Tables.Get(row, RevenueColumn))
  }

  /** Group and column totals of a two-row sheet. */
  lemma TwoRowTotals(r0: Tables.Row, r1: Tables.Row, columns: seq<string>, key: string)
    ensures GroupRevenue([r0, r1], columns, key)
      == (if UnitKey(r0, columns) == key then RowRevenue(r0) else 0.0)
         + (if UnitKey(r1, columns) == key then RowRevenue(r1) else 0.0)
    ensures Tables.ColumnTotal([r0, r1], RevenueColumn) == RowRevenue(r0) + RowRevenue(r1)
  {
    assert [r0, r1][..1] == [r0] && [r0][..0] == [];
    assert GroupRevenue([r0], columns, key) == (if UnitKey(r0, columns) == key then RowRevenue(r0) else 0.0);
    assert Tables.ColumnTotal([r0], RevenueColumn) == RowRevenue(r0);
  }

  /** An ascending list holding two different names, and no more than two,
      holds them in order. */
  lemma TwoKeys(keys: seq<string>, a: string, b: string)
    requires Seqs.Ascending(keys) && |keys| <= 2 && a in keys && b in keys && a != b
    requires !Seqs.Less(b, a)
    ensures keys == [a, b]
  {
    assert |keys| == 2;
    assert Seqs.Less(keys[0], keys[1]);
  }

  /** The default unit name is already stripped and not blank. */
  lemma DefaultUnitName()
    ensures Text.Strip(DefaultUnit) == DefaultUnit && !Text.IsBlank(DefaultUnit)
    ensures 1 <= |DefaultUnit| <= UnitModel.MaxNameLength
    ensures Text.Strip(Text.Lower(DefaultUnit)) == Text.Lower(DefaultUnit)
    ensures Seqs.Less(DefaultUnit, "nan") && !Seqs.Less("nan", DefaultUnit)
  {
    Text.StripKeepsNonBlank(DefaultUnit);
    assert !Text.IsSpace(DefaultUnit[0]);
    Text.LowerKeepsStripped(DefaultUnit);
    assert DefaultUnit[0] == 'U' && "nan"[0] == 'n';
  }

  function UnassignedRow(): Tables.Row {
    map[UnitColumn := Tables.Str(DefaultUnit), RevenueColumn := Tables.Num(100.0)]
  }

  function NoUnitRow(): Tables.Row {
    map[UnitColumn := Tables.Missing, RevenueColumn := Tables.Num(50.0)]
  }

  /** A sheet with 100 booked to "Unassigned" and 50 with no unit. */
  function UnassignedSheet(): Tables.Frame {
    Tables.Frame([UnitColumn, RevenueColumn], [UnassignedRow(), NoUnitRow()])
  }

  lemma UnassignedRows()
    ensures UnitKey(UnassignedRow(), UnassignedSheet().columns) == DefaultUnit
    ensures UnitKey(NoUnitRow(), UnassignedSheet().columns) == "nan"
    ensures RowRevenue(UnassignedRow()) == 100.0 && RowRevenue(NoUnitRow()) == 50.0
  {
    UnassignedRowCells();
    NoUnitRowCells();
    UnassignedRowKey();
    NoUnitRowKey();
  }

  lemma UnassignedRowKey()
    ensures UnitKey(UnassignedRow(), UnassignedSheet().columns) == DefaultUnit
  {
    UnassignedRowCells();
    DefaultUnitName();
  }

  lemma NoUnitRowKey()
    ensures UnitKey(NoUnitRow(), UnassignedSheet().columns) == "nan"
  {
    NoUnitRowCells();
    NanName();
  }

  lemma UnassignedRowCells()
    ensures Tables.Get(UnassignedRow(), UnitColumn) == Tables.Str(DefaultUnit)
    ensures Tables.Get(UnassignedRow(), RevenueColumn) == Tables.Num(100.0)
  {
    assert UnitColumn != RevenueColumn by { assert |UnitColumn| != |RevenueColumn|; }
  }

  lemma NoUnitRowCells()
    ensures Tables.Get(NoUnitRow(), UnitColumn) == Tables.Missing
    ensures Tables.Get(NoUnitRow(), RevenueColumn) == Tables.Num(50.0)
  {
    assert UnitColumn != RevenueColumn by { assert |UnitColumn| != |RevenueColumn|; }
  }

  /** The sheet's two rows form the groups "Unassigned" and "nan", in that
      order since upper-case letters sort first, holding 100 and 50. */
  lemma UnassignedGroups()
    ensures var sheet := UnassignedSheet();
      Groups(sheet.rows, sheet.columns) == [DefaultUnit, "nan"]
      && GroupRevenue(sheet.rows, sheet.columns, DefaultUnit) == 100.0
      && GroupRevenue(sheet.rows, sheet.columns, "nan") == 50.0
      && Tables.ColumnTotal(sheet.rows, RevenueColumn) == 150.0
  {
    var sheet := UnassignedSheet();
    UnassignedRows();
    DefaultUnitName();
    TwoRowTotals(UnassignedRow(), NoUnitRow(), sheet.columns, DefaultUnit);
    TwoRowTotals(UnassignedRow(), NoUnitRow(), sheet.columns, "nan");
    var keys := Groups(sheet.rows, sheet.columns);
    assert UnitKey(sheet.rows[0], sheet.columns) in keys && UnitKey(sheet.rows[1], sheet.columns) in keys;
    TwoKeys(keys, DefaultUnit, "nan");
  }

  /** Booking a group whose unit is not known creates it. */
  lemma ApplyGroupNew(c: Calculator, name: string, revenue: real, freshId: string, touched: seq<string>, corrected: bool)
    requires c.units.Valid() && FindUnitByName(c, name).None? && NewUnit(freshId, name).Ok?
    ensures ApplyGroup(c, name, revenue, freshId, touched, corrected)
      == Ok((AddUnit(c, NewUnit(freshId, name).value.(revenue := revenue)), touched + [freshId]))
  {
  }

  /** Booking a group whose unit is known to a unit booked before. */
  lemma ApplyGroupAgain(c: Calculator, name: string, revenue: real, freshId: string, touched: seq<string>, corrected: bool)
    requires c.units.Valid() && FindUnitByName(c, name).Some? && FindUnitByName(c, name).value in touched
    ensures var id := FindUnitByName(c, name).value;
      ApplyGroup(c, name, revenue, freshId, touched, corrected)
        == Ok((SetRevenue(c, id, if corrected then c.units.entries[id].revenue + revenue else revenue), touched))
  {
  }

  /** Two groups booked one after the other. */
  lemma ApplyTwoGroups(c: Calculator, rows: seq<Tables.Row>, columns: seq<string>, k0: string, k1: string,
                       newIds: seq<string>, corrected: bool)
    requires c.units.Valid() && |newIds| == 2
    requires var g1 := ApplyGroup(c, UnitNameFor(k0), GroupRevenue(rows, columns, k0), newIds[0], [], corrected);
      g1.Ok? && ApplyGroup(g1.value.0, UnitNameFor(k1), GroupRevenue(rows, columns, k1), newIds[1], g1.value.1, corrected).Ok?
    ensures var g1 := ApplyGroup(c, UnitNameFor(k0), GroupRevenue(rows, columns, k0), newIds[0], [], corrected);
      var g2 := ApplyGroup(g1.value.0, UnitNameFor(k1), GroupRevenue(rows, columns, k1), newIds[1], g1.value.1, corrected);
      ApplyGroups(c, rows, columns, [k0, k1], newIds, [], corrected) == (g2.value.0, g2.value.1, None)
  {
    var g1 := ApplyGroup(c, UnitNameFor(k0), GroupRevenue(rows, columns, k0), newIds[0], [], corrected).value;
    var g2 := ApplyGroup(g1.0, UnitNameFor(k1), GroupRevenue(rows, columns, k1), newIds[1], g1.1, corrected).value;
    assert ApplyGroups(g1.0, rows, columns, [k1], newIds[1..], g1.1, corrected) == (g2.0, g2.1, None);
  }

  /** The two bookings: the first creates "u1" with 100; the second finds
      it again and, as written, sets 50 where the corrected booking adds
      50. */
  lemma UnassignedBookings(corrected: bool)
    ensures var g1 := ApplyGroup(NewCalculator(), DefaultUnit, 100.0, "u1", [], corrected);
      g1.Ok? && g1.value.1 == ["u1"] && TotalRevenue(g1.value.0) == 100.0
      && var g2 := ApplyGroup(g1.value.0, DefaultUnit, 50.0, "u2", ["u1"], corrected);
         g2.Ok? && TotalRevenue(g2.value.0) == (if corrected then 150.0 else 50.0)
  {
    var d := FirstBooking(corrected);
    ApplyGroupAgain(d, DefaultUnit, 50.0, "u2", ["u1"], corrected);
  }

  /** The first booking creates "u1" holding 100. */
  lemma FirstBooking(corrected: bool) returns (d: Calculator)
    ensures d.units.Valid() && d.units.order == ["u1"] && d.units.entries["u1"].revenue == 100.0
    ensures ApplyGroup(NewCalculator(), DefaultUnit, 100.0, "u1", [], corrected) == Ok((d, ["u1"]))
    ensures TotalRevenue(d) == 100.0 && FindUnitByName(d, DefaultUnit) == Some("u1")
  {
    var c := NewCalculator();
    DefaultUnitName();
    assert FindUnitByName(c, DefaultUnit) == None;
    var n := NewUnit("u1", DefaultUnit);
    assert n.Ok? && n.value.name == DefaultUnit;
    var u := n.value.(revenue := 100.0);
    ApplyGroupNew(c, DefaultUnit, 100.0, "u1", [], corrected);
    AddUnitRevenue(c, u);
    d := AddUnit(c, u);
    assert NamedAs(d.units.entries, UnitName, NameKey(DefaultUnit), "u1");
  }

  /** As written, the sheet's 150 ends up as 50: the "nan" group, sorted
      after "Unassigned", overwrites it.  Corrected, the unit holds 150. */
  lemma UnassignedOverwrittenAsWritten()
    ensures Tables.ColumnTotal(UnassignedSheet().rows, RevenueColumn) == 150.0
    ensures var o := ImportRevenue(NewCalculator(), UnassignedSheet(), ["u1", "u2"], false);
      o.ok && TotalRevenue(o.state) == 50.0
    ensures var o := ImportRevenue(NewCalculator(), UnassignedSheet(), ["u1", "u2"], true);
      o.ok && TotalRevenue(o.state) == 150.0
  {
    var sheet := UnassignedSheet();
    UnassignedGroups();
    assert UnitNameFor(DefaultUnit) == DefaultUnit && UnitNameFor("nan") == DefaultUnit;
    UnassignedBookings(false);
    UnassignedBookings(true);
    ApplyTwoGroups(NewCalculator(), sheet.rows, sheet.columns, DefaultUnit, "nan", ["u1", "u2"], false);
    ApplyTwoGroups(NewCalculator(), sheet.rows, sheet.columns, DefaultUnit, "nan", ["u1", "u2"], true);
  }
}
