/** The data validator: cleaning and checking uploaded timesheets and
    revenue sheets, the checks of commission rates, hourly rates, split
    percentages and date ranges, and the file-name sanitiser.  Date-times
    are timestamps in seconds and the current time is a parameter. */
module Validators {
  import opened Wrappers
  import Text
  import Seqs
  import Decimals
  import Dicts
  import Tables
  import CalculatorImports

  /** What a validation returns: whether it passed, its messages (the
      errors, then the warnings) and the cleaned sheet. */
  datatype Validation = Validation(valid: bool, messages: seq<string>, frame: Tables.Frame)

  // ---- timesheets ----------------------------------------------------------------

  const HourColumns: seq<string> := [CalculatorImports.RegularColumn, CalculatorImports.OvertimeColumn,
                                     CalculatorImports.DoubleTimeColumn]
  const OptionalColumns: seq<string> := ["Department", "Employee ID", "Pay Period"]

  /** `astype(str).str.strip()` of a cell. */
  function StrippedText(c: Tables.Cell): string {
    Text.Strip(Tables.CellText(c))
  }

  /** Text already stripped comes back unchanged. */
  lemma StrippedTextStable(c: Tables.Cell)
    ensures StrippedText(Tables.Str(StrippedText(c))) == StrippedText(c)
  {
    Text.StripIdempotent(Tables.CellText(c));
  }

  /** A cleaned name that names nobody: empty, or a spelling of null. */
  predicate NoName(name: string) {
    name == "" || Text.Lower(name) in {"nan", "none", "null"}
  }

  /** The columns cleaning writes: the name, the hours, and the optional
      columns the sheet has. */
  function CleanedColumns(columns: seq<string>): (k: set<string>)
    ensures CalculatorImports.NameColumn in k
    ensures forall c :: c in HourColumns ==> c in k
  {
    {CalculatorImports.NameColumn, CalculatorImports.RegularColumn, CalculatorImports.OvertimeColumn,
     CalculatorImports.DoubleTimeColumn}
    + (set o | o in OptionalColumns && o in columns)
  }

  /** A cell after cleaning: names and optional columns are stripped
      text, hours are numbers with unreadable values read as 0, and every
      other column is kept. */
  function CleanCell(row: Tables.Row, columns: seq<string>, c: string): (v: Tables.Cell)
    ensures c == CalculatorImports.NameColumn ==> v == Tables.Str(StrippedText(Tables.Get(row, c)))
    ensures c in HourColumns ==> v.Num? && v.x == Tables.NumOrZero(Tables.Get(row, c))
    ensures c !in CleanedColumns(columns) ==> v == Tables.Get(row, c)
  {
    if c in HourColumns then Tables.Num(Tables.NumOrZero(Tables.Get(row, c)))
    else if c == CalculatorImports.NameColumn || (c in OptionalColumns && c in columns) then
      Tables.Str(StrippedText(Tables.Get(row, c)))
    else Tables.Get(row, c)
  }

  /** One timesheet row cleaned: the columns it had and the cleaned
      columns, each holding its cleaned cell. */
  function CleanTimesheetRow(row: Tables.Row, columns: seq<string>): (r: Tables.Row)
    ensures r.Keys == row.Keys + CleanedColumns(columns)
    ensures forall c :: c in r ==> r[c] == CleanCell(row, columns, c)
    ensures r[CalculatorImports.NameColumn] == Tables.Str(NameOf(row))
  {
    var r := map c | c in row.Keys + CleanedColumns(columns) :: CleanCell(row, columns, c);
    assert CalculatorImports.NameColumn !in HourColumns;
    r
  }

  /** The stripped name a row carries. */
  function NameOf(row: Tables.Row): string {
    StrippedText(Tables.Get(row, CalculatorImports.NameColumn))
  }

  /** Whether cleaning keeps a row: its stripped name names someone. */
  predicate Kept(row: Tables.Row) {
    !NoName(NameOf(row))
  }

  /** A cleaned row names someone. */
  predicate Named(row: Tables.Row) {
    CalculatorImports.NameColumn in row && row[CalculatorImports.NameColumn].Str?
    && !NoName(row[CalculatorImports.NameColumn].s)
  }

  lemma CleanedNamed(row: Tables.Row, columns: seq<string>)
    requires Kept(row)
    ensures Named(CleanTimesheetRow(row, columns))
  {
  }

  /** The rows whose name names someone, in order. */
  function KeptRows(rows: seq<Tables.Row>): (r: seq<Tables.Row>)
    ensures |r| <= |rows|
    ensures forall x :: x in r <==> x in rows && Kept(x)
  {
    if rows == [] then []
    else (if Kept(rows[0]) then [rows[0]] else []) + KeptRows(rows[1..])
  }

  /** The kept rows, cleaned. */
  function CleanTimesheetRows(rows: seq<Tables.Row>, columns: seq<string>): (r: seq<Tables.Row>)
    ensures |r| == |KeptRows(rows)|
    ensures forall i :: 0 <= i < |r| ==> r[i] == CleanTimesheetRow(KeptRows(rows)[i], columns) && Named(r[i])
  {
    var kept := KeptRows(rows);
    forall i | 0 <= i < |kept|
      ensures Named(CleanTimesheetRow(kept[i], columns))
    {
      assert kept[i] in kept;
      CleanedNamed(kept[i], columns);
    }
    seq(|kept|, i requires 0 <= i < |kept| => CleanTimesheetRow(kept[i], columns))
  }

  /** Whether some kept row has an hour value meeting `p` in column `col`. */
  predicate AnyHours(rows: seq<Tables.Row>, col: string, negative: bool) {
    exists i :: 0 <= i < |rows| && col in rows[i] && rows[i][col].Num?
      && (if negative then rows[i][col].x < 0.0 else rows[i][col].x > 100.0)
  }

  /** The messages about one kind of hour problem, column by column. */
  function HourMessages(rows: seq<Tables.Row>, cols: seq<string>, negative: bool): (m: seq<string>)
    ensures |m| <= |cols|
    ensures m == [] <==> forall k :: 0 <= k < |cols| ==> !AnyHours(rows, cols[k], negative)
  {
    if cols == [] then []
    else
      (if AnyHours(rows, cols[0], negative)
       then [(if negative then "Negative values found in " else "Very high values (>100) found in ") + cols[0]]
       else [])
      + HourMessages(rows, cols[1..], negative)
  }

  /** `x` occurs at two positions of `names`. */
  predicate Repeated(names: seq<string>, x: string) {
    exists i, j :: 0 <= i < j < |names| && names[i] == x && names[j] == x
  }

  /** The names that occur more than once, each once, in the order their
      second occurrence is met (`df[col.duplicated()][col].unique()`). */
  function DuplicatedNames(names: seq<string>): (r: seq<string>)
    ensures Seqs.NoDuplicates(r)
    ensures forall x :: x in r <==> Repeated(names, x)
    decreases |names|
  {
    if names == [] then []
    else
      var init := names[..|names| - 1];
      var last := names[|names| - 1];
      var rest := DuplicatedNames(init);
      forall x | Repeated(init, x)
        ensures Repeated(names, x)
      {
        var i, j :| 0 <= i < j < |init| && init[i] == x && init[j] == x;
        assert names[i] == x && names[j] == x;
      }
      if last in init && last !in rest then
        var k :| 0 <= k < |init| && init[k] == last;
        assert names[k] == last && names[|names| - 1] == last;
        rest + [last]
      else
        forall x | Repeated(names, x)
          ensures x in rest
        {
          var i, j :| 0 <= i < j < |names| && names[i] == x && names[j] == x;
          if j < |names| - 1 {
            assert init[i] == x && init[j] == x;
          } else {
            assert init[i] == last;
          }
        }
        rest
  }

  function Names(rows: seq<Tables.Row>): (names: seq<string>)
    ensures |names| == |rows|
    ensures forall i :: 0 <= i < |rows| ==> names[i] == Tables.CellText(Tables.Get(rows[i], CalculatorImports.NameColumn))
  {
    seq(|rows|, i requires 0 <= i < |rows| => Tables.CellText(Tables.Get(rows[i], CalculatorImports.NameColumn)))
  }

  /** `validate_timesheet_data`: an empty sheet or one missing a required
      column is refused as it is; otherwise the cleaned sheet is valid
      exactly when no kept row has negative hours.  Hours above 100 and
      repeated names only warn. */
  function ValidateTimesheet(f: Tables.Frame): (v: Validation)
    ensures Tables.Empty(f) ==> v == Validation(false, ["Timesheet data is empty"], f)
    ensures !Tables.Empty(f) && CalculatorImports.MissingColumns(CalculatorImports.TimesheetColumns, f.columns) != [] ==>
      v == Validation(false, ["Missing required columns: "
                              + Text.Join(CalculatorImports.MissingColumns(CalculatorImports.TimesheetColumns, f.columns), ", ")], f)
    ensures !Tables.Empty(f) && CalculatorImports.MissingColumns(CalculatorImports.TimesheetColumns, f.columns) == [] ==>
      v.frame.columns == f.columns && v.frame.rows == CleanTimesheetRows(f.rows, f.columns)
      && (v.valid <==> forall k :: 0 <= k < |HourColumns| ==> !AnyHours(v.frame.rows, HourColumns[k], true))
  {
    if Tables.Empty(f) then Validation(false, ["Timesheet data is empty"], f)
    else
      var missing := CalculatorImports.MissingColumns(CalculatorImports.TimesheetColumns, f.columns);
      if missing != [] then Validation(false, ["Missing required columns: " + Text.Join(missing, ", ")], f)
      else
        var rows := CleanTimesheetRows(f.rows, f.columns);
        var errors := HourMessages(rows, HourColumns, true);
        var high := HourMessages(rows, HourColumns, false);
        var dups := DuplicatedNames(Names(rows));
        var warnings := high + (if dups != [] then ["Duplicate employees found: " + Text.Join(dups, ", ")] else []);
        Validation(errors == [], errors + warnings, Tables.Frame(f.columns, rows))
  }

  /** Cleaning is finished in one pass: every kept row is unchanged by a
      second cleaning. */
  lemma CleanRowIdempotent(row: Tables.Row, columns: seq<string>)
    ensures CleanTimesheetRow(CleanTimesheetRow(row, columns), columns) == CleanTimesheetRow(row, columns)
  {
    var r := CleanTimesheetRow(row, columns);
    var rr := CleanTimesheetRow(r, columns);
    forall c | c in r
      ensures rr[c] == r[c]
    {
      CleanCellStable(row, columns, c);
    }
  }

  lemma CleanCellStable(row: Tables.Row, columns: seq<string>, c: string)
    requires c in CleanTimesheetRow(row, columns)
    ensures CleanCell(CleanTimesheetRow(row, columns), columns, c) == CleanCell(row, columns, c)
  {
    var r := CleanTimesheetRow(row, columns);
    assert Tables.Get(r, c) == CleanCell(row, columns, c);
    StrippedTextStable(Tables.Get(row, c));
  }

  /** Cleaning keeps every row it has already cleaned. */
  lemma CleanedKept(row: Tables.Row, columns: seq<string>)
    requires Kept(row)
    ensures Kept(CleanTimesheetRow(row, columns))
  {
    StrippedTextStable(Tables.Get(row, CalculatorImports.NameColumn));
  }

  lemma {:induction false} KeptRowsAll(rows: seq<Tables.Row>)
    requires forall i :: 0 <= i < |rows| ==> Kept(rows[i])
    ensures KeptRows(rows) == rows
  {
    if rows != [] {
      KeptRowsAll(rows[1..]);
    }
  }

  /** A cleaned timesheet is its own cleaning, so validating it again
      reaches the same verdict on the same rows. */
  lemma CleanRowsIdempotent(rows: seq<Tables.Row>, columns: seq<string>)
    ensures CleanTimesheetRows(CleanTimesheetRows(rows, columns), columns) == CleanTimesheetRows(rows, columns)
  {
    var r := CleanTimesheetRows(rows, columns);
    var kept := KeptRows(rows);
    forall i | 0 <= i < |r|
      ensures Kept(r[i])
    {
      assert kept[i] in kept;
      CleanedKept(kept[i], columns);
    }
    KeptRowsAll(r);
    forall i | 0 <= i < |r|
      ensures CleanTimesheetRow(r[i], columns) == r[i]
    {
      CleanRowIdempotent(kept[i], columns);
    }
  }

  // ---- revenue sheets -------------------------------------------------------------

  const RevenueName := "Revenue"
  const UnitName := "Business Unit"
  const UnassignedUnit := "Unassigned"

  /** The first column satisfying the case-insensitive test of `keys`. */
  function FirstColumnWith(columns: seq<string>, keys: seq<string>): (r: Option<string>)
    ensures r.Some? ==> r.value in columns && exists k :: k in keys && Text.Contains(Text.Lower(r.value), k)
    ensures r.None? ==> forall c, k :: c in columns && k in keys ==> !Text.Contains(Text.Lower(c), k)
  {
    if columns == [] then None
    else if exists k :: k in keys && Text.Contains(Text.Lower(columns[0]), k) then Some(columns[0])
    else
      var rest := FirstColumnWith(columns[1..], keys);
      assert forall c :: c in columns ==> c == columns[0] || c in columns[1..];
      rest
  }

  /** The unit values that mean "no unit". */
  predicate NoUnit(u: string) {
    u in {"", "nan", "NaN", "none", "None", "null"}
  }

  /** Where the business unit comes from. */
  datatype UnitSource = FromColumn(col: string) | NoSource

  /** The unit a revenue row is assigned to. */
  function UnitOf(row: Tables.Row, source: UnitSource): (u: string)
    ensures !NoUnit(u)
    ensures source.FromColumn? && !NoUnit(StrippedText(Tables.Get(row, source.col))) ==>
      u == StrippedText(Tables.Get(row, source.col))
    ensures source.NoSource? || NoUnit(StrippedText(Tables.Get(row, source.col))) ==> u == UnassignedUnit
  {
    var unit := if source.FromColumn? then StrippedText(Tables.Get(row, source.col)) else UnassignedUnit;
    if NoUnit(unit) then UnassignedUnit else unit
  }

  /** A cell of a cleaned revenue row: the unit column holds the unit, the
      renamed revenue column the revenue read as a number, and every other
      column its value. */
  function RevenueCell(row: Tables.Row, revenueCol: string, source: UnitSource, c: string): Tables.Cell {
    if c == UnitName then Tables.Str(UnitOf(row, source))
    else if c == RevenueName then Tables.Num(Tables.NumOrZero(Tables.Get(row, revenueCol)))
    else Tables.Get(row, c)
  }

  /** One revenue row after the revenue column is renamed and read, and
      the unit is filled in.  (A sheet whose renaming would clash with
      another "Revenue" column fails before any row is cleaned.) */
  function CleanRevenueRow(row: Tables.Row, revenueCol: string, source: UnitSource): (r: Tables.Row)
    ensures r.Keys == (row.Keys - {revenueCol}) + {RevenueName, UnitName}
    ensures r[RevenueName] == Tables.Num(Tables.NumOrZero(Tables.Get(row, revenueCol)))
    ensures r[UnitName] == Tables.Str(UnitOf(row, source))
    ensures forall c :: c in row && c != revenueCol && c != RevenueName && c != UnitName ==> r[c] == row[c]
  {
    map c | c in (row.Keys - {revenueCol}) + {RevenueName, UnitName} :: RevenueCell(row, revenueCol, source, c)
  }

  function CleanRevenueRows(rows: seq<Tables.Row>, revenueCol: string, source: UnitSource): (r: seq<Tables.Row>)
    ensures |r| == |rows|
    ensures forall i :: 0 <= i < |rows| ==> r[i] == CleanRevenueRow(rows[i], revenueCol, source) && Assigned(r[i])
  {
    seq(|rows|, i requires 0 <= i < |rows| => CleanRevenueRow(rows[i], revenueCol, source))
  }

  function RevenueOf(row: Tables.Row): real {
    if RevenueName in row && row[RevenueName].Num? then row[RevenueName].x else 0.0
  }

  /** The rows with a non-zero revenue, in order. */
  function NonZero(rows: seq<Tables.Row>): (r: seq<Tables.Row>)
    ensures |r| <= |rows|
    ensures forall x :: x in r <==> x in rows && RevenueOf(x) != 0.0
  {
    if rows == [] then []
    else (if RevenueOf(rows[0]) != 0.0 then [rows[0]] else []) + NonZero(rows[1..])
  }

  function RevenueSum(rows: seq<Tables.Row>): real {
    if rows == [] then 0.0 else RevenueOf(rows[0]) + RevenueSum(rows[1..])
  }

  /** Dropping the zero rows does not change the total. */
  lemma {:induction false} NonZeroSum(rows: seq<Tables.Row>)
    ensures RevenueSum(NonZero(rows)) == RevenueSum(rows)
    ensures |rows| - |NonZero(rows)| == ZeroCount(rows)
  {
    if rows != [] {
      NonZeroSum(rows[1..]);
      if RevenueOf(rows[0]) != 0.0 {
        assert ([rows[0]] + NonZero(rows[1..]))[1..] == NonZero(rows[1..]);
      } else {
        assert [] + NonZero(rows[1..]) == NonZero(rows[1..]);
      }
    }
  }

  function ZeroCount(rows: seq<Tables.Row>): nat {
    if rows == [] then 0 else (if RevenueOf(rows[0]) == 0.0 then 1 else 0) + ZeroCount(rows[1..])
  }

  /** The sum of the cleaned revenue column is the sum of the original
      revenue column read as numbers. */
  lemma {:induction false} CleanedRevenueSum(rows: seq<Tables.Row>, revenueCol: string, source: UnitSource)
    ensures RevenueSum(CleanRevenueRows(rows, revenueCol, source)) == ColumnSum(rows, revenueCol)
  {
    if rows != [] {
      CleanedRevenueSum(rows[1..], revenueCol, source);
      assert CleanRevenueRows(rows, revenueCol, source)[1..] == CleanRevenueRows(rows[1..], revenueCol, source);
    }
  }

  /** `pd.to_numeric(column, errors='coerce').fillna(0).sum()`, front to back. */
  function ColumnSum(rows: seq<Tables.Row>, col: string): real {
    if rows == [] then 0.0 else Tables.NumOrZero(Tables.Get(rows[0], col)) + ColumnSum(rows[1..], col)
  }

  predicate AnyNegative(rows: seq<Tables.Row>) {
    exists i :: 0 <= i < |rows| && RevenueOf(rows[i]) < 0.0
  }

  /** A cleaned revenue row carries a unit that names one. */
  predicate Assigned(row: Tables.Row) {
    UnitName in row && row[UnitName].Str? && !NoUnit(row[UnitName].s)
  }

  /** The cleaning of a sheet whose revenue column is `revenueCol` and
      whose units come from `source`: the zero rows are dropped, and the
      total is kept. */
  function CleanRevenue(f: Tables.Frame, revenueCol: string, source: UnitSource): (v: Validation)
    ensures forall x :: x in v.frame.rows ==> RevenueOf(x) != 0.0 && Assigned(x)
    ensures |v.frame.rows| == |f.rows| - ZeroCount(CleanRevenueRows(f.rows, revenueCol, source))
    ensures RevenueSum(v.frame.rows) == ColumnSum(f.rows, revenueCol)
    ensures v.valid <==> ColumnSum(f.rows, revenueCol) != 0.0
    ensures !v.valid ==> |v.messages| > 0 && v.messages[0] == "Total revenue is zero"
  {
    var cleaned := CleanRevenueRows(f.rows, revenueCol, source);
    var negative := if AnyNegative(cleaned) then ["Negative revenue values found"] else [];
    var noUnit := if source.NoSource? then ["No business unit column found, all revenue assigned to 'Unassigned'"] else [];
    var zeros := ZeroCount(cleaned);
    var kept := NonZero(cleaned);
    NonZeroSum(cleaned);
    CleanedRevenueSum(f.rows, revenueCol, source);
    assert forall x :: x in cleaned ==> Assigned(x);
    var removed := if zeros > 0 then [Text.NatToString(zeros) + " rows with zero revenue removed"] else [];
    var errors := if RevenueSum(kept) == 0.0 then ["Total revenue is zero"] else [];
    var warnings := negative + noUnit + removed;
    var columns := Seqs.Dedup(Rename(f.columns, revenueCol) + [UnitName]);
    Validation(errors == [], errors + warnings, Tables.Frame(columns, kept))
  }

  /** `validate_revenue_data`.  The revenue column is the first whose name
      holds "revenue" or "amount"; the unit column the first (of the
      original names) holding "unit", "business" or "department", else a
      Job or Project column, else none.  Two layouts fail: when a column
      named "Revenue" is not the revenue column, the renaming gives two
      "Revenue" columns and reading them as one column of numbers raises;
      when the unit column is the revenue column itself it no longer
      exists after the renaming, and the lookup fails. */
  function ValidateRevenue(f: Tables.Frame): (r: Result<Validation>)
    ensures Tables.Empty(f) ==> r == Ok(Validation(false, ["Revenue data is empty"], f))
    ensures !Tables.Empty(f) && RevenueColumnOf(f.columns).None? ==>
      r == Ok(Validation(false, ["No revenue/amount column found"], f))
    ensures r.Err? <==> !Tables.Empty(f) && RevenueColumnOf(f.columns).Some?
                        && (RevenueClash(f.columns, RevenueColumnOf(f.columns).value)
                            || UnitColumnOf(f.columns) == RevenueColumnOf(f.columns))
    ensures r.Err? && RevenueClash(f.columns, RevenueColumnOf(f.columns).value) ==> r.error == NotOneColumn
    ensures r.Ok? && !Tables.Empty(f) && RevenueColumnOf(f.columns).Some? ==>
      r.value == CleanRevenue(f, RevenueColumnOf(f.columns).value, UnitSourceOf(f.columns))
  {
    if Tables.Empty(f) then Ok(Validation(false, ["Revenue data is empty"], f))
    else match RevenueColumnOf(f.columns)
      case None => Ok(Validation(false, ["No revenue/amount column found"], f))
      case Some(revenueCol) =>
        if RevenueClash(f.columns, revenueCol) then Err(NotOneColumn)
        else if UnitColumnOf(f.columns) == Some(revenueCol) then Err("KeyError: " + revenueCol)
        else Ok(CleanRevenue(f, revenueCol, UnitSourceOf(f.columns)))
  }

  /** Renaming `revenueCol` to "Revenue" would leave two columns of that
      name. */
  predicate RevenueClash(columns: seq<string>, revenueCol: string) {
    revenueCol != RevenueName && RevenueName in columns
  }

  /** What `pd.to_numeric` raises when handed two columns at once. */
  const NotOneColumn := "TypeError: arg must be a list, tuple, 1-d array, or Series"

  /** An "Amount" column before a "Revenue" column is picked as the revenue
      column, and the renaming then makes the sheet fail. */
  lemma AmountBeforeRevenue(row: Tables.Row)
    ensures ValidateRevenue(Tables.Frame(["Amount", "Revenue"], [row])) == Err(NotOneColumn)
  {
    var columns := ["Amount", "Revenue"];
    assert Text.Lower(columns[0]) == "amount";
    assert Text.Contains(Text.Lower(columns[0]), "amount");
    assert RevenueColumnOf(columns) == Some("Amount");
  }

  /** The revenue column: the first whose lower-cased name holds
      "revenue" or "amount". */
  function RevenueColumnOf(columns: seq<string>): (r: Option<string>)
    ensures r.Some? ==> r.value in columns
  {
    FirstColumnWith(columns, ["revenue", "amount"])
  }

  /** The unit column: the first whose lower-cased name holds "unit",
      "business" or "department". */
  function UnitColumnOf(columns: seq<string>): (r: Option<string>)
    ensures r.Some? ==> r.value in columns
  {
    FirstColumnWith(columns, ["unit", "business", "department"])
  }

  /** Where the unit comes from, judged on the original column names. */
  function UnitSourceOf(columns: seq<string>): (s: UnitSource)
    ensures UnitColumnOf(columns).Some? ==> s == FromColumn(UnitColumnOf(columns).value)
    ensures UnitColumnOf(columns).None? ==>
      s == (if "Job" in columns then FromColumn("Job") else if "Project" in columns then FromColumn("Project") else NoSource)
  {
    match UnitColumnOf(columns)
    case Some(c) => FromColumn(c)
    case None => if "Job" in columns then FromColumn("Job") else if "Project" in columns then FromColumn("Project") else NoSource
  }

  /** The column list with one name renamed to `Revenue`. */
  function Rename(columns: seq<string>, from: string): (r: seq<string>)
    ensures |r| == |columns|
    ensures forall i :: 0 <= i < |columns| ==> r[i] == if columns[i] == from then RevenueName else columns[i]
  {
    seq(|columns|, i requires 0 <= i < |columns| => if columns[i] == from then RevenueName else columns[i])
  }

  // ---- rates and splits ------------------------------------------------------------

  /** The units whose rate lies outside [0, 100], in order, with the
      message for each. */
  function RateErrors(units: seq<string>, rates: map<string, real>): (errors: seq<string>)
    requires forall u :: u in units ==> u in rates
    ensures |errors| <= |units|
    ensures errors == [] <==> forall u :: u in units ==> 0.0 <= rates[u] <= 100.0
  {
    if units == [] then []
    else
      var u := units[0];
      assert forall x :: x in units ==> x == u || x in units[1..];
      (if rates[u] < 0.0 then ["Negative commission rate for " + u]
       else if rates[u] > 100.0 then ["Commission rate over 100% for " + u]
       else [])
      + RateErrors(units[1..], rates)
  }

  /** `validate_commission_rates`: no rates at all is an error; otherwise
      the rates are valid exactly when each lies in [0, 100]. */
  function ValidateCommissionRates(rates: Dicts.Dict<real>): (r: (bool, seq<string>))
    requires rates.Valid()
    ensures rates.entries == map[] ==> r == (false, ["No commission rates configured"])
    ensures rates.entries != map[] ==> (r.0 <==> forall u :: u in rates.entries ==> 0.0 <= rates.entries[u] <= 100.0)
    ensures r.0 <==> r.1 == []
  {
    if rates.entries == map[] then (false, ["No commission rates configured"])
    else
      var errors := RateErrors(rates.order, rates.entries);
      (errors == [], errors)
  }

  /** An employee's hourly-rate record, either field possibly absent. */
  datatype EmployeeRate = EmployeeRate(rate: Option<real>, name: Option<string>)

  function HourlyMessages(ids: seq<string>, employees: map<string, EmployeeRate>, errors: bool): (m: seq<string>)
    requires forall id :: id in ids ==> id in employees
    ensures errors ==> (m == [] <==> forall id :: id in ids ==> employees[id].rate.GetOr(0.0) > 0.0)
  {
    if ids == [] then []
    else
      var e := employees[ids[0]];
      var rate := e.rate.GetOr(0.0);
      var name := e.name.GetOr("Unknown");
      assert forall x :: x in ids ==> x == ids[0] || x in ids[1..];
      (if errors then (if rate <= 0.0 then ["Zero or negative hourly rate for " + name] else [])
       else (if 0.0 < rate < 15.0 then ["Low hourly rate for " + name]
             else if rate > 200.0 then ["Very high hourly rate for " + name] else []))
      + HourlyMessages(ids[1..], employees, errors)
  }

  /** `validate_hourly_rates`: a missing rate counts as 0 (the warnings
      leave out the rate's digits); rates at or
      below 0 are errors, rates below 15 or above 200 only warn. */
  function ValidateHourlyRates(employees: Dicts.Dict<EmployeeRate>): (r: (bool, seq<string>))
    requires employees.Valid()
    ensures employees.entries == map[] ==> r == (false, ["No employees configured"])
    ensures employees.entries != map[] ==>
      (r.0 <==> forall id :: id in employees.entries ==> employees.entries[id].rate.GetOr(0.0) > 0.0)
  {
    if employees.entries == map[] then (false, ["No employees configured"])
    else
      var errors := HourlyMessages(employees.order, employees.entries, true);
      (errors == [], errors + HourlyMessages(employees.order, employees.entries, false))
  }

  /** The verdicts of the split check. */
  datatype SplitVerdict = SplitValid | NoSplits | BadTotal(total: real) | NegativeShare(employee: string) | OverFull(employee: string)

  function SumOver(keys: seq<string>, m: map<string, real>): real
    requires forall k :: k in keys ==> k in m
  {
    if keys == [] then 0.0 else m[keys[0]] + SumOver(keys[1..], m)
  }

  /** The first share outside [0, 100], if any. */
  function FirstBadShare(keys: seq<string>, m: map<string, real>): (v: SplitVerdict)
    requires forall k :: k in keys ==> k in m
    ensures v.SplitValid? <==> forall k :: k in keys ==> 0.0 <= m[k] <= 100.0
    ensures v.SplitValid? || v.NegativeShare? || v.OverFull?
    ensures v.NegativeShare? ==> v.employee in keys && m[v.employee] < 0.0
    ensures v.OverFull? ==> v.employee in keys && m[v.employee] > 100.0
  {
    if keys == [] then SplitValid
    else
      assert forall x :: x in keys ==> x == keys[0] || x in keys[1..];
      if m[keys[0]] < 0.0 then NegativeShare(keys[0])
      else if m[keys[0]] > 100.0 then OverFull(keys[0])
      else FirstBadShare(keys[1..], m)
  }

  /** `validate_commission_split`: the shares must sum to within 0.01 of
      100, and then each must lie in [0, 100]. */
  function ValidateSplit(splits: Dicts.Dict<real>): (v: SplitVerdict)
    requires splits.Valid()
    ensures splits.entries == map[] ==> v == NoSplits
    ensures v.SplitValid? <==> (splits.entries != map[]
                               && Decimals.Abs(SumOver(splits.order, splits.entries) - 100.0) <= 0.01
                               && forall k :: k in splits.entries ==> 0.0 <= splits.entries[k] <= 100.0)
    ensures v.BadTotal? ==> v.total == SumOver(splits.order, splits.entries)
  {
    if splits.entries == map[] then NoSplits
    else
      var total := SumOver(splits.order, splits.entries);
      if Decimals.Abs(total - 100.0) > 0.01 then BadTotal(total)
      else FirstBadShare(splits.order, splits.entries)
  }

  /** The message of a verdict; the total's digits are not spelled out
      here (decimal formatting is not part of this model). */
  function SplitMessage(v: SplitVerdict): string {
    match v
    case SplitValid => "Valid"
    case NoSplits => "No splits defined"
    case BadTotal(_) => "Splits must sum to 100%, current total: "
    case NegativeShare(e) => "Negative split percentage for " + e
    case OverFull(e) => "Split percentage over 100% for " + e
  }

  // ---- dates and file names --------------------------------------------------------

  const SecondsPerDay := 86400

  /** `validate_date_range` on timestamps, at time `now`: the start must
      come first, the range may span at most 365 whole days, and the end
      may not lie in the future. */
  function ValidateDateRange(start: int, end: int, now: int): (r: (bool, string))
    ensures r.0 <==> start < end && end - start < 366 * SecondsPerDay && end <= now
    ensures start >= end ==> r.1 == "Start date must be before end date"
    ensures r.0 ==> r.1 == "Valid"
  {
    if start >= end then (false, "Start date must be before end date")
    else if (end - start) / SecondsPerDay > 365 then (false, "Date range exceeds 1 year")
    else if end > now then (false, "End date cannot be in the future")
    else (true, "Valid")
  }

  /** The characters a file name may not hold. */
  predicate Unsafe(c: char) {
    c in {'<', '>', ':', '"', '/', '\\', '|', '?', '*'}
  }

  function ReplaceUnsafe(s: string): (r: string)
    ensures |r| == |s|
    ensures forall i :: 0 <= i < |s| ==> r[i] == if Unsafe(s[i]) then '_' else s[i]
  {
    seq(|s|, i requires 0 <= i < |s| => if Unsafe(s[i]) then '_' else s[i])
  }

  /** The position of the last '.', if any. */
  function LastDot(s: string): (r: Option<nat>)
    ensures r.Some? ==> r.value < |s| && s[r.value] == '.' && forall j :: r.value < j < |s| ==> s[j] != '.'
    ensures r.None? ==> forall j :: 0 <= j < |s| ==> s[j] != '.'
  {
    if s == [] then None
    else if s[|s| - 1] == '.' then Some(|s| - 1)
    else LastDot(s[..|s| - 1])
  }

  /** Python's `name[:k]`: a negative bound drops that many from the end. */
  function Head(s: string, k: int): (r: string)
    ensures |r| == if k >= 0 then (if k <= |s| then k else |s|) else (if -k <= |s| then |s| + k else 0)
    ensures r == s[..|r|]
  {
    if k >= 0 then (if k <= |s| then s[..k] else s)
    else if -k <= |s| then s[..|s| + k] else ""
  }

  /** `sanitize_filename` as written: an over-long name is cut so as to
      keep its extension, cutting the part before the last dot to
      `200 - len(ext) - 1` characters, a bound that is negative for an
      extension longer than 199 characters. */
  function SanitizeFilenameAsWritten(filename: string): (r: string)
    ensures forall i :: 0 <= i < |r| ==> !Unsafe(r[i])
    ensures |filename| <= 200 ==> r == ReplaceUnsafe(filename)
  {
    var s := ReplaceUnsafe(filename);
    if |s| <= 200 then s
    else match LastDot(s)
      case None => s[..200]
      case Some(d) =>
        var name := s[..d];
        var ext := s[d + 1..];
        if ext != "" then Head(name, 200 - |ext| - 1) + "." + ext else Head(name, 200)
  }

  /** A name whose extension is 200 characters long comes out at 201. */
  lemma LongExtensionAsWritten()
    ensures var filename := "a." + seq(200, _ => 'x');
      |SanitizeFilenameAsWritten(filename)| == 201
  {
    var filename := "a." + seq(200, _ => 'x');
    var s := ReplaceUnsafe(filename);
    assert s == filename;
    assert LastDot(s) == Some(1) by {
      assert s[1] == '.';
      assert forall j :: 1 < j < |s| ==> s[j] == 'x';
      LastDotAt(s, 1);
    }
  }

  lemma {:induction false} LastDotAt(s: string, d: nat)
    requires d < |s| && s[d] == '.' && forall j :: d < j < |s| ==> s[j] != '.'
    ensures LastDot(s) == Some(d)
    decreases |s|
  {
    if d < |s| - 1 {
      LastDotAt(s[..|s| - 1], d);
    }
  }

  /** `sanitize_filename` as intended: the result never exceeds 200
      characters, keeping the extension when it fits and cutting the
      whole name otherwise. */
  function SanitizeFilename(filename: string): (r: string)
    ensures forall i :: 0 <= i < |r| ==> !Unsafe(r[i])
    ensures |r| <= 200
    ensures |filename| <= 200 ==> r == ReplaceUnsafe(filename)
    ensures |filename| > 200 && LastDot(filename).None? ==> r == ReplaceUnsafe(filename)[..200]
    ensures |filename| > 200 && LastDot(filename).Some? ==>
      var d := LastDot(filename).value;
      1 <= |filename| - d - 1 <= 198 ==> Text.EndsWith(r, "." + ReplaceUnsafe(filename)[d + 1..])
  {
    var s := ReplaceUnsafe(filename);
    assert forall j :: 0 <= j < |s| ==> (s[j] == '.' <==> filename[j] == '.');
    LastDotSame(filename, s);
    if |s| <= 200 then s
    else match LastDot(s)
      case None => s[..200]
      case Some(d) =>
        var name := s[..d];
        var ext := s[d + 1..];
        if ext != "" && |ext| <= 198 then Head(name, 200 - |ext| - 1) + "." + ext
        else if ext != "" then s[..200]
        else Head(name, 200)
  }

  lemma {:induction false} LastDotSame(a: string, b: string)
    requires |a| == |b| && forall j :: 0 <= j < |a| ==> (a[j] == '.' <==> b[j] == '.')
    ensures LastDot(a) == LastDot(b)
    decreases |a|
  {
    if a != [] {
      LastDotSame(a[..|a| - 1], b[..|b| - 1]);
    }
  }

  /** A name that already fits passes through the sanitiser once and is
      then left alone. */
  lemma SanitizeIdempotent(filename: string)
    ensures SanitizeFilename(SanitizeFilename(filename)) == SanitizeFilename(filename)
  {
    var r := SanitizeFilename(filename);
    assert ReplaceUnsafe(r) == r;
  }
}
