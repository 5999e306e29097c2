/** The reports screen's pay engine: the date filter, the per-employee
    commission totals by business unit, and the pay details that reconcile
    those commissions with hourly pay.

    It differs from the service's engine in three ways the model keeps
    visible: it takes the screens' revenue column, it pays every unit of the
    settings whether enabled or not and at the unit's own rates (no
    per-employee overrides), and, as written, it does not replace an
    unreadable revenue value by 0, so one blank or non-numeric revenue cell
    on a matched job turns the whole commission into NaN.  The corrected
    totals read such a value as 0, as the service does; the as-written
    totals are kept with NaN as `None`. */
module ReportsEngine {
  import opened Wrappers
  import Tables
  import Dates
  import Decimals
  import Dicts
  import TechLists
  import CommissionSettings
  import EmployeeHours
  import Pay
  import UiUtils
  import ApiEngine

  // ---- date filter ---------------------------------------------------------

  /** The rows whose date falls in `[start, end]`; a sheet without a Date
      column is returned whole, and a row whose date cannot be read is
      dropped. */
  function FilterByDate(f: Tables.Frame, start: Dates.Date, end: Dates.Date): (g: Tables.Frame)
    ensures g.columns == f.columns
    ensures "Date" !in f.columns ==> g == f
    ensures "Date" in f.columns ==>
      forall row :: row in g.rows <==> row in f.rows && Tables.InDateRange(row, start, end)
  {
    if "Date" !in f.columns then f
    else Tables.Frame(f.columns, Tables.RowsInRange(f.rows, start, end))
  }

  /** When every date can be read, the screen's filter and the service's
      agree; when one cannot, the service keeps every row while the screen
      drops the unreadable one. */
  lemma FiltersAgree(f: Tables.Frame, start: Dates.Date, end: Dates.Date)
    ensures Tables.DatesReadable(f.rows) ==> FilterByDate(f, start, end) == ApiEngine.DateFiltered(f, start, end)
    ensures "Date" in f.columns && !Tables.DatesReadable(f.rows) ==> ApiEngine.DateFiltered(f, start, end) == f
  {
  }

  // ---- commission totals ---------------------------------------------------

  datatype Commissions<T> = Commissions(leadGen: T, sales: T, workDone: T)

  function NoCommissions(): Commissions<real> {
    Commissions(0.0, 0.0, 0.0)
  }

  function Total(c: Commissions<real>): real {
    c.leadGen + c.sales + c.workDone
  }

  /** `x + y` where `None` is NaN: NaN absorbs everything. */
  function AddNaN(x: Option<real>, y: Option<real>): (r: Option<real>)
    ensures r.Some? <==> x.Some? && y.Some?
    ensures r.Some? ==> r.value == x.value + y.value
  {
    if x.Some? && y.Some? then Some(x.value + y.value) else None
  }

  /** The revenue value of a row can be read. */
  predicate Readable(row: Tables.Row, revCol: string) {
    Tables.ToNumeric(Tables.Get(row, revCol)).Some?
  }

  /** Every row's revenue value can be read. */
  predicate AllReadable(rows: seq<Tables.Row>, revCol: string) {
    forall row :: row in rows ==> Readable(row, revCol)
  }

  /** Every row is readable exactly when all but the last are and the last is. */
  lemma AllReadableLast(rows: seq<Tables.Row>, revCol: string)
    requires |rows| > 0
    ensures AllReadable(rows, revCol)
            <==> AllReadable(rows[..|rows| - 1], revCol) && Readable(rows[|rows| - 1], revCol)
  {
    assert rows == rows[..|rows| - 1] + [rows[|rows| - 1]];
  }

  /** Σ revenue × rate / 100 over the rows, as written: an unreadable revenue
      makes the sum NaN. */
  function KindSumAsWritten(rows: seq<Tables.Row>, revCol: string, rate: real): (r: Option<real>)
    ensures r.Some? <==> AllReadable(rows, revCol)
    ensures r.Some? ==> r.value == Decimals.Percent(Tables.ColumnTotal(rows, revCol), rate)
    decreases |rows|
  {
    if |rows| == 0 then Some(0.0)
    else
      var n := |rows| - 1;
      var rest := KindSumAsWritten(rows[..n], revCol, rate);
      var v := Tables.ToNumeric(Tables.Get(rows[n], revCol));
      AllReadableLast(rows, revCol);
      if v.None? then
        None
      else if rest.None? then
        None
      else
        Tables.PercentOfTotalStep(rows, revCol, rate, rest.value);
        Some(rest.value + Decimals.Percent(v.value, rate))
  }

  /** Σ revenue × rate / 100 over the rows, an unreadable revenue counting
      as 0, accumulated row by row. */
  function KindSum(rows: seq<Tables.Row>, revCol: string, rate: real): (r: real)
    ensures r == Decimals.Percent(Tables.ColumnTotal(rows, revCol), rate)
    decreases |rows|
  {
    if |rows| == 0 then 0.0
    else
      var n := |rows| - 1;
      var v := Tables.NumOrZero(Tables.Get(rows[n], revCol));
      var rest := KindSum(rows[..n], revCol, rate);
      Tables.PercentOfTotalStep(rows, revCol, rate, rest);
      rest + Decimals.Percent(v, rate)
  }

  const LeadColumn := "Lead Generated By"
  const SoldColumn := "Sold By"
  const TechColumn := "Assigned Technicians"

  /** The rows of each kind for `employee` among a unit's rows. */
  function LeadRows(f: Tables.Frame, rows: seq<Tables.Row>, employee: string): seq<Tables.Row> {
    if LeadColumn in f.columns then Tables.WhereEquals(rows, LeadColumn, employee) else []
  }

  function SoldRows(f: Tables.Frame, rows: seq<Tables.Row>, employee: string): seq<Tables.Row> {
    if SoldColumn in f.columns then Tables.WhereEquals(rows, SoldColumn, employee) else []
  }

  function WorkRows(f: Tables.Frame, rows: seq<Tables.Row>, employee: string): seq<Tables.Row> {
    if TechColumn in f.columns then TechLists.ListingRows(rows, employee) else []
  }

  /** One unit's commissions for `employee`, corrected: lead generation and
      sales on the rows that name the employee, work done on the rows that
      list the employee as a technician, each at the unit's full rate. */
  function UnitCommissions(f: Tables.Frame, employee: string, unit: string, cfg: CommissionSettings.UnitConfig,
                           revCol: string): (c: Commissions<real>)
    ensures c.leadGen == Decimals.Percent(Tables.ColumnTotal(LeadRows(f, ApiEngine.UnitRows(f, unit), employee), revCol), cfg.leadGenRate)
    ensures c.sales == Decimals.Percent(Tables.ColumnTotal(SoldRows(f, ApiEngine.UnitRows(f, unit), employee), revCol), cfg.soldByRate)
    ensures c.workDone == Decimals.Percent(Tables.ColumnTotal(WorkRows(f, ApiEngine.UnitRows(f, unit), employee), revCol), cfg.workDoneRate)
  {
    var rows := ApiEngine.UnitRows(f, unit);
    Commissions(KindSum(LeadRows(f, rows, employee), revCol, cfg.leadGenRate),
                KindSum(SoldRows(f, rows, employee), revCol, cfg.soldByRate),
                KindSum(WorkRows(f, rows, employee), revCol, cfg.workDoneRate))
  }

  /** The same, as written. */
  function UnitCommissionsAsWritten(f: Tables.Frame, employee: string, unit: string, cfg: CommissionSettings.UnitConfig,
                                    revCol: string): (c: Commissions<Option<real>>)
    ensures var rows := ApiEngine.UnitRows(f, unit);
      (c.leadGen.Some? <==> AllReadable(LeadRows(f, rows, employee), revCol))
      && (c.sales.Some? <==> AllReadable(SoldRows(f, rows, employee), revCol))
      && (c.workDone.Some? <==> AllReadable(WorkRows(f, rows, employee), revCol))
  {
    var rows := ApiEngine.UnitRows(f, unit);
    Commissions(KindSumAsWritten(LeadRows(f, rows, employee), revCol, cfg.leadGenRate),
                KindSumAsWritten(SoldRows(f, rows, employee), revCol, cfg.soldByRate),
                KindSumAsWritten(WorkRows(f, rows, employee), revCol, cfg.workDoneRate))
  }

  function Plus(a: Commissions<real>, b: Commissions<real>): (c: Commissions<real>)
    ensures Total(c) == Total(a) + Total(b)
  {
    Commissions(a.leadGen + b.leadGen, a.sales + b.sales, a.workDone + b.workDone)
  }

  function PlusNaN(a: Commissions<Option<real>>, b: Commissions<Option<real>>): Commissions<Option<real>> {
    Commissions(AddNaN(a.leadGen, b.leadGen), AddNaN(a.sales, b.sales), AddNaN(a.workDone, b.workDone))
  }

  function Lift(c: Commissions<real>): Commissions<Option<real>> {
    Commissions(Some(c.leadGen), Some(c.sales), Some(c.workDone))
  }

  /** The commissions of the listed units, summed in the settings' order. */
  function UnitsCommissions(f: Tables.Frame, employee: string, units: seq<string>,
                            settings: ApiEngine.Settings, revCol: string): (c: Commissions<real>)
    requires forall i :: 0 <= i < |units| ==> units[i] in settings.entries
    decreases |units|
  {
    if |units| == 0 then NoCommissions()
    else
      var u := units[|units| - 1];
      Plus(UnitsCommissions(f, employee, units[..|units| - 1], settings, revCol),
           UnitCommissions(f, employee, u, settings.entries[u], revCol))
  }

  function UnitsCommissionsAsWritten(f: Tables.Frame, employee: string, units: seq<string>,
                                     settings: ApiEngine.Settings, revCol: string): (c: Commissions<Option<real>>)
    requires forall i :: 0 <= i < |units| ==> units[i] in settings.entries
    decreases |units|
  {
    if |units| == 0 then Lift(NoCommissions())
    else
      var u := units[|units| - 1];
      PlusNaN(UnitsCommissionsAsWritten(f, employee, units[..|units| - 1], settings, revCol),
              UnitCommissionsAsWritten(f, employee, u, settings.entries[u], revCol))
  }

  /** An employee's commissions on a revenue sheet, corrected: nothing
      without a revenue column, otherwise the sum over every unit of the
      settings. */
  function EmployeeCommissions(employee: string, f: Tables.Frame, settings: ApiEngine.Settings): (c: Commissions<real>)
    requires settings.Valid()
    ensures UiUtils.RevenueColumn(f).None? ==> c == NoCommissions()
    ensures UiUtils.RevenueColumn(f).Some?
      ==> c == UnitsCommissions(f, employee, settings.order, settings, UiUtils.RevenueColumn(f).value)
  {
    match UiUtils.RevenueColumn(f)
    case None => NoCommissions()
    case Some(col) => UnitsCommissions(f, employee, settings.order, settings, col)
  }

  /** The same, as written. */
  function EmployeeCommissionsAsWritten(employee: string, f: Tables.Frame, settings: ApiEngine.Settings): (c: Commissions<Option<real>>)
    requires settings.Valid()
    ensures UiUtils.RevenueColumn(f).None? ==> c == Lift(NoCommissions())
  {
    match UiUtils.RevenueColumn(f)
    case None => Lift(NoCommissions())
    case Some(col) => UnitsCommissionsAsWritten(f, employee, settings.order, settings, col)
  }

  /** Rows of a unit's kind are rows of the sheet. */
  lemma KindRowsFromSheet(f: Tables.Frame, employee: string, unit: string)
    ensures var rows := ApiEngine.UnitRows(f, unit);
      forall row :: (row in LeadRows(f, rows, employee) || row in SoldRows(f, rows, employee)
                     || row in WorkRows(f, rows, employee)) ==> row in f.rows
  {
  }

  /** When every revenue value of the sheet can be read, the engine as
      written and the corrected one give the same commissions. */
  lemma {:induction false} AsWrittenAgreesWhenReadable(f: Tables.Frame, employee: string, units: seq<string>,
                                                       settings: ApiEngine.Settings, revCol: string)
    requires forall i :: 0 <= i < |units| ==> units[i] in settings.entries
    requires forall row :: row in f.rows ==> Readable(row, revCol)
    ensures UnitsCommissionsAsWritten(f, employee, units, settings, revCol)
            == Lift(UnitsCommissions(f, employee, units, settings, revCol))
    decreases |units|
  {
    if |units| > 0 {
      var u := units[|units| - 1];
      var init := units[..|units| - 1];
      assert forall i :: 0 <= i < |init| ==> init[i] == units[i];
      AsWrittenAgreesWhenReadable(f, employee, init, settings, revCol);
      UnitAgreesWhenReadable(f, employee, u, settings.entries[u], revCol);
      var a := UnitsCommissions(f, employee, init, settings, revCol);
      var b := UnitCommissions(f, employee, u, settings.entries[u], revCol);
      assert UnitsCommissions(f, employee, units, settings, revCol) == Plus(a, b);
      assert UnitsCommissionsAsWritten(f, employee, units, settings, revCol) == PlusNaN(Lift(a), Lift(b));
      LiftPlus(a, b);
    } else {
      assert UnitsCommissions(f, employee, units, settings, revCol) == NoCommissions();
    }
  }

  /** Adding readable totals never produces NaN. */
  lemma LiftPlus(a: Commissions<real>, b: Commissions<real>)
    ensures PlusNaN(Lift(a), Lift(b)) == Lift(Plus(a, b))
  {
  }

  lemma UnitAgreesWhenReadable(f: Tables.Frame, employee: string, unit: string, cfg: CommissionSettings.UnitConfig,
                               revCol: string)
    requires forall row :: row in f.rows ==> Readable(row, revCol)
    ensures UnitCommissionsAsWritten(f, employee, unit, cfg, revCol) == Lift(UnitCommissions(f, employee, unit, cfg, revCol))
  {
    KindRowsFromSheet(f, employee, unit);
    var rows := ApiEngine.UnitRows(f, unit);
  }

  /** One blank revenue cell on a job the employee generated turns the
      lead-generation commission into NaN as written; corrected, the blank
      counts as 0 and the other job still pays 10% of 100. */
  lemma BlankRevenuePoisonsTotal()
    ensures EmployeeCommissionsAsWritten("Ann", PoisonSheet(), PoisonSettings()).leadGen.None?
    ensures EmployeeCommissions("Ann", PoisonSheet(), PoisonSettings()).leadGen == 10.0
  {
    PoisonRevenueColumn();
    PoisonLeadRows();
    PoisonedAsWritten();
    PoisonCorrected();
  }

  lemma PoisonedAsWritten()
    requires UiUtils.RevenueColumn(PoisonSheet()) == Some("Revenue")
    requires var f := PoisonSheet(); LeadRows(f, f.rows, "Ann") == f.rows
    ensures EmployeeCommissionsAsWritten("Ann", PoisonSheet(), PoisonSettings()).leadGen.None?
  {
    var f := PoisonSheet();
    var cfg := PoisonSettings().entries["HVAC"];
    assert !Readable(f.rows[1], "Revenue");
    assert ApiEngine.UnitRows(f, "HVAC") == f.rows;
    var w := UnitCommissionsAsWritten(f, "Ann", "HVAC", cfg, "Revenue");
    assert w.leadGen.None?;
    assert UnitsCommissionsAsWritten(f, "Ann", ["HVAC"], PoisonSettings(), "Revenue") == PlusNaN(Lift(NoCommissions()), w);
  }

  lemma PoisonCorrected()
    requires UiUtils.RevenueColumn(PoisonSheet()) == Some("Revenue")
    requires var f := PoisonSheet(); LeadRows(f, f.rows, "Ann") == f.rows
    ensures EmployeeCommissions("Ann", PoisonSheet(), PoisonSettings()).leadGen == 10.0
  {
    var f := PoisonSheet();
    var cfg := PoisonSettings().entries["HVAC"];
    assert Tables.ColumnTotal(f.rows, "Revenue") == 100.0 by {
      Tables.ColumnTotalPair(f.rows[0], f.rows[1], "Revenue");
      assert f.rows == [f.rows[0], f.rows[1]];
      assert Tables.Get(f.rows[0], "Revenue") == Tables.Num(100.0);
      assert Tables.Get(f.rows[1], "Revenue") == Tables.Missing;
    }
    assert ApiEngine.UnitRows(f, "HVAC") == f.rows;
    var u := UnitCommissions(f, "Ann", "HVAC", cfg, "Revenue");
    assert u.leadGen == Decimals.Percent(100.0, 10.0);
    assert UnitsCommissions(f, "Ann", ["HVAC"], PoisonSettings(), "Revenue") == Plus(NoCommissions(), u);
  }

  lemma PoisonRevenueColumn()
    ensures UiUtils.RevenueColumn(PoisonSheet()) == Some("Revenue")
  {
    var cols := PoisonSheet().columns;
    var prefs := UiUtils.PreferredRevenueColumns;
    assert prefs[0] !in cols && prefs[1] !in cols && prefs[2] in cols;
    assert UiUtils.FirstPresent(prefs, cols) == Some(2);
  }

  lemma PoisonLeadRows()
    ensures var f := PoisonSheet(); LeadRows(f, f.rows, "Ann") == f.rows
  {
    var f := PoisonSheet();
    assert Tables.Get(f.rows[0], LeadColumn) == Tables.Str("Ann");
    assert Tables.Get(f.rows[1], LeadColumn) == Tables.Str("Ann");
    Tables.WhereEqualsAll(f.rows, LeadColumn, "Ann");
  }

  function PoisonSettings(): (s: ApiEngine.Settings)
    ensures s.Valid() && s.order == ["HVAC"]
  {
    Dicts.Dict(["HVAC"], map["HVAC" := CommissionSettings.UnitConfig(10.0, 0.0, 0.0, true)])
  }

  function PoisonSheet(): (f: Tables.Frame)
    ensures |f.rows| == 2
  {
    Tables.Frame(["Revenue", LeadColumn],
                 [map["Revenue" := Tables.Num(100.0), LeadColumn := Tables.Str("Ann")],
                  map["Revenue" := Tables.Missing, LeadColumn := Tables.Str("Ann")]])
  }

  /** For an enabled unit with positive rates and no overrides, a unit's
      commission total on the screen equals the service's detail total; a
      disabled unit pays nothing in the service but still pays on the
      screen. */
  lemma UnitAgreesWithService(f: Tables.Frame, employee: string, unit: string, cfg: CommissionSettings.UnitConfig,
                              revCol: string)
    requires cfg.leadGenRate > 0.0 && cfg.soldByRate > 0.0 && cfg.workDoneRate > 0.0
    ensures cfg.enabled ==>
      Total(UnitCommissions(f, employee, unit, cfg, revCol))
      == ApiEngine.AmountTotal(ApiEngine.UnitDetails(f, employee, unit, cfg, map[], revCol))
    ensures !cfg.enabled ==> ApiEngine.UnitDetails(f, employee, unit, cfg, map[], revCol) == []
    ensures UnitCommissions(f, employee, unit, cfg, revCol)
            == UnitCommissions(f, employee, unit, cfg.(enabled := true), revCol)
  {
    if cfg.enabled {
      if ApiEngine.UnitRows(f, unit) == [] {
        EmptyUnitAgrees(f, employee, unit, cfg, revCol);
      } else {
        BusyUnitAgrees(f, employee, unit, cfg, revCol);
      }
    }
  }

  lemma EmptyUnitAgrees(f: Tables.Frame, employee: string, unit: string, cfg: CommissionSettings.UnitConfig,
                        revCol: string)
    requires ApiEngine.UnitRows(f, unit) == []
    ensures Total(UnitCommissions(f, employee, unit, cfg, revCol)) == 0.0
  {
    assert Tables.WhereEquals([], LeadColumn, employee) == [];
    assert Tables.WhereEquals([], SoldColumn, employee) == [];
    assert TechLists.ListingRows([], employee) == [];
    assert Tables.ColumnTotal([], revCol) == 0.0;
  }

  lemma BusyUnitAgrees(f: Tables.Frame, employee: string, unit: string, cfg: CommissionSettings.UnitConfig,
                       revCol: string)
    requires cfg.enabled && ApiEngine.UnitRows(f, unit) != []
    requires cfg.leadGenRate > 0.0 && cfg.soldByRate > 0.0 && cfg.workDoneRate > 0.0
    ensures Total(UnitCommissions(f, employee, unit, cfg, revCol))
            == ApiEngine.AmountTotal(ApiEngine.UnitDetails(f, employee, unit, cfg, map[], revCol))
  {
    var rows := ApiEngine.UnitRows(f, unit);
    var lead := ApiEngine.KindDetails(f, rows, employee, unit, cfg, map[], revCol, CommissionSettings.LeadGen);
    var sales := ApiEngine.KindDetails(f, rows, employee, unit, cfg, map[], revCol, CommissionSettings.SoldBy);
    var work := ApiEngine.KindDetails(f, rows, employee, unit, cfg, map[], revCol, CommissionSettings.WorkDone);
    assert ApiEngine.UnitDetails(f, employee, unit, cfg, map[], revCol) == lead + sales + work;
    ApiEngine.AmountTotalAppend(lead, sales);
    ApiEngine.AmountTotalAppend(lead + sales, work);
    var c := UnitCommissions(f, employee, unit, cfg, revCol);
    assert ApiEngine.AmountTotal(lead) == c.leadGen by {
      KindAgrees(f, rows, employee, unit, cfg, revCol, CommissionSettings.LeadGen);
    }
    assert ApiEngine.AmountTotal(sales) == c.sales by {
      KindAgrees(f, rows, employee, unit, cfg, revCol, CommissionSettings.SoldBy);
    }
    assert ApiEngine.AmountTotal(work) == c.workDone by {
      KindAgrees(f, rows, employee, unit, cfg, revCol, CommissionSettings.WorkDone);
    }
  }

  /** The rows of one kind for `employee` among a unit's rows. */
  function KindRows(f: Tables.Frame, rows: seq<Tables.Row>, employee: string, kind: CommissionSettings.Kind): seq<Tables.Row> {
    match kind
    case LeadGen => LeadRows(f, rows, employee)
    case SoldBy => SoldRows(f, rows, employee)
    case WorkDone => WorkRows(f, rows, employee)
  }

  /** For one kind with a positive rate and no overrides, the service's
      details pay in total what the screen's sum pays. */
  lemma KindAgrees(f: Tables.Frame, rows: seq<Tables.Row>, employee: string, unit: string,
                   cfg: CommissionSettings.UnitConfig, revCol: string, kind: CommissionSettings.Kind)
    requires CommissionSettings.DefaultRate(cfg, kind) > 0.0
    ensures ApiEngine.AmountTotal(ApiEngine.KindDetails(f, rows, employee, unit, cfg, map[], revCol, kind))
            == KindSum(KindRows(f, rows, employee, kind), revCol, CommissionSettings.DefaultRate(cfg, kind))
  {
    var none: CommissionSettings.Overrides := map[];
    assert CommissionSettings.Entry(none, unit, employee).None?;
    assert Tables.ColumnTotal([], revCol) == 0.0;
  }

  // ---- pay details -----------------------------------------------------------

  const AllEmployees := "All Employees"
  const ExcludedStatus := "Excluded from Payroll"

  /** The employee sheet, revenue sheet, timesheet, commission settings and
      hour overrides the report reads. */
  datatype ReportInputs = ReportInputs(employees: Tables.Frame, revenue: Tables.Frame, timesheet: Tables.Frame,
                                       settings: ApiEngine.Settings, hourOverrides: EmployeeHours.HourOverrides)

  datatype PayDetail = PayDetail(
    name: string, hourlyRate: real, efficiencyPlan: bool, hours: EmployeeHours.Hours, totalHours: real,
    hourlyPay: real, commissions: Commissions<real>, totalCommission: real, efficiencyBonus: real,
    finalPay: real, hourlyEquivalent: real, commissionPercentage: real)

  /** The bulk filter: eligible is exactly `True` and the status is not
      the payroll exclusion. */
  predicate ListedAsEligible(row: Tables.Row) {
    Tables.IsTrue(Tables.Get(row, "Commission Eligible")) && Tables.Get(row, "Status") != Tables.Str(ExcludedStatus)
  }

  /** The text names of the rows the bulk filter keeps, in sheet order. */
  function EligibleNames(rows: seq<Tables.Row>): (names: seq<string>)
    ensures forall n :: n in names <==>
      exists row :: row in rows && ListedAsEligible(row) && Tables.Get(row, "Name") == Tables.Str(n)
    decreases |rows|
  {
    if |rows| == 0 then []
    else
      var rest := EligibleNames(rows[..|rows| - 1]);
      var last := rows[|rows| - 1];
      assert forall row :: row in rows <==> row in rows[..|rows| - 1] || row == last;
      if ListedAsEligible(last) && Tables.Get(last, "Name").Str? then rest + [Tables.Get(last, "Name").s] else rest
  }

  /** The employees to report on: the one selected, or, for all employees,
      the bulk filter's names; the bulk filter needs both of its columns. */
  function ToProcess(employees: Tables.Frame, selected: string): (r: Result<seq<string>>)
    ensures selected != AllEmployees ==> r == Ok([selected])
    ensures selected == AllEmployees ==>
      (r.Ok? <==> "Commission Eligible" in employees.columns && "Status" in employees.columns && "Name" in employees.columns)
    ensures selected == AllEmployees && r.Ok? ==> r.value == EligibleNames(employees.rows)
  {
    if selected != AllEmployees then Ok([selected])
    else if "Commission Eligible" !in employees.columns || "Status" !in employees.columns || "Name" !in employees.columns then
      Err("KeyError")
    else Ok(EligibleNames(employees.rows))
  }

  /** `bool(row.get('Commission Eligible', False))`: false without the
      column; a missing value is NaN, which Python counts as true. */
  predicate EligibleFlag(employees: Tables.Frame, row: Tables.Row) {
    "Commission Eligible" in employees.columns
    && (Tables.Get(row, "Commission Eligible").Missing? || Tables.Truthy(Tables.Get(row, "Commission Eligible")))
  }

  /** `float(row.get('Hourly Rate', 0))`: 0 without the column; a number,
      a boolean or a numeric text converts; anything else raises. */
  function HourlyRate(employees: Tables.Frame, row: Tables.Row): (r: Result<real>)
    ensures "Hourly Rate" !in employees.columns ==> r == Ok(0.0)
    ensures "Hourly Rate" in employees.columns && Tables.Get(row, "Hourly Rate").Num?
      ==> r == Ok(Tables.Get(row, "Hourly Rate").x)
    ensures "Hourly Rate" in employees.columns && (Tables.Get(row, "Hourly Rate").Day? || Tables.Get(row, "Hourly Rate").Missing?)
      ==> r.Err?
  {
    if "Hourly Rate" !in employees.columns then Ok(0.0)
    else
      match Tables.Get(row, "Hourly Rate")
      case Num(x) => Ok(x)
      case Flag(b) => Ok(if b then 1.0 else 0.0)
      case Str(s) =>
        (match Tables.ToNumeric(Tables.Str(s))
         case Some(x) => Ok(x)
         case None => Err("could not convert string to float"))
      case _ => Err("hourly rate is not a number")
  }

  /** `a / b` when `b > 0`, else 0. */
  function RatioOrZero(a: real, b: real): (r: real)
    ensures b <= 0.0 ==> r == 0.0
    ensures b > 0.0 ==> r * b == a
  {
    if b > 0.0 then a / b else 0.0
  }

  /** The arithmetic of one pay detail: total hours, the reconciliation of
      hourly pay with commission, and the two ratios, each 0 when its
      divisor is not positive. */
  predicate Reconciled(d: PayDetail) {
    d.totalHours == d.hours.regular + d.hours.overtime + d.hours.doubleTime
    && d.totalCommission == Total(d.commissions)
    && d.efficiencyBonus >= 0.0
    && (d.efficiencyPlan ==> d.finalPay >= d.hourlyPay && d.finalPay >= d.totalCommission
                             && d.efficiencyBonus == d.finalPay - d.hourlyPay)
    && (!d.efficiencyPlan ==> d.finalPay == d.hourlyPay + d.totalCommission && d.efficiencyBonus == 0.0)
    && (d.totalHours <= 0.0 ==> d.hourlyEquivalent == 0.0)
    && (d.totalHours > 0.0 ==> d.hourlyEquivalent * d.totalHours == d.finalPay)
    && (d.finalPay <= 0.0 ==> d.commissionPercentage == 0.0)
    && (d.finalPay > 0.0 ==> d.commissionPercentage * d.finalPay == d.totalCommission * 100.0)
  }

  /** A pay detail drawn from the report's inputs: its hours, hourly pay
      and commissions are the employee's, and its arithmetic is settled. */
  ghost predicate Consistent(d: PayDetail, inp: ReportInputs, filtered: Tables.Frame) {
    inp.settings.Valid()
    && d.hours == EmployeeHours.HoursWithOverrides(d.name, inp.timesheet, inp.hourOverrides)
    && d.hourlyPay == Pay.HourlyPay(d.hourlyRate, d.hours.regular, d.hours.overtime, d.hours.doubleTime)
    && d.commissions == EmployeeCommissions(d.name, filtered, inp.settings)
    && Reconciled(d)
  }

  /** Every detail of the list agrees with the inputs. */
  ghost predicate AllConsistent(ds: seq<PayDetail>, inp: ReportInputs, filtered: Tables.Frame) {
    forall i :: 0 <= i < |ds| ==> Consistent(ds[i], inp, filtered)
  }

  /** Appending a consistent detail keeps the list consistent. */
  lemma AllConsistentSnoc(ds: seq<PayDetail>, extra: seq<PayDetail>, inp: ReportInputs, filtered: Tables.Frame)
    requires AllConsistent(ds, inp, filtered) && AllConsistent(extra, inp, filtered)
    ensures AllConsistent(ds + extra, inp, filtered)
  {
    forall i | 0 <= i < |ds + extra|
      ensures Consistent((ds + extra)[i], inp, filtered)
    {
      if i < |ds| {
        assert (ds + extra)[i] == ds[i];
      } else {
        assert (ds + extra)[i] == extra[i - |ds|];
      }
    }
  }

  /** The employee's first row in the sheet, if any. */
  function FirstRow(employees: Tables.Frame, name: string): (r: Option<Tables.Row>)
    ensures r.Some? ==> r.value in employees.rows && Tables.Get(r.value, "Name") == Tables.Str(name)
    ensures r.None? ==> forall row :: row in employees.rows ==> Tables.Get(row, "Name") != Tables.Str(name)
  {
    var matches := Tables.WhereEquals(employees.rows, "Name", name);
    if |matches| == 0 then None else Some(matches[0])
  }

  /** An employee the report pays: found, not excluded, eligible. */
  predicate Paid(employees: Tables.Frame, name: string) {
    var row := FirstRow(employees, name);
    row.Some? && Tables.Get(row.value, "Status") != Tables.Str(ExcludedStatus) && EligibleFlag(employees, row.value)
  }

  /** One employee's pay details, or nothing for an employee not paid. */
  /** A pay detail settled from its parts: hourly pay at the rate,
      reconciled with the commission under the plan, and the two ratios. */
  function Settle(name: string, rate: real, plan: bool, h: EmployeeHours.Hours, c: Commissions<real>): (d: PayDetail)
    ensures Reconciled(d)
    ensures d.name == name && d.hourlyRate == rate && d.efficiencyPlan == plan && d.hours == h && d.commissions == c
    ensures d.hourlyPay == Pay.HourlyPay(rate, h.regular, h.overtime, h.doubleTime)
  {
    var totalHours := h.regular + h.overtime + h.doubleTime;
    var hourly := Pay.HourlyPay(rate, h.regular, h.overtime, h.doubleTime);
    var total := Total(c);
    var s := Pay.Reconcile(plan, hourly, total);
    PayDetail(name, rate, plan, h, totalHours, hourly, c, total, s.efficiencyPay, s.finalPay,
              RatioOrZero(s.finalPay, totalHours), RatioOrZero(total * 100.0, s.finalPay))
  }

  function PayDetailFor(name: string, inp: ReportInputs, filtered: Tables.Frame): (r: Result<Option<PayDetail>>)
    requires inp.settings.Valid()
    ensures r.Ok? && r.value.Some? ==> r.value.value.name == name && Consistent(r.value.value, inp, filtered)
    ensures r.Ok? ==> (r.value.Some? <==> Paid(inp.employees, name))
    ensures Paid(inp.employees, name) ==> (r.Ok? <==> HourlyRate(inp.employees, FirstRow(inp.employees, name).value).Ok?)
    ensures !Paid(inp.employees, name) ==> r == Ok(None)
  {
    if !Paid(inp.employees, name) then Ok(None)
    else
      var row := FirstRow(inp.employees, name).value;
      match HourlyRate(inp.employees, row)
      case Err(msg) => Err(msg)
      case Ok(rate) =>
        Ok(Some(Settle(name, rate, ApiEngine.OnEfficiencyPlan(row),
                       EmployeeHours.HoursWithOverrides(name, inp.timesheet, inp.hourOverrides),
                       EmployeeCommissions(name, filtered, inp.settings))))
  }

  /** The names of the listed employees the report pays, in order. */
  function PaidNames(names: seq<string>, employees: Tables.Frame): (r: seq<string>)
    ensures forall n :: n in r <==> n in names && Paid(employees, n)
    decreases |names|
  {
    if |names| == 0 then []
    else
      var n := |names| - 1;
      assert forall m :: m in names <==> m in names[..n] || m == names[n];
      PaidNames(names[..n], employees) + (if Paid(employees, names[n]) then [names[n]] else [])
  }

  function NamesOf(ds: seq<PayDetail>): (r: seq<string>)
    ensures |r| == |ds| && forall i :: 0 <= i < |ds| ==> r[i] == ds[i].name
  {
    seq(|ds|, i requires 0 <= i < |ds| => ds[i].name)
  }

  lemma NamesOfAppend(a: seq<PayDetail>, b: seq<PayDetail>)
    ensures NamesOf(a + b) == NamesOf(a) + NamesOf(b)
  {
  }

  /** The pay details of the listed employees, in order, skipping those
      not paid; a rate that cannot be converted stops the report. */
  function PayDetailsOf(names: seq<string>, inp: ReportInputs, filtered: Tables.Frame): (r: Result<seq<PayDetail>>)
    requires inp.settings.Valid()
    ensures r.Ok? ==> NamesOf(r.value) == PaidNames(names, inp.employees)
    ensures r.Ok? ==> AllConsistent(r.value, inp, filtered)
    decreases |names|
  {
    if |names| == 0 then Ok([])
    else
      var n := |names| - 1;
      match PayDetailsOf(names[..n], inp, filtered)
      case Err(msg) => Err(msg)
      case Ok(rest) =>
        match PayDetailFor(names[n], inp, filtered)
        case Err(msg) => Err(msg)
        case Ok(d) =>
          var extra := if d.Some? then [d.value] else [];
          AllConsistentSnoc(rest, extra, inp, filtered);
          NamesOfAppend(rest, extra);
          assert NamesOf(extra) == (if d.Some? then [names[n]] else []);
          Ok(rest + extra)
  }

  /** The report: the revenue sheet narrowed to the period, then one pay
      detail per employee processed. */
  function PayDetails(inp: ReportInputs, start: Dates.Date, end: Dates.Date, selected: string): (r: Result<seq<PayDetail>>)
    requires inp.settings.Valid()
    ensures ToProcess(inp.employees, selected).Err? ==> r.Err?
    ensures r.Ok? ==> forall i :: 0 <= i < |r.value| ==> Consistent(r.value[i], inp, FilterByDate(inp.revenue, start, end))
    ensures r.Ok? && selected != AllEmployees ==> NamesOf(r.value) == PaidNames([selected], inp.employees)
    ensures r.Ok? && selected == AllEmployees ==> NamesOf(r.value) == PaidNames(EligibleNames(inp.employees.rows), inp.employees)
  {
    var filtered := FilterByDate(inp.revenue, start, end);
    var names :- ToProcess(inp.employees, selected);
    PayDetailsOf(names, inp, filtered)
  }

  /** With hourly pay and commission not negative, the commission's share
      of the final pay is a percentage between 0 and 100 under either
      plan. */
  lemma CommissionShareIsPercentage(d: PayDetail)
    requires Reconciled(d)
    requires d.hourlyPay >= 0.0 && d.totalCommission >= 0.0
    ensures 0.0 <= d.commissionPercentage <= 100.0
  {
    if d.finalPay > 0.0 {
      assert d.totalCommission <= d.finalPay;
      ShareBound(d.commissionPercentage, d.finalPay, d.totalCommission);
    }
  }

  lemma ShareBound(p: real, f: real, c: real)
    requires f > 0.0 && 0.0 <= c <= f && p * f == c * 100.0
    ensures 0.0 <= p <= 100.0
  {
  }
}
