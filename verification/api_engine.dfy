/** The row-based commission engine of the HTTP service: revenue rows are
    matched against employee names per business unit and commission type,
    every technician listed on a job gets the full work-done rate, and the
    commission is reconciled with hourly pay according to the employee's
    plan.  Amounts are exact (no rounding). */
module ApiEngine {
  import opened Wrappers
  import Text
  import Dates
  import Tables
  import Dicts
  import Pay
  import TechLists
  import opened CommissionSettings
  import EmployeeHours
  import Decimals

  /** One commission line: who, which type, which unit, the job's revenue,
      the rate applied and the amount. */
  datatype Detail = Detail(employee: string, kind: Kind, unit: string, revenue: real,
                           rate: real, amount: real, job: Tables.Cell)

  /** The commission settings: unit name -> unit configuration, in the order
      the units were added. */
  type Settings = Dicts.Dict<UnitConfig>

  datatype Request = Request(employeeIds: seq<int>, start: Dates.Date, end: Dates.Date)

  /** Hours, hourly pay and the reconciliation of one employee. */
  datatype EfficiencyDetail = EfficiencyDetail(
    efficiencyPlan: bool, hours: EmployeeHours.Hours, hourlyRate: real,
    hourlyPay: real, commissionTotal: real, efficiencyPay: real, finalPay: real)

  /** One employee's result; `employeeId` is the employee's row index. */
  datatype Calculation = Calculation(
    employeeId: nat, employee: string, details: seq<Detail>,
    leadGen: real, sales: real, workDone: real, total: real,
    efficiency: Option<EfficiencyDetail>)

  datatype Summary = Summary(
    totalEmployees: nat, totalCommission: real, totalHourly: real,
    totalEfficiency: real, totalFinal: real,
    leadGenTotal: real, salesTotal: real, workDoneTotal: real,
    units: Dicts.Dict<real>)

  datatype EfficiencyResult = EfficiencyResult(
    calculated: nat, totalEfficiency: real, positive: nat, negative: nat, average: real)

  datatype Outcome = Outcome(calculations: seq<Calculation>, summary: Summary,
                             efficiency: Option<EfficiencyResult>)

  // ---------------------------------------------------------------------
  // Revenue column and date filter

  const RevenueKeywords: seq<string> := ["revenue", "total", "amount", "sales"]

  /** The lowercased column name contains one of the revenue keywords. */
  predicate RevenueLike(col: string) {
    exists i :: 0 <= i < |RevenueKeywords| && Text.Contains(Text.Lower(col), RevenueKeywords[i])
  }

  /** The first column whose name looks like a revenue column. */
  function RevenueColumn(cols: seq<string>): (r: Option<string>)
    ensures r.None? <==> forall i :: 0 <= i < |cols| ==> !RevenueLike(cols[i])
    ensures r.Some? ==> exists i :: 0 <= i < |cols| && cols[i] == r.value && RevenueLike(cols[i])
                          && forall j :: 0 <= j < i ==> !RevenueLike(cols[j])
    decreases |cols|
  {
    if |cols| == 0 then None
    else if RevenueLike(cols[0]) then Some(cols[0])
    else
      var r := RevenueColumn(cols[1..]);
      assert forall i :: 1 <= i < |cols| ==> cols[i] == cols[1..][i - 1];
      if r.Some? then
        var k :| 0 <= k < |cols[1..]| && cols[1..][k] == r.value && RevenueLike(cols[1..][k])
                 && forall j :: 0 <= j < k ==> !RevenueLike(cols[1..][j]);
        assert cols[k + 1] == r.value;
        r
      else r
  }

  /** The revenue rows used for the period: all rows when the sheet has no
      'Date' column or when one of its dates cannot be read (the strict
      conversion raises and the engine falls back to all data); otherwise
      the rows dated within the period, both ends included. */
  function DateFiltered(f: Tables.Frame, start: Dates.Date, end: Dates.Date): (g: Tables.Frame)
    ensures g.columns == f.columns
    ensures "Date" !in f.columns || !Tables.DatesReadable(f.rows) ==> g.rows == f.rows
    ensures "Date" in f.columns && Tables.DatesReadable(f.rows) ==>
      forall row :: row in g.rows <==> row in f.rows && Tables.InDateRange(row, start, end)
  {
    if "Date" in f.columns && Tables.DatesReadable(f.rows) then
      Tables.Frame(f.columns, Tables.RowsInRange(f.rows, start, end))
    else f
  }

  /** Rows dated exactly on the first or the last day of the period are
      kept. */
  lemma DateFilterInclusive(f: Tables.Frame, start: Dates.Date, end: Dates.Date, row: Tables.Row)
    requires "Date" in f.columns && Tables.DatesReadable(f.rows) && row in f.rows
    requires Tables.ToDate(Tables.Get(row, "Date")) == Some(start) || Tables.ToDate(Tables.Get(row, "Date")) == Some(end)
    requires Dates.NotAfter(start, end)
    ensures row in DateFiltered(f, start, end).rows
  {
  }

  // ---------------------------------------------------------------------
  // Detail lines

  /** The job number a detail records: the row's 'Job Number' cell, or
      "Unknown" when the sheet has no such column. */
  function JobOf(f: Tables.Frame, row: Tables.Row): (j: Tables.Cell)
    ensures "Job Number" !in f.columns ==> j == Tables.Str("Unknown")
    ensures "Job Number" in f.columns && "Job Number" in row ==> j == row["Job Number"]
    ensures "Job Number" in f.columns && "Job Number" !in row ==> j == Tables.Missing
  {
    if "Job Number" in f.columns then Tables.Get(row, "Job Number") else Tables.Str("Unknown")
  }

  /** One detail per row, each paying `rate` percent of the row's revenue
      (unreadable revenue counts as 0). */
  function DetailsFor(f: Tables.Frame, rows: seq<Tables.Row>, employee: string, kind: Kind,
                      unit: string, rate: real, revCol: string): (ds: seq<Detail>)
    ensures |ds| == |rows|
    ensures forall i :: 0 <= i < |ds| ==>
      ds[i].employee == employee && ds[i].kind == kind && ds[i].unit == unit && ds[i].rate == rate
      && ds[i].revenue == Tables.NumOrZero(Tables.Get(rows[i], revCol))
      && ds[i].amount == Decimals.Percent(ds[i].revenue, rate)
      && ds[i].job == JobOf(f, rows[i])
    decreases |rows|
  {
    if |rows| == 0 then []
    else
      var row := rows[|rows| - 1];
      var revenue := Tables.NumOrZero(Tables.Get(row, revCol));
      DetailsFor(f, rows[..|rows| - 1], employee, kind, unit, rate, revCol)
        + [Detail(employee, kind, unit, revenue, rate, Decimals.Percent(revenue, rate), JobOf(f, row))]
  }

  /** The sum of the amounts of some details. */
  function AmountTotal(ds: seq<Detail>): real
    decreases |ds|
  {
    if |ds| == 0 then 0.0 else AmountTotal(ds[..|ds| - 1]) + ds[|ds| - 1].amount
  }

  lemma {:induction false} AmountTotalAppend(a: seq<Detail>, b: seq<Detail>)
    ensures AmountTotal(a + b) == AmountTotal(a) + AmountTotal(b)
    decreases |b|
  {
    if |b| == 0 {
      assert a + b == a;
    } else {
      assert (a + b)[..|a + b| - 1] == a + b[..|b| - 1];
      AmountTotalAppend(a, b[..|b| - 1]);
    }
  }

  /** The details of some rows pay, in total, `rate` percent of the rows'
      revenue total. */
  lemma {:induction false} DetailsForTotal(f: Tables.Frame, rows: seq<Tables.Row>, employee: string, kind: Kind,
                                           unit: string, rate: real, revCol: string)
    ensures AmountTotal(DetailsFor(f, rows, employee, kind, unit, rate, revCol))
            == Decimals.Percent(Tables.ColumnTotal(rows, revCol), rate)
    decreases |rows|
  {
    if |rows| > 0 {
      var init := rows[..|rows| - 1];
      DetailsForTotal(f, init, employee, kind, unit, rate, revCol);
      var ds := DetailsFor(f, rows, employee, kind, unit, rate, revCol);
      assert ds[..|ds| - 1] == DetailsFor(f, init, employee, kind, unit, rate, revCol);
      assert AmountTotal(ds) == AmountTotal(ds[..|ds| - 1]) + ds[|ds| - 1].amount;
      Tables.PercentOfTotalStep(rows, revCol, rate, AmountTotal(ds[..|ds| - 1]));
    }
  }

  /** Lead generation or sales: one detail for each row whose `col` cell is
      the employee's name. */
  function TypeDetails(f: Tables.Frame, rows: seq<Tables.Row>, employee: string, col: string, kind: Kind,
                       unit: string, rate: real, revCol: string): (ds: seq<Detail>)
    ensures |ds| == |Tables.WhereEquals(rows, col, employee)|
    ensures AmountTotal(ds) == Decimals.Percent(Tables.ColumnTotal(Tables.WhereEquals(rows, col, employee), revCol), rate)
    ensures forall d :: d in ds ==> d.employee == employee && d.kind == kind && d.unit == unit && d.rate == rate
  {
    var matching := Tables.WhereEquals(rows, col, employee);
    DetailsForTotal(f, matching, employee, kind, unit, rate, revCol);
    DetailsFor(f, matching, employee, kind, unit, rate, revCol)
  }

  /** Work done: one detail for each row whose technician field lists the
      employee, each paying the full rate whatever the number of
      technicians. */
  function WorkDetails(f: Tables.Frame, rows: seq<Tables.Row>, employee: string,
                       unit: string, rate: real, revCol: string): (ds: seq<Detail>)
    ensures |ds| == |TechLists.ListingRows(rows, employee)|
    ensures AmountTotal(ds) == Decimals.Percent(Tables.ColumnTotal(TechLists.ListingRows(rows, employee), revCol), rate)
    ensures forall d :: d in ds ==> d.employee == employee && d.kind == WorkDone && d.unit == unit && d.rate == rate
  {
    var listing := TechLists.ListingRows(rows, employee);
    DetailsForTotal(f, listing, employee, WorkDone, unit, rate, revCol);
    DetailsFor(f, listing, employee, WorkDone, unit, rate, revCol)
  }

  /** Every technician named on a job is paid the job's full revenue times
      the rate: two technicians on the same job get the same amount, which
      is not divided between them. */
  lemma FullCreditEachTech(f: Tables.Frame, row: Tables.Row, a: string, b: string,
                           unit: string, rate: real, revCol: string)
    requires TechLists.Listed(row, a) && TechLists.Listed(row, b)
    ensures var da, db := WorkDetails(f, [row], a, unit, rate, revCol), WorkDetails(f, [row], b, unit, rate, revCol);
      |da| == 1 && |db| == 1
      && da[0].amount == db[0].amount == Decimals.Percent(Tables.NumOrZero(Tables.Get(row, revCol)), rate)
  {
    var la := TechLists.ListingRows([row], a);
    var lb := TechLists.ListingRows([row], b);
    assert la == [row] by {
      assert TechLists.ListingRows([row][..0], a) == [];
    }
    assert lb == [row] by {
      assert TechLists.ListingRows([row][..0], b) == [];
    }
  }

  /** The rows of one unit: those whose 'Business Unit' is the unit's name,
      or all rows when the sheet has no such column. */
  function UnitRows(f: Tables.Frame, unit: string): (rows: seq<Tables.Row>)
    ensures "Business Unit" !in f.columns ==> rows == f.rows
    ensures "Business Unit" in f.columns ==> rows == Tables.WhereEquals(f.rows, "Business Unit", unit)
  {
    if "Business Unit" in f.columns then Tables.WhereEquals(f.rows, "Business Unit", unit) else f.rows
  }

  /** The rate `employee` is paid for `kind` in `unit`: the unit's rate for
      the kind, unless the employee's override entry in the unit has the
      kind's flag on, in which case the entry's rate for the kind (the
      unit's rate when the entry has none). */
  function RateFor(overrides: Overrides, employee: string, unit: string, cfg: UnitConfig, kind: Kind): (r: real)
    ensures Entry(overrides, unit, employee).None? ==> r == DefaultRate(cfg, kind)
    ensures Entry(overrides, unit, employee).Some? && !FlagOn(Entry(overrides, unit, employee).value, ScreenFlagKey(kind))
      ==> r == DefaultRate(cfg, kind)
    ensures Entry(overrides, unit, employee).Some? && FlagOn(Entry(overrides, unit, employee).value, ScreenFlagKey(kind))
      ==> r == RateOr(Entry(overrides, unit, employee).value, RateKey(kind), DefaultRate(cfg, kind))
  {
    OverrideRate(overrides, employee, unit, kind, DefaultRate(cfg, kind))
  }

  /** The sheet column that names the employee for each kind of commission. */
  function KindColumn(k: Kind): string {
    match k
    case LeadGen => "Lead Generated By"
    case SoldBy => "Sold By"
    case WorkDone => "Assigned Technicians"
  }

  /** The details of one kind over a unit's rows: none when the sheet lacks
      the kind's column or the unit's rate for the kind is not positive. */
  function KindDetails(f: Tables.Frame, rows: seq<Tables.Row>, employee: string, unit: string, cfg: UnitConfig,
                       overrides: Overrides, revCol: string, kind: Kind): (ds: seq<Detail>)
    ensures forall d :: d in ds ==>
      d.employee == employee && d.unit == unit && d.kind == kind && DefaultRate(cfg, kind) > 0.0
      && d.rate == RateFor(overrides, employee, unit, cfg, kind)
    ensures KindColumn(kind) !in f.columns || DefaultRate(cfg, kind) <= 0.0 ==> ds == []
    ensures AmountTotal(ds) == KindAmount(f, rows, employee, unit, cfg, overrides, revCol, kind)
  {
    if KindColumn(kind) !in f.columns || DefaultRate(cfg, kind) <= 0.0 then []
    else
      var rate := RateFor(overrides, employee, unit, cfg, kind);
      match kind
      case LeadGen => TypeDetails(f, rows, employee, KindColumn(kind), kind, unit, rate, revCol)
      case SoldBy => TypeDetails(f, rows, employee, KindColumn(kind), kind, unit, rate, revCol)
      case WorkDone => WorkDetails(f, rows, employee, unit, rate, revCol)
  }

  /** The rows that credit `employee` with `kind`: those naming them in the
      kind's column, or, for work done, listing them among the technicians. */
  function CreditedRows(rows: seq<Tables.Row>, employee: string, kind: Kind): seq<Tables.Row> {
    match kind
    case WorkDone => TechLists.ListingRows(rows, employee)
    case _ => Tables.WhereEquals(rows, KindColumn(kind), employee)
  }

  /** What one kind pays over a unit's rows: the employee's rate percent of
      the revenue of the rows crediting them, when the sheet has the kind's
      column and the unit's rate for it is positive; nothing otherwise. */
  function KindAmount(f: Tables.Frame, rows: seq<Tables.Row>, employee: string, unit: string, cfg: UnitConfig,
                      overrides: Overrides, revCol: string, kind: Kind): real {
    if KindColumn(kind) !in f.columns || DefaultRate(cfg, kind) <= 0.0 then 0.0
    else Decimals.Percent(Tables.ColumnTotal(CreditedRows(rows, employee, kind), revCol),
                          RateFor(overrides, employee, unit, cfg, kind))
  }

  /** What one unit pays: the three kinds over the unit's rows, or nothing
      for a disabled unit or a unit without rows. */
  function UnitAmount(f: Tables.Frame, employee: string, unit: string, cfg: UnitConfig,
                      overrides: Overrides, revCol: string): real {
    var rows := UnitRows(f, unit);
    if !cfg.enabled || rows == [] then 0.0
    else KindAmount(f, rows, employee, unit, cfg, overrides, revCol, LeadGen)
         + KindAmount(f, rows, employee, unit, cfg, overrides, revCol, SoldBy)
         + KindAmount(f, rows, employee, unit, cfg, overrides, revCol, WorkDone)
  }

  /** What the listed units pay together. */
  function UnitsAmount(f: Tables.Frame, employee: string, units: seq<string>, settings: Settings,
                       overrides: Overrides, revCol: string): real
    requires forall i :: 0 <= i < |units| ==> units[i] in settings.entries
    decreases |units|
  {
    if |units| == 0 then 0.0
    else
      var u := units[|units| - 1];
      UnitsAmount(f, employee, units[..|units| - 1], settings, overrides, revCol)
      + UnitAmount(f, employee, u, settings.entries[u], overrides, revCol)
  }

  /** The details of one business unit: none for a disabled unit or a unit
      without rows; otherwise lead generation, sales and work done, each
      only when the sheet has its column and the unit's rate is positive. */
  function UnitDetails(f: Tables.Frame, employee: string, unit: string, cfg: UnitConfig,
                       overrides: Overrides, revCol: string): (ds: seq<Detail>)
    ensures !cfg.enabled || UnitRows(f, unit) == [] ==> ds == []
    ensures forall d :: d in ds ==>
      d.employee == employee && d.unit == unit && DefaultRate(cfg, d.kind) > 0.0
      && d.rate == RateFor(overrides, employee, unit, cfg, d.kind)
    ensures forall d :: d in ds ==> KindColumn(d.kind) in f.columns
  {
    var rows := UnitRows(f, unit);
    if !cfg.enabled || rows == [] then []
    else
      KindDetails(f, rows, employee, unit, cfg, overrides, revCol, LeadGen)
      + KindDetails(f, rows, employee, unit, cfg, overrides, revCol, SoldBy)
      + KindDetails(f, rows, employee, unit, cfg, overrides, revCol, WorkDone)
  }

  /** The details of the listed units, in the settings' order. */
  function UnitsDetails(f: Tables.Frame, employee: string, units: seq<string>, settings: Settings,
                        overrides: Overrides, revCol: string): (ds: seq<Detail>)
    requires forall i :: 0 <= i < |units| ==> units[i] in settings.entries
    ensures forall d :: d in ds ==>
      d.employee == employee && d.unit in units
      && settings.entries[d.unit].enabled && DefaultRate(settings.entries[d.unit], d.kind) > 0.0
      && d.rate == RateFor(overrides, employee, d.unit, settings.entries[d.unit], d.kind)
    decreases |units|
  {
    if |units| == 0 then []
    else
      var u := units[|units| - 1];
      var rest := UnitsDetails(f, employee, units[..|units| - 1], settings, overrides, revCol);
      var last := UnitDetails(f, employee, u, settings.entries[u], overrides, revCol);
      rest + last
  }

  /** A unit's details pay what the unit pays. */
  lemma UnitDetailsTotal(f: Tables.Frame, employee: string, unit: string, cfg: UnitConfig,
                         overrides: Overrides, revCol: string)
    ensures AmountTotal(UnitDetails(f, employee, unit, cfg, overrides, revCol))
            == UnitAmount(f, employee, unit, cfg, overrides, revCol)
  {
    var rows := UnitRows(f, unit);
    if cfg.enabled && rows != [] {
      var a := KindDetails(f, rows, employee, unit, cfg, overrides, revCol, LeadGen);
      var b := KindDetails(f, rows, employee, unit, cfg, overrides, revCol, SoldBy);
      var c := KindDetails(f, rows, employee, unit, cfg, overrides, revCol, WorkDone);
      AmountTotalAppend(a, b);
      AmountTotalAppend(a + b, c);
    }
  }

  /** The listed units' details pay what the units pay together. */
  lemma {:induction false} UnitsDetailsTotal(f: Tables.Frame, employee: string, units: seq<string>, settings: Settings,
                                             overrides: Overrides, revCol: string)
    requires forall i :: 0 <= i < |units| ==> units[i] in settings.entries
    ensures AmountTotal(UnitsDetails(f, employee, units, settings, overrides, revCol))
            == UnitsAmount(f, employee, units, settings, overrides, revCol)
    decreases |units|
  {
    if |units| > 0 {
      var u := units[|units| - 1];
      var init := units[..|units| - 1];
      UnitsDetailsTotal(f, employee, init, settings, overrides, revCol);
      UnitDetailsTotal(f, employee, u, settings.entries[u], overrides, revCol);
      AmountTotalAppend(UnitsDetails(f, employee, init, settings, overrides, revCol),
                        UnitDetails(f, employee, u, settings.entries[u], overrides, revCol));
    }
  }

  /** An employee's revenue details pay, over the period's rows, what the
      settings' units pay: nothing without a revenue column. */
  lemma RevenueCommissionsTotal(employee: string, revenue: Tables.Frame, settings: Settings,
                                overrides: Overrides, start: Dates.Date, end: Dates.Date)
    requires settings.Valid()
    ensures var f := DateFiltered(revenue, start, end);
      AmountTotal(RevenueCommissions(employee, revenue, settings, overrides, start, end))
      == match RevenueColumn(f.columns)
         case None => 0.0
         case Some(col) => UnitsAmount(f, employee, settings.order, settings, overrides, col)
  {
    var f := DateFiltered(revenue, start, end);
    if RevenueColumn(f.columns).Some? {
      assert forall i :: 0 <= i < |settings.order| ==> settings.order[i] in settings.entries;
      UnitsDetailsTotal(f, employee, settings.order, settings, overrides, RevenueColumn(f.columns).value);
    }
  }

  /** Every revenue-based detail of one employee for the period. */
  function RevenueCommissions(employee: string, revenue: Tables.Frame, settings: Settings,
                              overrides: Overrides, start: Dates.Date, end: Dates.Date): (ds: seq<Detail>)
    requires settings.Valid()
    ensures RevenueColumn(revenue.columns).None? ==> ds == []
    ensures forall d :: d in ds ==>
      d.employee == employee && d.unit in settings.entries
      && settings.entries[d.unit].enabled && DefaultRate(settings.entries[d.unit], d.kind) > 0.0
      && d.rate == RateFor(overrides, employee, d.unit, settings.entries[d.unit], d.kind)
  {
    var f := DateFiltered(revenue, start, end);
    match RevenueColumn(f.columns)
    case None => []
    case Some(col) => UnitsDetails(f, employee, settings.order, settings, overrides, col)
  }

  // ---------------------------------------------------------------------
  // Per-type totals

  /** The sum of the amounts of the details of one type. */
  function KindTotal(ds: seq<Detail>, k: Kind): real
    decreases |ds|
  {
    if |ds| == 0 then 0.0
    else KindTotal(ds[..|ds| - 1], k) + (if ds[|ds| - 1].kind == k then ds[|ds| - 1].amount else 0.0)
  }

  /** The per-type totals add up to the total of all details. */
  lemma {:induction false} KindTotalsAddUp(ds: seq<Detail>)
    ensures KindTotal(ds, LeadGen) + KindTotal(ds, SoldBy) + KindTotal(ds, WorkDone) == AmountTotal(ds)
    decreases |ds|
  {
    if |ds| > 0 {
      KindTotalsAddUp(ds[..|ds| - 1]);
    }
  }

  lemma {:induction false} KindTotalAppend(a: seq<Detail>, b: seq<Detail>, k: Kind)
    ensures KindTotal(a + b, k) == KindTotal(a, k) + KindTotal(b, k)
    decreases |b|
  {
    if |b| == 0 {
      assert a + b == a;
    } else {
      assert (a + b)[..|a + b| - 1] == a + b[..|b| - 1];
      KindTotalAppend(a, b[..|b| - 1], k);
    }
  }

  // ---------------------------------------------------------------------
  // Efficiency pay

  /** `Decimal(str(row.get('Hourly Rate', 0)))`: 0 when the sheet has no
      such column, the number in a numeric cell, the value of a numeric
      text; anything else cannot be converted. */
  function HourlyRateOf(employees: Tables.Frame, row: Tables.Row): (r: Result<real>)
    ensures "Hourly Rate" !in employees.columns ==> r == Ok(0.0)
    ensures "Hourly Rate" in employees.columns && Tables.Get(row, "Hourly Rate").Num?
      ==> r == Ok(Tables.Get(row, "Hourly Rate").x)
  {
    if "Hourly Rate" !in employees.columns then Ok(0.0)
    else
      match Tables.Get(row, "Hourly Rate")
      case Num(x) => Ok(x)
      case Str(s) =>
        (match Tables.ToNumeric(Tables.Str(s))
         case Some(x) => Ok(x)
         case None => Err("hourly rate is not a number"))
      case _ => Err("hourly rate is not a number")
  }

  /** The plan is Efficiency Pay only when the row says so exactly; a
      missing plan reads as Hourly + Commission. */
  predicate OnEfficiencyPlan(row: Tables.Row) {
    Tables.Get(row, "Commission Plan") == Tables.Str("Efficiency Pay")
  }

  /** Hourly pay from the employee's hours (overrides first), reconciled
      with the commission total by plan. */
  function EfficiencyOf(employee: string, employees: Tables.Frame, row: Tables.Row, timesheet: Tables.Frame,
                        hourOverrides: EmployeeHours.HourOverrides, commission: real): (r: Result<EfficiencyDetail>)
    ensures r.Ok? ==> var e := r.value;
      e.hours == EmployeeHours.HoursWithOverrides(employee, timesheet, hourOverrides)
      && e.hourlyPay == Pay.HourlyPay(e.hourlyRate, e.hours.regular, e.hours.overtime, e.hours.doubleTime)
      && e.commissionTotal == commission
      && e.efficiencyPlan == OnEfficiencyPlan(row)
      && e.efficiencyPay >= 0.0
      && (e.efficiencyPlan ==> e.finalPay >= e.hourlyPay && e.finalPay >= commission
                               && e.efficiencyPay == e.finalPay - e.hourlyPay)
      && (!e.efficiencyPlan ==> e.finalPay == e.hourlyPay + commission && e.efficiencyPay == 0.0)
    ensures HourlyRateOf(employees, row).Ok? <==> r.Ok?
  {
    match HourlyRateOf(employees, row)
    case Err(msg) => Err(msg)
    case Ok(rate) =>
      var h := EmployeeHours.HoursWithOverrides(employee, timesheet, hourOverrides);
      var hourly := Pay.HourlyPay(rate, h.regular, h.overtime, h.doubleTime);
      var plan := OnEfficiencyPlan(row);
      var s := Pay.Reconcile(plan, hourly, commission);
      Ok(EfficiencyDetail(plan, h, rate, hourly, commission, s.efficiencyPay, s.finalPay))
  }

  // ---------------------------------------------------------------------
  // One employee

  /** `emp_row['Name']`: the employee's name, which must be text. */
  function NameOf(row: Tables.Row): (r: Result<string>)
    ensures r.Ok? <==> Tables.Get(row, "Name").Str?
    ensures r.Ok? ==> r.value == Tables.Get(row, "Name").s
  {
    match Tables.Get(row, "Name")
    case Str(s) => Ok(s)
    case _ => Err("employee name is not text")
  }

  /** Everything the engine reads besides the request: the employee,
      revenue and timesheet sheets, the commission settings, the rate
      overrides and the hour overrides. */
  datatype Inputs = Inputs(employees: Tables.Frame, revenue: Tables.Frame, timesheet: Tables.Frame,
                           settings: Settings, overrides: Overrides,
                           hourOverrides: EmployeeHours.HourOverrides)

  /** The calculation of one employee: revenue details when there is
      revenue data, efficiency pay when there is timesheet data. */
  function EmployeeCalculation(id: nat, row: Tables.Row, inp: Inputs, req: Request): (r: Result<Calculation>)
    requires inp.settings.Valid()
    ensures r.Ok? <==> NameOf(row).Ok? && (!Tables.Empty(inp.timesheet) ==> HourlyRateOf(inp.employees, row).Ok?)
    ensures r.Ok? ==> Consistent(r.value, inp) && r.value.employeeId == id && NameOf(row) == Ok(r.value.employee)
  {
    match NameOf(row)
    case Err(msg) => Err(msg)
    case Ok(name) =>
      var details := if Tables.Empty(inp.revenue) then []
                     else RevenueCommissions(name, inp.revenue, inp.settings, inp.overrides, req.start, req.end);
      var total := AmountTotal(details);
      KindTotalsAddUp(details);
      if Tables.Empty(inp.timesheet) then
        Ok(Calculation(id, name, details, KindTotal(details, LeadGen), KindTotal(details, SoldBy),
                       KindTotal(details, WorkDone), total, None))
      else
        match EfficiencyOf(name, inp.employees, row, inp.timesheet, inp.hourOverrides, total)
        case Err(msg) => Err(msg)
        case Ok(e) =>
          Ok(Calculation(id, name, details, KindTotal(details, LeadGen), KindTotal(details, SoldBy),
                         KindTotal(details, WorkDone), total, Some(e)))
  }

  /** A calculation's details are the employee's revenue details for the
      requested period, and none without revenue data; so its total is
      what the settings' units pay the employee over the period's rows. */
  lemma CalculationDetails(id: nat, row: Tables.Row, inp: Inputs, req: Request)
    requires inp.settings.Valid()
    requires EmployeeCalculation(id, row, inp, req).Ok?
    ensures var c := EmployeeCalculation(id, row, inp, req).value;
      c.details == (if Tables.Empty(inp.revenue) then []
                    else RevenueCommissions(c.employee, inp.revenue, inp.settings, inp.overrides, req.start, req.end))
    ensures var c := EmployeeCalculation(id, row, inp, req).value;
      var f := DateFiltered(inp.revenue, req.start, req.end);
      c.total == (if Tables.Empty(inp.revenue) || RevenueColumn(f.columns).None? then 0.0
                  else UnitsAmount(f, c.employee, inp.settings.order, inp.settings, inp.overrides,
                                   RevenueColumn(f.columns).value))
  {
    var c := EmployeeCalculation(id, row, inp, req).value;
    if !Tables.Empty(inp.revenue) {
      RevenueCommissionsTotal(c.employee, inp.revenue, inp.settings, inp.overrides, req.start, req.end);
    }
  }

  /** What every calculation satisfies: its type totals are the per-type
      sums of its details and add up to its total, which is the sum of all
      its details; it has no details without revenue data; it has an
      efficiency detail exactly when there is timesheet data, reconciling
      its total with non-negative efficiency pay. */
  predicate Consistent(c: Calculation, inp: Inputs) {
    c.leadGen == KindTotal(c.details, LeadGen) && c.sales == KindTotal(c.details, SoldBy)
    && c.workDone == KindTotal(c.details, WorkDone)
    && c.total == AmountTotal(c.details)
    && c.leadGen + c.sales + c.workDone == c.total
    && (Tables.Empty(inp.revenue) ==> c.details == [])
    && (c.efficiency.Some? <==> !Tables.Empty(inp.timesheet))
    && (c.efficiency.Some? ==> c.efficiency.value.commissionTotal == c.total
                                && c.efficiency.value.efficiencyPay >= 0.0)
  }

  // ---------------------------------------------------------------------
  // Employee selection

  /** `employee_df.iloc[ids]`: the listed positions, in the order given,
      each paired with its row index; a negative position counts from the
      end, and a position outside the frame is an error.  An empty list
      selects every employee. */
  function Select(rows: seq<Tables.Row>, ids: seq<int>): (r: Result<seq<(nat, Tables.Row)>>)
    ensures ids == [] ==>
      r.Ok? && |r.value| == |rows|
      && forall i :: 0 <= i < |rows| ==> r.value[i] == (i, rows[i])
    ensures ids != [] ==> (r.Ok? <==> forall i :: 0 <= i < |ids| ==> -|rows| <= ids[i] < |rows|)
    ensures ids != [] && r.Ok? ==>
      |r.value| == |ids|
      && forall i :: 0 <= i < |ids| ==> r.value[i].0 == (if ids[i] < 0 then ids[i] + |rows| else ids[i])
                                        && r.value[i].1 == rows[r.value[i].0]
  {
    if ids == [] then Ok(Indexed(rows, |rows|)) else Positions(rows, ids)
  }

  function Indexed(rows: seq<Tables.Row>, n: nat): (r: seq<(nat, Tables.Row)>)
    requires n <= |rows|
    ensures |r| == n && forall i :: 0 <= i < n ==> r[i] == (i, rows[i])
  {
    if n == 0 then [] else Indexed(rows, n - 1) + [(n - 1, rows[n - 1])]
  }

  function Positions(rows: seq<Tables.Row>, ids: seq<int>): (r: Result<seq<(nat, Tables.Row)>>)
    ensures r.Ok? <==> forall i :: 0 <= i < |ids| ==> -|rows| <= ids[i] < |rows|
    ensures r.Ok? ==>
      |r.value| == |ids|
      && forall i :: 0 <= i < |ids| ==> r.value[i].0 == (if ids[i] < 0 then ids[i] + |rows| else ids[i])
                                        && r.value[i].1 == rows[r.value[i].0]
    decreases |ids|
  {
    if |ids| == 0 then Ok([])
    else
      var id := ids[|ids| - 1];
      match Positions(rows, ids[..|ids| - 1])
      case Err(msg) => Err(msg)
      case Ok(init) =>
        if -|rows| <= id < |rows| then
          var p: nat := if id < 0 then id + |rows| else id;
          Ok(init + [(p, rows[p])])
        else Err("single positional indexer is out-of-bounds")
  }

  // ---------------------------------------------------------------------
  // All employees

  /** The calculations of the selected employees, in order; the first
      employee that cannot be calculated fails the whole run. */
  function Calculations(selected: seq<(nat, Tables.Row)>, inp: Inputs, req: Request): (r: Result<seq<Calculation>>)
    requires inp.settings.Valid()
    ensures r.Ok? ==> |r.value| == |selected|
    ensures r.Ok? ==> forall i :: 0 <= i < |selected| ==> EmployeeCalculation(selected[i].0, selected[i].1, inp, req) == Ok(r.value[i])
    decreases |selected|
  {
    if |selected| == 0 then Ok([])
    else
      var init := selected[..|selected| - 1];
      var last := selected[|selected| - 1];
      match Calculations(init, inp, req)
      case Err(msg) => Err(msg)
      case Ok(cs) =>
        match EmployeeCalculation(last.0, last.1, inp, req)
        case Err(msg) => Err(msg)
        case Ok(c) =>
          assert forall i :: 0 <= i < |init| ==> init[i] == selected[i];
          Ok(cs + [c])
  }

  /** Every calculation of a run is consistent with the inputs. */
  lemma CalculationsConsistent(selected: seq<(nat, Tables.Row)>, inp: Inputs, req: Request)
    requires inp.settings.Valid()
    requires Calculations(selected, inp, req).Ok?
    ensures var cs := Calculations(selected, inp, req).value;
      forall i :: 0 <= i < |cs| ==> Consistent(cs[i], inp)
  {
    var cs := Calculations(selected, inp, req).value;
    forall i | 0 <= i < |cs|
      ensures Consistent(cs[i], inp)
    {
      assert EmployeeCalculation(selected[i].0, selected[i].1, inp, req) == Ok(cs[i]);
    }
  }

  /** Every calculation of a run carries its employee's revenue details. */
  lemma CalculationsDetails(selected: seq<(nat, Tables.Row)>, inp: Inputs, req: Request)
    requires inp.settings.Valid()
    requires Calculations(selected, inp, req).Ok?
    ensures var cs := Calculations(selected, inp, req).value;
      forall i :: 0 <= i < |cs| ==>
        cs[i].details == (if Tables.Empty(inp.revenue) then []
                          else RevenueCommissions(cs[i].employee, inp.revenue, inp.settings, inp.overrides, req.start, req.end))
  {
    var cs := Calculations(selected, inp, req).value;
    forall i | 0 <= i < |cs|
      ensures cs[i].details == (if Tables.Empty(inp.revenue) then []
                                else RevenueCommissions(cs[i].employee, inp.revenue, inp.settings, inp.overrides, req.start, req.end))
    {
      assert EmployeeCalculation(selected[i].0, selected[i].1, inp, req) == Ok(cs[i]);
      CalculationDetails(selected[i].0, selected[i].1, inp, req);
    }
  }

  /** Sums of one field over the calculations. */
  function SumCommission(cs: seq<Calculation>): real
    decreases |cs|
  {
    if |cs| == 0 then 0.0 else SumCommission(cs[..|cs| - 1]) + cs[|cs| - 1].total
  }

  function SumKind(cs: seq<Calculation>, k: Kind): real
    decreases |cs|
  {
    if |cs| == 0 then 0.0
    else
      var c := cs[|cs| - 1];
      SumKind(cs[..|cs| - 1], k) + (match k case LeadGen => c.leadGen case SoldBy => c.sales case WorkDone => c.workDone)
  }

  /** Hourly, efficiency and final pay summed over the employees that have
      an efficiency detail. */
  function SumPay(cs: seq<Calculation>, field: nat): real
    requires field < 3
    decreases |cs|
  {
    if |cs| == 0 then 0.0
    else
      var c := cs[|cs| - 1];
      SumPay(cs[..|cs| - 1], field)
        + (if c.efficiency.None? then 0.0
           else if field == 0 then c.efficiency.value.hourlyPay
           else if field == 1 then c.efficiency.value.efficiencyPay
           else c.efficiency.value.finalPay)
  }

  /** Every detail of every calculation, in processing order. */
  function AllDetails(cs: seq<Calculation>): seq<Detail>
    decreases |cs|
  {
    if |cs| == 0 then [] else AllDetails(cs[..|cs| - 1]) + cs[|cs| - 1].details
  }

  /** The unit of every detail, in order. */
  function UnitNames(ds: seq<Detail>): (us: seq<string>)
    ensures |us| == |ds| && forall i :: 0 <= i < |ds| ==> us[i] == ds[i].unit
    decreases |ds|
  {
    if |ds| == 0 then [] else UnitNames(ds[..|ds| - 1]) + [ds[|ds| - 1].unit]
  }

  /** The unit summary: unit name -> total commission paid in the unit, in
      the order the units first appear among the details. */
  function UnitSummary(ds: seq<Detail>): (d: Dicts.Dict<real>)
    ensures d.Valid()
    ensures Dicts.Total(d) == AmountTotal(ds)
    ensures forall u :: u in d.entries <==> u in UnitNames(ds)
    decreases |ds|
  {
    if |ds| == 0 then Dicts.EmptyDict()
    else
      var init := UnitSummary(ds[..|ds| - 1]);
      var last := ds[|ds| - 1];
      Dicts.AddTo(init, last.unit, last.amount)
  }

  /** The summary's per-type totals add up to the total commission. */
  lemma {:induction false} TypeTotalsAddUp(cs: seq<Calculation>, inp: Inputs)
    requires forall i :: 0 <= i < |cs| ==> Consistent(cs[i], inp)
    ensures SumKind(cs, LeadGen) + SumKind(cs, SoldBy) + SumKind(cs, WorkDone) == SumCommission(cs)
    decreases |cs|
  {
    if |cs| > 0 {
      TypeTotalsAddUp(cs[..|cs| - 1], inp);
      assert Consistent(cs[|cs| - 1], inp);
    }
  }

  /** The details of all calculations add up to the total commission. */
  lemma {:induction false} AllDetailsTotal(cs: seq<Calculation>, inp: Inputs)
    requires forall i :: 0 <= i < |cs| ==> Consistent(cs[i], inp)
    ensures AmountTotal(AllDetails(cs)) == SumCommission(cs)
    decreases |cs|
  {
    if |cs| > 0 {
      var init := cs[..|cs| - 1];
      AllDetailsTotal(init, inp);
      assert Consistent(cs[|cs| - 1], inp);
      AmountTotalAppend(AllDetails(init), cs[|cs| - 1].details);
    }
  }

  /** Efficiency pay is never negative, so no employee counts as negative. */
  function CountWhere(cs: seq<Calculation>, positive: bool): (n: nat)
    ensures n <= |cs|
    decreases |cs|
  {
    if |cs| == 0 then 0
    else
      var c := cs[|cs| - 1];
      var hit := c.efficiency.Some? && (if positive then c.efficiency.value.efficiencyPay > 0.0
                                        else c.efficiency.value.efficiencyPay < 0.0);
      CountWhere(cs[..|cs| - 1], positive) + (if hit then 1 else 0)
  }

  lemma {:induction false} NoNegativeEfficiency(cs: seq<Calculation>, inp: Inputs)
    requires forall i :: 0 <= i < |cs| ==> Consistent(cs[i], inp)
    ensures CountWhere(cs, false) == 0
    decreases |cs|
  {
    if |cs| > 0 {
      NoNegativeEfficiency(cs[..|cs| - 1], inp);
      assert Consistent(cs[|cs| - 1], inp);
    }
  }

  /** The run summary over the calculations. */
  function Summarize(cs: seq<Calculation>, inp: Inputs): (s: Summary)
    requires forall i :: 0 <= i < |cs| ==> Consistent(cs[i], inp)
    ensures s.totalEmployees == |cs|
    ensures s.totalCommission == SumCommission(cs)
    ensures s.totalEfficiency == SumPay(cs, 1)
    ensures s.leadGenTotal + s.salesTotal + s.workDoneTotal == s.totalCommission
    ensures s.units.Valid() && Dicts.Total(s.units) == s.totalCommission
  {
    TypeTotalsAddUp(cs, inp);
    AllDetailsTotal(cs, inp);
    Summary(|cs|, SumCommission(cs), SumPay(cs, 0), SumPay(cs, 1), SumPay(cs, 2),
            SumKind(cs, LeadGen), SumKind(cs, SoldBy), SumKind(cs, WorkDone),
            UnitSummary(AllDetails(cs)))
  }

  /** The efficiency results: present when there is timesheet data and at
      least one calculation; no employee ever counts as negative, and the
      average times the count is the total efficiency pay. */
  function EfficiencyResults(cs: seq<Calculation>, inp: Inputs): (e: Option<EfficiencyResult>)
    requires forall i :: 0 <= i < |cs| ==> Consistent(cs[i], inp)
    ensures e.Some? <==> !Tables.Empty(inp.timesheet) && |cs| > 0
    ensures e.Some? ==>
      e.value.calculated == |cs| && e.value.negative == 0
      && e.value.totalEfficiency == SumPay(cs, 1)
      && e.value.average * (|cs| as real) == e.value.totalEfficiency
  {
    if Tables.Empty(inp.timesheet) || |cs| == 0 then None
    else
      NoNegativeEfficiency(cs, inp);
      Some(EfficiencyResult(|cs|, SumPay(cs, 1), CountWhere(cs, true), CountWhere(cs, false),
                            SumPay(cs, 1) / (|cs| as real)))
  }

  /** `calculate_commissions`: fails for an empty employee sheet, an
      out-of-range employee position, or an employee whose name or hourly
      rate cannot be read; otherwise one calculation per selected employee
      with the summary and, when there is timesheet data, the efficiency
      results. */
  function CalculateCommissions(req: Request, inp: Inputs): (r: Result<Outcome>)
    requires inp.settings.Valid()
    ensures Tables.Empty(inp.employees) ==> r.Err?
    ensures r.Ok? ==> var o := r.value;
      |o.calculations| == (if req.employeeIds == [] then |inp.employees.rows| else |req.employeeIds|)
      && (forall i :: 0 <= i < |o.calculations| ==> Consistent(o.calculations[i], inp))
      && o.summary.totalEmployees == |o.calculations|
      && o.summary.leadGenTotal + o.summary.salesTotal + o.summary.workDoneTotal == o.summary.totalCommission
      && Dicts.Total(o.summary.units) == o.summary.totalCommission
      && (o.efficiency.Some? <==> !Tables.Empty(inp.timesheet))
      && (o.efficiency.Some? ==>
            o.efficiency.value.negative == 0
            && o.efficiency.value.calculated == |o.calculations|
            && o.efficiency.value.totalEfficiency == o.summary.totalEfficiency)
  {
    if Tables.Empty(inp.employees) then Err("No employee data available")
    else
      match Select(inp.employees.rows, req.employeeIds)
      case Err(msg) => Err(msg)
      case Ok(selected) =>
        assert |selected| == (if req.employeeIds == [] then |inp.employees.rows| else |req.employeeIds|) > 0;
        match Calculations(selected, inp, req)
        case Err(msg) => Err(msg)
        case Ok(cs) =>
          CalculationsConsistent(selected, inp, req);
          var summary := Summarize(cs, inp);
          var eff := EfficiencyResults(cs, inp);
          assert eff.Some? <==> !Tables.Empty(inp.timesheet);
          Ok(Outcome(cs, summary, eff))
  }

  /** The API's answer reports, for every employee, the revenue details of
      the requested period drawn from the revenue sheet. */
  lemma CommissionDetails(req: Request, inp: Inputs)
    requires inp.settings.Valid()
    requires CalculateCommissions(req, inp).Ok?
    ensures var cs := CalculateCommissions(req, inp).value.calculations;
      forall i :: 0 <= i < |cs| ==>
        cs[i].details == (if Tables.Empty(inp.revenue) then []
                          else RevenueCommissions(cs[i].employee, inp.revenue, inp.settings, inp.overrides, req.start, req.end))
  {
    var selected := Select(inp.employees.rows, req.employeeIds).value;
    CalculationsDetails(selected, inp, req);
  }
}
