/** The per-job commission engine: each business unit carries one job's
    revenue and the people who generated the lead, sold it and did the work.
    Commissions are percentages of revenue quantized half-up to cents;
    helpers/apprentices and staff excluded from payroll earn none, and the
    work-done commission is shared equally by the eligible technicians. */
module PerJobEngine {
  import opened Wrappers
  import opened Decimals
  import opened Dicts
  import Pay
  import Seqs

  datatype Staff = Staff(
    hourlyRate: real,
    regularHours: real,
    otHours: real,
    dtHours: real,
    totalHours: real,
    isHelper: bool,
    isExcluded: bool)

  datatype Job = Job(
    revenue: real,
    leadGenBy: Option<string>,
    soldBy: Option<string>,
    assignedTechs: seq<string>)

  /** Rates per business unit, keyed by commission type (percentages). */
  type RateCard = map<string, real>

  datatype Engine = Engine(
    commissionRates: map<string, RateCard>,
    units: Dict<Job>,
    employees: Dict<Staff>)

  ghost predicate Valid(e: Engine) {
    e.units.Valid() && e.employees.Valid()
  }

  const LeadKey: string := "lead_generated_by"
  const SalesKey: string := "sold_by"
  const WorkKey: string := "work_done"

  function NewEngine(): (e: Engine)
    ensures Valid(e)
  {
    Engine(map[], EmptyDict(), EmptyDict())
  }

  function SetCommissionRates(e: Engine, rates: map<string, RateCard>): (r: Engine)
    ensures r.commissionRates == rates && r.units == e.units && r.employees == e.employees
  {
    e.(commissionRates := rates)
  }

  function AddBusinessUnit(e: Engine, name: string, revenue: real, leadGenBy: Option<string>,
                           soldBy: Option<string>, assignedTechs: seq<string>): (r: Engine)
    requires Valid(e)
    ensures Valid(r)
    ensures r.units.entries == e.units.entries[name := Job(revenue, leadGenBy, soldBy, assignedTechs)]
    ensures r.employees == e.employees && r.commissionRates == e.commissionRates
  {
    e.(units := e.units.Put(name, Job(revenue, leadGenBy, soldBy, assignedTechs)))
  }

  /** Registering an employee stores the hours and their total; an existing
      entry with the same name is replaced. */
  function AddEmployee(e: Engine, name: string, hourlyRate: real, regular: real, ot: real, dt: real,
                       isHelper: bool, isExcluded: bool): (r: Engine)
    requires Valid(e)
    ensures Valid(r)
    ensures name in r.employees.entries
    ensures r.employees.entries[name].hourlyRate == hourlyRate
    ensures r.employees.entries[name].totalHours == regular + ot + dt
    ensures r.employees.entries[name].regularHours == regular
    ensures r.employees.entries[name].otHours == ot && r.employees.entries[name].dtHours == dt
    ensures r.employees.entries[name].isHelper == isHelper
    ensures r.employees.entries[name].isExcluded == isExcluded
    ensures forall n :: n in e.employees.entries && n != name ==> n in r.employees.entries && r.employees.entries[n] == e.employees.entries[n]
    ensures r.units == e.units && r.commissionRates == e.commissionRates
  {
    var staff := Staff(hourlyRate, regular, ot, dt, regular + ot + dt, isHelper, isExcluded);
    e.(employees := e.employees.Put(name, staff))
  }

  /** A registered helper/apprentice or payroll-excluded employee. */
  predicate Barred(e: Engine, employee: string) {
    employee in e.employees.entries
    && (e.employees.entries[employee].isHelper || e.employees.entries[employee].isExcluded)
  }

  /** The unit exists and has a rate card. */
  predicate Priced(e: Engine, unit: string) {
    unit in e.units.entries && unit in e.commissionRates
  }

  /** `rates.get(key, 0)` */
  function RateOf(card: RateCard, key: string): real {
    if key in card then card[key] else 0.0
  }

  /** The unrounded commission of one role: revenue × rate / 100. */
  function RoleBase(e: Engine, unit: string, key: string): real
    requires Priced(e, unit)
  {
    e.units.entries[unit].revenue * (RateOf(e.commissionRates[unit], key) / 100.0)
  }

  /** Commission of the single person holding a role (lead generator or
      seller) on a unit. */
  function RoleCommission(e: Engine, unit: string, employee: string, holder: Option<string>, key: string): (c: real)
    requires Priced(e, unit)
    ensures Barred(e, employee) || holder != Some(employee) ==> c == 0.0
    ensures !Barred(e, employee) && holder == Some(employee) ==> NearestCentHalfUp(c, RoleBase(e, unit, key))
  {
    if Barred(e, employee) then 0.0
    else if holder != Some(employee) then 0.0
    else
      CentsHalfUp(RoleBase(e, unit, key))
  }

  /** Lead-generation commission. */
  function LeadGenCommission(e: Engine, unit: string, employee: string): (c: real)
    ensures !Priced(e, unit) || Barred(e, employee) ==> c == 0.0
    ensures Priced(e, unit) && e.units.entries[unit].leadGenBy != Some(employee) ==> c == 0.0
    ensures Priced(e, unit) && !Barred(e, employee) && e.units.entries[unit].leadGenBy == Some(employee)
      ==> NearestCentHalfUp(c, RoleBase(e, unit, LeadKey))
  {
    if !Priced(e, unit) then 0.0
    else RoleCommission(e, unit, employee, e.units.entries[unit].leadGenBy, LeadKey)
  }

  /** Sales commission. */
  function SalesCommission(e: Engine, unit: string, employee: string): (c: real)
    ensures !Priced(e, unit) || Barred(e, employee) ==> c == 0.0
    ensures Priced(e, unit) && e.units.entries[unit].soldBy != Some(employee) ==> c == 0.0
    ensures Priced(e, unit) && !Barred(e, employee) && e.units.entries[unit].soldBy == Some(employee)
      ==> NearestCentHalfUp(c, RoleBase(e, unit, SalesKey))
  {
    if !Priced(e, unit) then 0.0
    else RoleCommission(e, unit, employee, e.units.entries[unit].soldBy, SalesKey)
  }

  /** The assigned technicians who share the work-done commission: every
      assignee that is not a registered helper or excluded employee, in the
      assignment order, repeats included. */
  function EligibleTechs(e: Engine, techs: seq<string>): (r: seq<string>)
    ensures |r| <= |techs|
    ensures forall t :: t in r <==> t in techs && !Barred(e, t)
  {
    if |techs| == 0 then []
    else
      var rest := EligibleTechs(e, techs[1..]);
      assert forall t :: t in techs <==> t == techs[0] || t in techs[1..];
      if Barred(e, techs[0]) then rest else [techs[0]] + rest
  }

  /** Work-done commission: the unit's revenue × rate shared equally by the
      eligible technicians, each share quantized half-up. */
  function WorkDoneCommission(e: Engine, unit: string, employee: string): (c: real)
    ensures !Priced(e, unit) || Barred(e, employee) ==> c == 0.0
    ensures Priced(e, unit) && employee !in e.units.entries[unit].assignedTechs ==> c == 0.0
    ensures Priced(e, unit) && |EligibleTechs(e, e.units.entries[unit].assignedTechs)| == 0 ==> c == 0.0
    ensures Priced(e, unit) && !Barred(e, employee) && employee in e.units.entries[unit].assignedTechs
      ==> var n := |EligibleTechs(e, e.units.entries[unit].assignedTechs)|;
          n > 0 && NearestCentHalfUp(c, RoleBase(e, unit, WorkKey) / n as real)
  {
    if !Priced(e, unit) || Barred(e, employee) then 0.0
    else
      var techs := e.units.entries[unit].assignedTechs;
      if employee !in techs then 0.0
      else
        var eligible := EligibleTechs(e, techs);
        assert employee in eligible;
        CentsHalfUp(RoleBase(e, unit, WorkKey) / |eligible| as real)
  }

  /** Helpers/apprentices and payroll-excluded employees earn nothing of any
      commission type on any unit. */
  lemma BarredEarnsNothing(e: Engine, unit: string, employee: string)
    requires Barred(e, employee)
    ensures LeadGenCommission(e, unit, employee) == 0.0
    ensures SalesCommission(e, unit, employee) == 0.0
    ensures WorkDoneCommission(e, unit, employee) == 0.0
  {
  }

  /** Every eligible technician of a unit receives the same work-done amount,
      whichever of them asks. */
  lemma WorkDoneEqualShares(e: Engine, unit: string, a: string, b: string)
    requires Priced(e, unit)
    requires a in EligibleTechs(e, e.units.entries[unit].assignedTechs)
    requires b in EligibleTechs(e, e.units.entries[unit].assignedTechs)
    ensures WorkDoneCommission(e, unit, a) == WorkDoneCommission(e, unit, b)
  {
  }

  /** The divisor counts unregistered assignees as eligible and leaves out
      registered helpers and excluded staff. */
  lemma WorkDoneDivisor(e: Engine, techs: seq<string>, t: string)
    requires t in techs
    ensures t !in e.employees.entries ==> t in EligibleTechs(e, techs)
    ensures Barred(e, t) ==> t !in EligibleTechs(e, techs)
  {
  }

  /** The eligible shares add up to the unit's work-done pool to within half
      a cent per share. */
  lemma WorkDoneSharesCoverPool(e: Engine, unit: string, t: string, n: real, pool: real, share: real)
    requires Priced(e, unit)
    requires t in EligibleTechs(e, e.units.entries[unit].assignedTechs)
    requires n == |EligibleTechs(e, e.units.entries[unit].assignedTechs)| as real
    requires pool == RoleBase(e, unit, WorkKey) && share == WorkDoneCommission(e, unit, t)
    ensures -0.005 * n <= n * share - pool <= 0.005 * n
  {
    var techs := e.units.entries[unit].assignedTechs;
    assert t in techs && !Barred(e, t);
    ShareBound(n, pool, share);
  }

  lemma ShareBound(n: real, pool: real, c: real)
    requires n > 0.0 && -0.005 <= c - pool / n <= 0.005
    ensures -0.005 * n <= n * c - pool <= 0.005 * n
  {
    var d := c - pool / n;
    assert n * (pool / n) == pool;
    assert n * c - pool == n * d;
    Pay.MulNonNegative(n, 0.005 - d);
    Pay.MulNonNegative(n, d + 0.005);
  }

  /** One unit's line in an employee's commission breakdown. */
  datatype Detail = Detail(unit: string, lead: real, sales: real, workDone: real, unitTotal: real)

  datatype Breakdown = Breakdown(
    lead: real,
    sales: real,
    workDone: real,
    total: real,
    details: seq<Detail>,
    isHelper: bool,
    isExcluded: bool)

  function UnitLine(e: Engine, unit: string, employee: string): (d: Detail)
    ensures d.unitTotal == d.lead + d.sales + d.workDone
  {
    var l := LeadGenCommission(e, unit, employee);
    var s := SalesCommission(e, unit, employee);
    var w := WorkDoneCommission(e, unit, employee);
    Detail(unit, l, s, w, l + s + w)
  }

  /** The units, in order, on which the employee earns a positive total. */
  function PayingUnits(e: Engine, employee: string, units: seq<string>): (r: seq<string>)
    ensures forall u :: u in r <==> u in units && UnitLine(e, u, employee).unitTotal > 0.0
    decreases |units|
  {
    if |units| == 0 then []
    else
      var rest := PayingUnits(e, employee, units[..|units| - 1]);
      var u := units[|units| - 1];
      assert forall v :: v in units <==> v in units[..|units| - 1] || v == u;
      if UnitLine(e, u, employee).unitTotal > 0.0 then rest + [u] else rest
  }

  /** The lead-generation commission of `employee` summed over `units`. */
  function LeadOver(e: Engine, employee: string, units: seq<string>): real
    decreases |units|
  {
    if |units| == 0 then 0.0
    else LeadOver(e, employee, units[..|units| - 1]) + LeadGenCommission(e, units[|units| - 1], employee)
  }

  /** The sales commission of `employee` summed over `units`. */
  function SalesOver(e: Engine, employee: string, units: seq<string>): real
    decreases |units|
  {
    if |units| == 0 then 0.0
    else SalesOver(e, employee, units[..|units| - 1]) + SalesCommission(e, units[|units| - 1], employee)
  }

  /** The work-done commission of `employee` summed over `units`. */
  function WorkOver(e: Engine, employee: string, units: seq<string>): real
    decreases |units|
  {
    if |units| == 0 then 0.0
    else WorkOver(e, employee, units[..|units| - 1]) + WorkDoneCommission(e, units[|units| - 1], employee)
  }

  /** Running totals over `units`, in order, with a detail row for every
      paying unit. */
  function Accumulate(e: Engine, employee: string, units: seq<string>): (b: Breakdown)
    ensures b.lead == LeadOver(e, employee, units)
    ensures b.sales == SalesOver(e, employee, units)
    ensures b.workDone == WorkOver(e, employee, units)
    ensures |b.details| == |PayingUnits(e, employee, units)|
    ensures forall i :: 0 <= i < |b.details| ==> b.details[i] == UnitLine(e, PayingUnits(e, employee, units)[i], employee)
    decreases |units|
  {
    if |units| == 0 then Breakdown(0.0, 0.0, 0.0, 0.0, [], false, false)
    else
      var acc := Accumulate(e, employee, units[..|units| - 1]);
      var u := units[|units| - 1];
      var line := UnitLine(e, u, employee);
      var details := if line.unitTotal > 0.0 then acc.details + [line] else acc.details;
      Breakdown(acc.lead + line.lead, acc.sales + line.sales, acc.workDone + line.workDone, 0.0, details, false, false)
  }

  /** An employee's commission across all units. */
  function TotalCommission(e: Engine, employee: string): (b: Breakdown)
    ensures employee in e.employees.entries && e.employees.entries[employee].isHelper
      ==> b == Breakdown(0.0, 0.0, 0.0, 0.0, [], true, false)
    ensures employee in e.employees.entries && !e.employees.entries[employee].isHelper && e.employees.entries[employee].isExcluded
      ==> b == Breakdown(0.0, 0.0, 0.0, 0.0, [], false, true)
    ensures !Barred(e, employee) ==> b.total == b.lead + b.sales + b.workDone && !b.isHelper && !b.isExcluded
    ensures !Barred(e, employee) ==> b.lead == LeadOver(e, employee, e.units.order)
                                     && b.sales == SalesOver(e, employee, e.units.order)
                                     && b.workDone == WorkOver(e, employee, e.units.order)
    ensures !Barred(e, employee) ==> |b.details| == |PayingUnits(e, employee, e.units.order)|
    ensures !Barred(e, employee) ==>
      (forall i :: 0 <= i < |b.details| ==> b.details[i] == UnitLine(e, PayingUnits(e, employee, e.units.order)[i], employee))
  {
    if employee in e.employees.entries && e.employees.entries[employee].isHelper then
      Breakdown(0.0, 0.0, 0.0, 0.0, [], true, false)
    else if employee in e.employees.entries && e.employees.entries[employee].isExcluded then
      Breakdown(0.0, 0.0, 0.0, 0.0, [], false, true)
    else
      var acc := Accumulate(e, employee, e.units.order);
      acc.(total := acc.lead + acc.sales + acc.workDone)
  }

  function SumUnitTotals(details: seq<Detail>): real {
    if |details| == 0 then 0.0 else SumUnitTotals(details[..|details| - 1]) + details[|details| - 1].unitTotal
  }

  predicate NonNegativeInputs(e: Engine) {
    (forall u :: u in e.units.entries ==> e.units.entries[u].revenue >= 0.0)
    && (forall u, k :: u in e.commissionRates && k in e.commissionRates[u] ==> e.commissionRates[u][k] >= 0.0)
  }

  lemma UnitLineNonNegative(e: Engine, unit: string, employee: string)
    requires NonNegativeInputs(e)
    ensures UnitLine(e, unit, employee).lead >= 0.0
    ensures UnitLine(e, unit, employee).sales >= 0.0
    ensures UnitLine(e, unit, employee).workDone >= 0.0
  {
    if Priced(e, unit) {
      var job := e.units.entries[unit];
      var card := e.commissionRates[unit];
      Pay.MulNonNegative(job.revenue, RateOf(card, LeadKey) / 100.0);
      Pay.MulNonNegative(job.revenue, RateOf(card, SalesKey) / 100.0);
      Pay.MulNonNegative(job.revenue, RateOf(card, WorkKey) / 100.0);
    }
  }

  lemma {:induction false} AccumulateDetailsSum(e: Engine, employee: string, units: seq<string>)
    requires NonNegativeInputs(e)
    ensures var b := Accumulate(e, employee, units);
            SumUnitTotals(b.details) == b.lead + b.sales + b.workDone
    decreases |units|
  {
    if |units| > 0 {
      AccumulateDetailsSum(e, employee, units[..|units| - 1]);
      UnitLineNonNegative(e, units[|units| - 1], employee);
      var acc := Accumulate(e, employee, units[..|units| - 1]);
      var line := UnitLine(e, units[|units| - 1], employee);
      if line.unitTotal > 0.0 {
        assert (acc.details + [line])[..|acc.details|] == acc.details;
      }
    }
  }

  /** With non-negative revenues and rates, dropping the units that pay
      nothing loses nothing: the detail rows add up to the total. */
  lemma DetailsAddUpToTotal(e: Engine, employee: string)
    requires NonNegativeInputs(e)
    ensures SumUnitTotals(TotalCommission(e, employee).details) == TotalCommission(e, employee).total
  {
    if !Barred(e, employee) {
      AccumulateDetailsSum(e, employee, e.units.order);
    }
  }

  datatype Labor = Labor(regular: real, overtime: real, doubleTime: real, total: real)

  /** Labor cost of a registered employee, each part and the total
      quantized half-up separately. */
  function StaffLabor(s: Staff): (l: Labor)
    ensures NearestCentHalfUp(l.regular, s.regularHours * s.hourlyRate)
    ensures NearestCentHalfUp(l.overtime, s.otHours * s.hourlyRate * Pay.OvertimeMultiplier)
    ensures NearestCentHalfUp(l.doubleTime, s.dtHours * s.hourlyRate * Pay.DoubleTimeMultiplier)
    ensures NearestCentHalfUp(l.total, Pay.HourlyPay(s.hourlyRate, s.regularHours, s.otHours, s.dtHours))
  {
    Labor(CentsHalfUp(s.regularHours * s.hourlyRate),
          CentsHalfUp(s.otHours * s.hourlyRate * Pay.OvertimeMultiplier),
          CentsHalfUp(s.dtHours * s.hourlyRate * Pay.DoubleTimeMultiplier),
          CentsHalfUp(Pay.HourlyPay(s.hourlyRate, s.regularHours, s.otHours, s.dtHours)))
  }

  /** Labor cost by name: all zero for an unknown employee. */
  function LaborCost(e: Engine, employee: string): (l: Labor)
    ensures employee !in e.employees.entries ==> l == Labor(0.0, 0.0, 0.0, 0.0)
    ensures employee in e.employees.entries ==> l == StaffLabor(e.employees.entries[employee])
  {
    if employee !in e.employees.entries then Labor(0.0, 0.0, 0.0, 0.0)
    else StaffLabor(e.employees.entries[employee])
  }

  /** Because the parts and the total are rounded separately, the parts can
      disagree with the total by up to two cents; for example a rate of
      $0.01 with half an hour of regular time and half an hour of overtime
      gives parts 0.01 + 0.01 but a total of 0.01. */
  lemma LaborPartsNearTotal(e: Engine, employee: string)
    ensures var l := LaborCost(e, employee);
            -0.02 <= l.total - (l.regular + l.overtime + l.doubleTime) <= 0.02
  {
  }

  lemma LaborPartsExample()
    ensures var e := AddEmployee(NewEngine(), "Ann", 0.01, 0.5, 0.5, 0.0, false, false);
            var l := LaborCost(e, "Ann");
            l.regular == 0.01 && l.overtime == 0.01 && l.total == 0.01
  {
    var e := AddEmployee(NewEngine(), "Ann", 0.01, 0.5, 0.5, 0.0, false, false);
    var s := e.employees.entries["Ann"];
    assert s.hourlyRate == 0.01 && s.regularHours == 0.5 && s.otHours == 0.5 && s.dtHours == 0.0;
    CentsHalfUpCharacterized(0.01, 0.005);
    CentsHalfUpCharacterized(0.01, 0.0075);
    CentsHalfUpCharacterized(0.01, 0.0125);
  }

  datatype EmployeeLine = EmployeeLine(
    name: string,
    commission: real,
    laborCost: real,
    totalEarnings: real,
    breakdown: Breakdown)

  datatype Summary = Summary(
    totalRevenue: real,
    totalCommissions: real,
    totalLaborCost: real,
    employees: seq<EmployeeLine>,
    unitsCount: nat,
    employeesCount: nat,
    grossProfit: real,
    profitMargin: real)

  function RevenueOf(e: Engine, units: seq<string>): real
    requires forall i :: 0 <= i < |units| ==> units[i] in e.units.entries
  {
    if |units| == 0 then 0.0
    else RevenueOf(e, units[..|units| - 1]) + e.units.entries[units[|units| - 1]].revenue
  }

  /** One summary line per employee, in registration order. */
  function Lines(e: Engine, names: seq<string>): (r: seq<EmployeeLine>)
    ensures |r| == |names|
    ensures forall i :: 0 <= i < |r| ==>
      (r[i].name == names[i]
       && r[i].breakdown == TotalCommission(e, names[i])
       && r[i].commission == TotalCommission(e, names[i]).total
       && r[i].laborCost == LaborCost(e, names[i]).total
       && r[i].totalEarnings == r[i].commission + r[i].laborCost)
  {
    if |names| == 0 then []
    else
      var b := TotalCommission(e, names[0]);
      var labor := LaborCost(e, names[0]).total;
      [EmployeeLine(names[0], b.total, labor, b.total + labor, b)] + Lines(e, names[1..])
  }

  function SumCommissions(lines: seq<EmployeeLine>): real {
    if |lines| == 0 then 0.0 else SumCommissions(lines[..|lines| - 1]) + lines[|lines| - 1].commission
  }

  function SumLabor(lines: seq<EmployeeLine>): real {
    if |lines| == 0 then 0.0 else SumLabor(lines[..|lines| - 1]) + lines[|lines| - 1].laborCost
  }

  function SumEarnings(lines: seq<EmployeeLine>): real {
    if |lines| == 0 then 0.0 else SumEarnings(lines[..|lines| - 1]) + lines[|lines| - 1].totalEarnings
  }

  /** The overall summary: totals, gross profit and the profit margin in
      percent quantized half-up to one decimal place. */
  function CommissionSummary(e: Engine): (s: Summary)
    requires Valid(e)
    ensures s.unitsCount == |e.units.order| && s.employeesCount == |e.employees.order|
    ensures |s.employees| == |e.employees.order|
    ensures s.totalRevenue == RevenueOf(e, e.units.order)
    ensures s.employees == Lines(e, e.employees.order)
    ensures forall i :: 0 <= i < |s.employees| ==>
      (s.employees[i].name == e.employees.order[i]
       && s.employees[i].commission == TotalCommission(e, e.employees.order[i]).total
       && s.employees[i].laborCost == LaborCost(e, e.employees.order[i]).total
       && s.employees[i].totalEarnings == s.employees[i].commission + s.employees[i].laborCost)
    ensures s.totalCommissions == SumCommissions(s.employees) && s.totalLaborCost == SumLabor(s.employees)
    ensures s.grossProfit == s.totalRevenue - s.totalLaborCost - s.totalCommissions
    ensures s.totalRevenue > 0.0 ==> NearestTenthHalfUp(s.profitMargin, s.grossProfit / s.totalRevenue * 100.0)
    ensures s.totalRevenue <= 0.0 ==> s.profitMargin == 0.0
  {
    var revenue := RevenueOf(e, e.units.order);
    var lines := Lines(e, e.employees.order);
    var commissions := SumCommissions(lines);
    var labor := SumLabor(lines);
    var gross := revenue - labor - commissions;
    var margin := if revenue > 0.0 then TenthsHalfUp(gross / revenue * 100.0) else 0.0;
    Summary(revenue, commissions, labor, lines, |e.units.order|, |e.employees.order|, gross, margin)
  }

  lemma {:induction false} EarningsSplit(lines: seq<EmployeeLine>)
    requires forall i :: 0 <= i < |lines| ==> lines[i].totalEarnings == lines[i].commission + lines[i].laborCost
    ensures SumEarnings(lines) == SumCommissions(lines) + SumLabor(lines)
  {
    if |lines| > 0 {
      EarningsSplit(lines[..|lines| - 1]);
    }
  }

  /** Everything earned is accounted for: revenue = gross profit + the
      employees' total earnings. */
  lemma SummaryBalances(e: Engine)
    requires Valid(e)
    ensures var s := CommissionSummary(e);
            s.totalRevenue == s.grossProfit + SumEarnings(s.employees)
  {
    EarningsSplit(CommissionSummary(e).employees);
  }

  /** Names referenced by a unit: the lead generator and seller when they are
      non-empty, and every assigned technician. */
  function RefsOf(j: Job): seq<string> {
    (if j.leadGenBy.Some? && j.leadGenBy.value != "" then [j.leadGenBy.value] else [])
    + (if j.soldBy.Some? && j.soldBy.value != "" then [j.soldBy.value] else [])
    + j.assignedTechs
  }

  /** `n` is named by a job in one of its roles. */
  predicate Referenced(j: Job, n: string) {
    (j.leadGenBy == Some(n) && n != "") || (j.soldBy == Some(n) && n != "") || n in j.assignedTechs
  }

  lemma RefsOfReferenced(j: Job, n: string)
    ensures n in RefsOf(j) <==> Referenced(j, n)
  {
  }

  /** Everyone the job names is a registered employee. */
  ghost predicate JobRefsKnown(e: Engine, j: Job) {
    forall n :: Referenced(j, n) ==> n in e.employees.entries
  }

  predicate AllKnown(e: Engine, names: seq<string>) {
    forall k :: 0 <= k < |names| ==> names[k] in e.employees.entries
  }

  lemma JobRefsKnownIff(e: Engine, j: Job)
    ensures JobRefsKnown(e, j) <==> AllKnown(e, RefsOf(j))
  {
    forall n | Referenced(j, n) ensures n in RefsOf(j) { RefsOfReferenced(j, n); }
    forall n | n in RefsOf(j) ensures Referenced(j, n) { RefsOfReferenced(j, n); }
  }

  /** A setup the engine can run: rates, units and employees are all
      present, every unit has rates, and everyone a unit names is a
      registered employee. */
  ghost predicate SetupComplete(e: Engine) {
    |e.commissionRates| > 0 && |e.units.entries| > 0 && |e.employees.entries| > 0
    && (forall u :: u in e.units.entries ==> u in e.commissionRates)
    && (forall u :: u in e.units.entries ==> JobRefsKnown(e, e.units.entries[u]))
  }

  function Quoted(prefix: string, name: string, suffix: string): string {
    prefix + "'" + name + "'" + suffix
  }

  function UnpricedUnitErrors(e: Engine, units: seq<string>): (r: seq<string>)
    ensures |r| == 0 <==> forall i :: 0 <= i < |units| ==> units[i] in e.commissionRates
  {
    if |units| == 0 then []
    else
      var rest := UnpricedUnitErrors(e, units[1..]);
      if units[0] in e.commissionRates then rest
      else [Quoted("Business unit ", units[0], " has no commission rates configured")] + rest
  }

  function ReferencedNames(e: Engine, units: seq<string>): (r: seq<string>)
    requires forall i :: 0 <= i < |units| ==> units[i] in e.units.entries
    ensures AllKnown(e, r) <==> forall i :: 0 <= i < |units| ==> AllKnown(e, RefsOf(e.units.entries[units[i]]))
  {
    if |units| == 0 then []
    else
      var here := RefsOf(e.units.entries[units[0]]);
      var rest := ReferencedNames(e, units[1..]);
      assert forall i :: 1 <= i < |units| ==> units[i] == units[1..][i - 1];
      assert AllKnown(e, here + rest) <==> AllKnown(e, here) && AllKnown(e, rest) by {
        assert forall k :: 0 <= k < |here| ==> (here + rest)[k] == here[k];
        assert forall k :: 0 <= k < |rest| ==> (here + rest)[|here| + k] == rest[k];
      }
      here + rest
  }

  function MissingEmployeeErrors(e: Engine, names: seq<string>): (r: seq<string>)
    ensures |r| == 0 <==> AllKnown(e, names)
  {
    if |names| == 0 then []
    else
      var rest := MissingEmployeeErrors(e, names[1..]);
      assert AllKnown(e, names) <==> names[0] in e.employees.entries && AllKnown(e, names[1..]) by {
        assert forall k :: 1 <= k < |names| ==> names[k] == names[1..][k - 1];
      }
      if names[0] in e.employees.entries then rest
      else [Quoted("Employee ", names[0], " referenced in business units but not in employee list")] + rest
  }

  datatype Validation = Validation(valid: bool, errors: seq<string>)

  /** The setup check: one message per problem, valid iff there are none.
      (The source walks the referenced names as a Python set, so the order
      of those messages is unspecified; here it is first-mention order.) */
  function ValidateSetup(e: Engine): (v: Validation)
    requires Valid(e)
    ensures v.valid <==> |v.errors| == 0
    ensures v.valid <==> SetupComplete(e)
  {
    var basics :=
      (if |e.commissionRates| == 0 then ["No commission rates configured"] else [])
      + (if |e.units.order| == 0 then ["No business units added"] else [])
      + (if |e.employees.order| == 0 then ["No employees added"] else []);
    var refs := Seqs.Dedup(ReferencedNames(e, e.units.order));
    var errors := basics + UnpricedUnitErrors(e, e.units.order) + MissingEmployeeErrors(e, refs);
    SetupCompleteIff(e);
    Validation(|errors| == 0, errors)
  }

  lemma NonEmptyOrder<V>(d: Dict<V>)
    requires d.Valid()
    ensures |d.order| > 0 <==> |d.entries| > 0
  {
    if |d.order| > 0 {
      assert d.order[0] in d.entries;
    }
    if |d.entries| > 0 {
      var u :| u in d.entries;
      assert u in d.order;
    }
  }

  lemma DedupKeepsKnown(e: Engine, names: seq<string>)
    ensures AllKnown(e, Seqs.Dedup(names)) <==> AllKnown(e, names)
  {
    var d := Seqs.Dedup(names);
    if AllKnown(e, d) {
      forall k | 0 <= k < |names| ensures names[k] in e.employees.entries {
        assert names[k] in d;
      }
    }
    if AllKnown(e, names) {
      forall k | 0 <= k < |d| ensures d[k] in e.employees.entries {
        assert d[k] in names;
      }
    }
  }

  lemma RefsPartIff(e: Engine)
    requires Valid(e)
    ensures (forall u :: u in e.units.entries ==> JobRefsKnown(e, e.units.entries[u]))
      <==> AllKnown(e, Seqs.Dedup(ReferencedNames(e, e.units.order)))
  {
    var units := e.units.order;
    DedupKeepsKnown(e, ReferencedNames(e, units));
    forall u | u in e.units.entries ensures JobRefsKnown(e, e.units.entries[u]) <==> AllKnown(e, RefsOf(e.units.entries[u])) {
      JobRefsKnownIff(e, e.units.entries[u]);
    }
    assert (forall u :: u in e.units.entries ==> AllKnown(e, RefsOf(e.units.entries[u])))
      <==> (forall i :: 0 <= i < |units| ==> AllKnown(e, RefsOf(e.units.entries[units[i]])));
  }

  lemma SetupCompleteIff(e: Engine)
    requires Valid(e)
    ensures SetupComplete(e) <==>
      (|e.commissionRates| > 0 && |e.units.order| > 0 && |e.employees.order| > 0
       && |UnpricedUnitErrors(e, e.units.order)| == 0
       && |MissingEmployeeErrors(e, Seqs.Dedup(ReferencedNames(e, e.units.order)))| == 0)
  {
    var units := e.units.order;
    NonEmptyOrder(e.units);
    NonEmptyOrder(e.employees);
    RefsPartIff(e);
    assert (forall u :: u in e.units.entries ==> u in e.commissionRates)
      <==> (forall i :: 0 <= i < |units| ==> units[i] in e.commissionRates);
  }

  /** A unit "Electrical" with a 45% work-done rate and $4000 of revenue,
      worked by "Tech1" and a second technician. */
  function ElectricalJob(second: string, secondIsHelper: bool): Engine {
    var e := NewEngine();
    var e := AddEmployee(e, "Tech1", 25.0, 40.0, 0.0, 0.0, false, false);
    var e := AddEmployee(e, second, 20.0, 40.0, 0.0, 0.0, secondIsHelper, false);
    var e := SetCommissionRates(e, map["Electrical" := map[WorkKey := 45.0]]);
    AddBusinessUnit(e, "Electrical", 4000.0, None, None, ["Tech1", second])
  }

  /** A helper on the job takes no share and does not dilute the others:
      the one eligible technician gets all of 4000 × 45% = 1800.00. */
  lemma HelperDoesNotDiluteExample()
    ensures WorkDoneCommission(ElectricalJob("Tech2", true), "Electrical", "Tech1") == 1800.0
    ensures WorkDoneCommission(ElectricalJob("Tech2", true), "Electrical", "Tech2") == 0.0
  {
    var e := ElectricalJob("Tech2", true);
    assert Barred(e, "Tech2") && !Barred(e, "Tech1");
    assert EligibleTechs(e, ["Tech1", "Tech2"]) == ["Tech1"];
    assert RoleBase(e, "Electrical", WorkKey) == 1800.0;
  }

  /** When no assignee is registered as staff, all of them share. */
  lemma {:induction false} UnregisteredAllEligible(e: Engine, techs: seq<string>)
    requires forall t :: t in techs ==> t !in e.employees.entries
    ensures EligibleTechs(e, techs) == techs
  {
    if |techs| > 0 {
      UnregisteredAllEligible(e, techs[1..]);
    }
  }

  /** Two eligible technicians split the 1800.00 pool into 900.00 each. */
  lemma EqualSplitExample()
    ensures WorkDoneCommission(ElectricalJob("Tech3", false), "Electrical", "Tech1") == 900.0
    ensures WorkDoneCommission(ElectricalJob("Tech3", false), "Electrical", "Tech3") == 900.0
  {
    var e := ElectricalJob("Tech3", false);
    assert !Barred(e, "Tech3") && !Barred(e, "Tech1");
    assert EligibleTechs(e, ["Tech1", "Tech3"]) == ["Tech1", "Tech3"];
    assert RoleBase(e, "Electrical", WorkKey) == 1800.0;
  }

  /** Shares are rounded one by one, so the paid shares need not add up to
      the pool: $1.00 split three ways pays 0.33 each, 0.99 in all. */
  lemma RoundedSharesExample()
    ensures var e := AddBusinessUnit(SetCommissionRates(NewEngine(), map["U" := map[WorkKey := 1.0]]),
                                     "U", 100.0, None, None, ["A", "B", "C"]);
            WorkDoneCommission(e, "U", "A") == 0.33
  {
    var e := AddBusinessUnit(SetCommissionRates(NewEngine(), map["U" := map[WorkKey := 1.0]]),
                             "U", 100.0, None, None, ["A", "B", "C"]);
    UnregisteredAllEligible(e, ["A", "B", "C"]);
    assert RoleBase(e, "U", WorkKey) == 1.0;
    CentsHalfUpCharacterized(0.33, 1.0 / 3.0);
  }
}
