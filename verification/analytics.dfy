/** The analytics screens' arithmetic: the performance metrics drawn from
    a calculator's state, the three-band status of a metric, the
    recommendations the metrics call for, and the key performance
    indicators of a commission summary. */
module Analytics {
  import opened Wrappers
  import Decimals
  import EmployeeModel
  import UnitModel
  import PoolCalculator
  import Dicts

  type Employee = EmployeeModel.Employee
  type BusinessUnit = UnitModel.BusinessUnit

  // ---- totals over the calculator ----------------------------------------------------

  function RevenueTotal(ids: seq<string>, units: map<string, BusinessUnit>): real
    requires forall id :: id in ids ==> id in units
  {
    if ids == [] then 0.0 else units[ids[0]].revenue + RevenueTotal(ids[1..], units)
  }

  function RateTotal(ids: seq<string>, units: map<string, BusinessUnit>): real
    requires forall id :: id in ids ==> id in units
  {
    if ids == [] then 0.0 else units[ids[0]].commissionRate + RateTotal(ids[1..], units)
  }

  function LaborTotal(ids: seq<string>, employees: map<string, Employee>): real
    requires forall id :: id in ids ==> id in employees
  {
    if ids == [] then 0.0 else EmployeeModel.TotalLaborCost(employees[ids[0]]) + LaborTotal(ids[1..], employees)
  }

  function HoursTotal(ids: seq<string>, employees: map<string, Employee>): real
    requires forall id :: id in ids ==> id in employees
  {
    if ids == [] then 0.0 else EmployeeModel.TotalHours(employees[ids[0]]) + HoursTotal(ids[1..], employees)
  }

  /** Overtime and double-time hours together. */
  function ExtraHoursTotal(ids: seq<string>, employees: map<string, Employee>): real
    requires forall id :: id in ids ==> id in employees
  {
    if ids == [] then 0.0
    else employees[ids[0]].otHours + employees[ids[0]].dtHours + ExtraHoursTotal(ids[1..], employees)
  }

  /** The employees with hours on the books. */
  function WorkingCount(ids: seq<string>, employees: map<string, Employee>): (n: nat)
    requires forall id :: id in ids ==> id in employees
    ensures n <= |ids|
  {
    if ids == [] then 0
    else (if EmployeeModel.TotalHours(employees[ids[0]]) > 0.0 then 1 else 0) + WorkingCount(ids[1..], employees)
  }

  /** The calculator's records, each stored in order under its key. */
  ghost predicate Listed(c: PoolCalculator.Calculator) {
    c.employees.Valid() && c.units.Valid()
  }

  datatype Performance = Performance(
    operationalEfficiency: real, employeeUtilization: real, commissionEfficiency: real,
    revenuePerEmployee: real, avgCommissionRate: real, laborCostRatio: real,
    overtimeRatio: real, profitPerHour: real, commissionRoi: real)

  /** A ratio whose denominator may not be positive: zero then, the
      quotient otherwise. */
  function Ratio(num: real, den: real): (r: real)
    ensures den <= 0.0 ==> r == 0.0
    ensures den > 0.0 ==> r * den == num
  {
    if den > 0.0 then num / den else 0.0
  }

  /** A part of a positive whole is at most all of it. */
  lemma RatioAtMostOne(num: real, den: real)
    requires 0.0 <= num <= den && den > 0.0
    ensures 0.0 <= Ratio(num, den) <= 1.0
  {
  }

  /** `calculate_performance_metrics`: every ratio is 0 when its
      denominator is not positive, and otherwise the quotient it names. */
  function PerformanceMetrics(c: PoolCalculator.Calculator): (m: Performance)
    requires Listed(c)
    ensures var revenue := RevenueTotal(c.units.order, c.units.entries);
      var labor := LaborTotal(c.employees.order, c.employees.entries);
      var commission := PoolCalculator.PaidTotal(c.commissions);
      var hours := HoursTotal(c.employees.order, c.employees.entries);
      var working := WorkingCount(c.employees.order, c.employees.entries);
      m.operationalEfficiency == Ratio(revenue - labor - commission, revenue) * 100.0
      && m.commissionEfficiency == Ratio(commission, revenue) * 100.0
      && m.laborCostRatio == Ratio(labor, revenue) * 100.0
      && m.employeeUtilization == Ratio(working as real, |c.employees.order| as real) * 100.0
      && m.revenuePerEmployee == Ratio(revenue, working as real)
      && m.avgCommissionRate == Ratio(RateTotal(c.units.order, c.units.entries), |c.units.order| as real)
      && m.overtimeRatio == Ratio(ExtraHoursTotal(c.employees.order, c.employees.entries), hours) * 100.0
      && m.profitPerHour == Ratio(revenue - labor - commission, hours)
      && m.commissionRoi == Ratio(revenue, commission)
  {
    assert forall id :: id in c.units.order ==> id in c.units.entries;
    assert forall id :: id in c.employees.order ==> id in c.employees.entries;
    var revenue := RevenueTotal(c.units.order, c.units.entries);
    var labor := LaborTotal(c.employees.order, c.employees.entries);
    var commission := PoolCalculator.PaidTotal(c.commissions);
    var hours := HoursTotal(c.employees.order, c.employees.entries);
    var working := WorkingCount(c.employees.order, c.employees.entries);
    Performance(
      Ratio(revenue - labor - commission, revenue) * 100.0,
      Ratio(working as real, |c.employees.order| as real) * 100.0,
      Ratio(commission, revenue) * 100.0,
      Ratio(revenue, working as real),
      Ratio(RateTotal(c.units.order, c.units.entries), |c.units.order| as real),
      Ratio(labor, revenue) * 100.0,
      Ratio(ExtraHoursTotal(c.employees.order, c.employees.entries), hours) * 100.0,
      Ratio(revenue - labor - commission, hours),
      Ratio(revenue, commission))
  }

  /** The error Python raises for a `Decimal` divided by a `float`. */
  const MixedDivision := "unsupported operand type(s) for /: 'decimal.Decimal' and 'float'"

  /** `calculate_performance_metrics` as written: the overtime ratio divides
      the `Decimal` sum of overtime and double-time hours by a `float`, which
      Python refuses, so the metrics fail whenever some hours are booked;
      without hours every metric is the corrected one. */
  function PerformanceMetricsAsWritten(c: PoolCalculator.Calculator): (r: Result<Performance>)
    requires Listed(c)
    ensures r.Err? <==> HoursTotal(c.employees.order, c.employees.entries) > 0.0
    ensures r.Err? ==> r.error == MixedDivision
    ensures r.Ok? ==> r.value == PerformanceMetrics(c) && r.value.overtimeRatio == 0.0 && r.value.profitPerHour == 0.0
  {
    assert forall id :: id in c.employees.order ==> id in c.employees.entries;
    if HoursTotal(c.employees.order, c.employees.entries) > 0.0 then Err(MixedDivision)
    else Ok(PerformanceMetrics(c))
  }

  /** One employee with one regular hour: the dashboard's metrics fail as
      written, while the corrected overtime ratio is 0%. */
  lemma OneBookedHourRaises()
    ensures var e := EmployeeModel.Employee("e1", "Ann", 20.0, 1.0, 0.0, 0.0, true);
      var c := PoolCalculator.Calculator(Dicts.Dict(["e1"], map["e1" := e]), Dicts.EmptyDict(), [], Dicts.EmptyDict());
      Listed(c) && PerformanceMetricsAsWritten(c).Err? && PerformanceMetrics(c).overtimeRatio == 0.0
  {
    var e := EmployeeModel.Employee("e1", "Ann", 20.0, 1.0, 0.0, 0.0, true);
    var c := PoolCalculator.Calculator(Dicts.Dict(["e1"], map["e1" := e]), Dicts.EmptyDict(), [], Dicts.EmptyDict());
    assert HoursTotal(c.employees.order, c.employees.entries) == 1.0;
    assert ExtraHoursTotal(c.employees.order, c.employees.entries) == 0.0;
  }

  /** With revenue on the books, what is left, the commissions and the
      labor make up the whole revenue between them. */
  lemma SharesOfRevenue(c: PoolCalculator.Calculator)
    requires Listed(c)
    requires RevenueTotal(c.units.order, c.units.entries) > 0.0
    ensures var m := PerformanceMetrics(c);
      m.operationalEfficiency + m.commissionEfficiency + m.laborCostRatio == 100.0
  {
    var revenue := RevenueTotal(c.units.order, c.units.entries);
    var labor := LaborTotal(c.employees.order, c.employees.entries);
    var commission := PoolCalculator.PaidTotal(c.commissions);
    var a := Ratio(revenue - labor - commission, revenue);
    var b := Ratio(commission, revenue);
    var d := Ratio(labor, revenue);
    assert a * revenue == revenue - labor - commission;
    assert b * revenue == commission;
    assert d * revenue == labor;
    assert (a + b + d) * revenue == a * revenue + b * revenue + d * revenue;
    assert a + b + d == 1.0;
  }

  /** Utilization is a percentage. */
  lemma UtilizationBounded(c: PoolCalculator.Calculator)
    requires Listed(c)
    ensures 0.0 <= PerformanceMetrics(c).employeeUtilization <= 100.0
  {
    assert forall id :: id in c.employees.order ==> id in c.employees.entries;
    var working := WorkingCount(c.employees.order, c.employees.entries);
    if |c.employees.order| > 0 {
      RatioAtMostOne(working as real, |c.employees.order| as real);
    }
  }

  /** Overtime and double time are part of the hours worked. */
  lemma {:induction false} ExtraHoursWithin(ids: seq<string>, employees: map<string, Employee>)
    requires forall id :: id in ids ==> id in employees && employees[id].regularHours >= 0.0
                                         && employees[id].otHours >= 0.0 && employees[id].dtHours >= 0.0
    ensures 0.0 <= ExtraHoursTotal(ids, employees) <= HoursTotal(ids, employees)
  {
    if ids != [] {
      ExtraHoursWithin(ids[1..], employees);
    }
  }

  /** With well-formed records the overtime ratio is a percentage. */
  lemma OvertimeRatioBounded(c: PoolCalculator.Calculator)
    requires Listed(c)
    requires forall id :: id in c.employees.entries ==> EmployeeModel.WellFormed(c.employees.entries[id])
    ensures 0.0 <= PerformanceMetrics(c).overtimeRatio <= 100.0
  {
    assert forall id :: id in c.employees.order ==> id in c.employees.entries;
    ExtraHoursWithin(c.employees.order, c.employees.entries);
    var extra := ExtraHoursTotal(c.employees.order, c.employees.entries);
    var hours := HoursTotal(c.employees.order, c.employees.entries);
    if hours > 0.0 {
      RatioAtMostOne(extra, hours);
    }
  }

  // ---- metric status ---------------------------------------------------------------

  datatype Status = Good | Fair | Poor

  /** `get_metric_status`: at or beyond the good threshold is good, at or
      beyond the warning threshold fair, and poor otherwise; `inverse`
      reads smaller values as better. */
  function MetricStatus(value: real, warning: real, good: real, inverse: bool): (s: Status)
    ensures !inverse ==> (s == Good <==> value >= good)
    ensures !inverse ==> (s == Poor <==> value < good && value < warning)
    ensures inverse ==> (s == Good <==> value <= good)
    ensures inverse ==> (s == Poor <==> value > good && value > warning)
  {
    if inverse then
      (if value <= good then Good else if value <= warning then Fair else Poor)
    else
      (if value >= good then Good else if value >= warning then Fair else Poor)
  }

  function Rank(s: Status): nat {
    match s
    case Poor => 0
    case Fair => 1
    case Good => 2
  }

  /** Reading smaller values as better is reading the negated values the
      usual way. */
  lemma InverseIsNegation(value: real, warning: real, good: real)
    ensures MetricStatus(value, warning, good, true) == MetricStatus(-value, -warning, -good, false)
  {
  }

  /** A larger value never gets a worse status. */
  lemma StatusMonotone(a: real, b: real, warning: real, good: real)
    requires a <= b
    ensures Rank(MetricStatus(a, warning, good, false)) <= Rank(MetricStatus(b, warning, good, false))
  {
  }

  // ---- recommendations -------------------------------------------------------------

  const LowEfficiency := "Operational efficiency is low. Consider reviewing labor costs and commission rates."
  const HighOvertime := "High overtime ratio detected. Consider hiring additional staff or redistributing workload."
  const LowUtilization := "Employee utilization could be improved. Review work allocation and scheduling."
  const HighCommission := "Commission rates may be high. Analyze ROI by business unit for optimization opportunities."
  const LowProfit := "Profit per hour is below target. Focus on high-margin business units or improve efficiency."
  const AllGood := "All metrics are within acceptable ranges. Keep up the good work!"

  /** The thresholds, each as the advice it triggers. */
  function Fired(m: Performance): (r: seq<string>)
    ensures |r| <= 5
    ensures LowEfficiency in r <==> m.operationalEfficiency < 60.0
    ensures HighOvertime in r <==> m.overtimeRatio > 15.0
    ensures LowUtilization in r <==> m.employeeUtilization < 75.0
    ensures HighCommission in r <==> m.commissionEfficiency > 15.0
    ensures LowProfit in r <==> m.profitPerHour < 75.0
    ensures AllGood !in r
  {
    (if m.operationalEfficiency < 60.0 then [LowEfficiency] else [])
    + (if m.overtimeRatio > 15.0 then [HighOvertime] else [])
    + (if m.employeeUtilization < 75.0 then [LowUtilization] else [])
    + (if m.commissionEfficiency > 15.0 then [HighCommission] else [])
    + (if m.profitPerHour < 75.0 then [LowProfit] else [])
  }

  /** `generate_recommendations` (the leading emoji left out): the advice
      of every threshold crossed, or the all-good message alone when none
      is. */
  function Recommendations(m: Performance): (r: seq<string>)
    ensures r != []
    ensures r == [AllGood] <==> (m.operationalEfficiency >= 60.0 && m.overtimeRatio <= 15.0
                                 && m.employeeUtilization >= 75.0 && m.commissionEfficiency <= 15.0
                                 && m.profitPerHour >= 75.0)
    ensures r != [AllGood] ==> r == Fired(m)
  {
    var fired := Fired(m);
    if fired == [] then [AllGood] else fired
  }

  // ---- key performance indicators ------------------------------------------------

  /** The commission summary a KPI calculation reads; any figure may be
      absent. */
  datatype Summary = Summary(
    totalRevenue: Option<real>, totalCommissions: Option<real>, totalLaborCost: Option<real>,
    grossProfit: Option<real>, profitMargin: Option<real>, employeesCount: Option<int>)

  datatype Kpis = Kpis(
    totalRevenue: real, totalCommissions: real, totalLaborCost: real, grossProfit: real,
    profitMargin: real, commissionRate: real, laborEfficiency: real, revenuePerEmployee: real)

  /** `calculate_kpis`: absent figures are 0; the derived ratios are
      quantized to cents (half-even) and stay 0 unless their denominator
      is positive, the revenue per employee also needing a positive
      revenue. */
  function CalculateKpis(s: Summary): (k: Kpis)
    ensures k.totalRevenue == s.totalRevenue.GetOr(0.0) && k.totalCommissions == s.totalCommissions.GetOr(0.0)
    ensures k.totalLaborCost == s.totalLaborCost.GetOr(0.0) && k.grossProfit == s.grossProfit.GetOr(0.0)
    ensures k.profitMargin == s.profitMargin.GetOr(0.0)
    ensures k.totalRevenue <= 0.0 ==> k.commissionRate == 0.0 && k.revenuePerEmployee == 0.0
    ensures k.totalRevenue > 0.0 ==> Decimals.NearestCentHalfEven(k.commissionRate, k.totalCommissions / k.totalRevenue * 100.0)
    ensures s.employeesCount.GetOr(0) <= 0 ==> k.revenuePerEmployee == 0.0
    ensures k.totalRevenue > 0.0 && s.employeesCount.GetOr(0) > 0 ==>
      Decimals.NearestCentHalfEven(k.revenuePerEmployee, k.totalRevenue / s.employeesCount.value as real)
    ensures k.totalLaborCost <= 0.0 ==> k.laborEfficiency == 0.0
    ensures k.totalLaborCost > 0.0 ==> Decimals.NearestCentHalfEven(k.laborEfficiency, k.totalRevenue / k.totalLaborCost)
  {
    var revenue := s.totalRevenue.GetOr(0.0);
    var commissions := s.totalCommissions.GetOr(0.0);
    var labor := s.totalLaborCost.GetOr(0.0);
    var count := s.employeesCount.GetOr(0);
    var rate := if revenue > 0.0 then Decimals.CentsHalfEven(commissions / revenue * 100.0) else 0.0;
    var perEmployee := if revenue > 0.0 && count > 0 then Decimals.CentsHalfEven(revenue / count as real) else 0.0;
    var efficiency := if labor > 0.0 then Decimals.CentsHalfEven(revenue / labor) else 0.0;
    Kpis(revenue, commissions, labor, s.grossProfit.GetOr(0.0), s.profitMargin.GetOr(0.0), rate, efficiency, perEmployee)
  }

  /** The KPI commission rate is the dashboard's commission efficiency for
      the same totals, to the cent. */
  lemma KpiRateMatchesDashboard(c: PoolCalculator.Calculator)
    requires Listed(c)
    ensures var revenue := RevenueTotal(c.units.order, c.units.entries);
      var k := CalculateKpis(Summary(Some(revenue), Some(PoolCalculator.PaidTotal(c.commissions)), None, None, None, None));
      revenue > 0.0 ==>
        Decimals.Abs(k.commissionRate - PerformanceMetrics(c).commissionEfficiency) <= 0.005
  {
  }
}
