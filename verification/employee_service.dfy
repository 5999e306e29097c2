/** The employee endpoints of the web API: the filtered and paged listing,
    the lookup by position, and the summary counts, over the employee table
    held by the running application. */
module EmployeeService {
  import opened Wrappers
  import Text
  import Decimals
  import ApiSchemas

  /** One row of the employee table; a missing department, id or rate is
      `None`, and a table without a plan column has no plans. */
  datatype StaffRow = StaffRow(employeeId: Option<string>, name: string, department: Option<string>,
                               hourlyRate: Option<real>, status: ApiSchemas.EmployeeStatus,
                               plan: Option<ApiSchemas.CommissionPlan>)

  /** An employee as the API returns it: the row's position as its id and
      the checked record. */
  datatype ApiEmployee = ApiEmployee(id: int, spec: ApiSchemas.EmployeeSpec)

  function Min(a: int, b: int): int {
    if a <= b then a else b
  }

  // ---- conversion ------------------------------------------------------------------------

  /** A row the employee schema accepts. */
  predicate Acceptable(row: StaffRow) {
    1 <= |row.name| <= 100 && (row.department.None? || |row.department.value| <= 50)
    && row.hourlyRate.Some? && row.hourlyRate.value >= 0.0
  }

  /** A missing rate reaches the schema as a value that is not a number. */
  function RateValue(rate: Option<real>): ApiSchemas.Value {
    if rate.None? then ApiSchemas.Null else ApiSchemas.Number(rate.value)
  }

  /** The API record `e` carries the row's fields under the id `id`; the
      plan defaults to "Hourly + Commission". */
  predicate Describes(e: ApiEmployee, row: StaffRow, id: int)
    requires row.hourlyRate.Some?
  {
    e.id == id && e.spec.name == row.name && e.spec.employeeId == row.employeeId
    && e.spec.department == row.department && e.spec.hourlyRate == row.hourlyRate.value
    && e.spec.status == row.status && e.spec.plan == row.plan.GetOr(ApiSchemas.HourlyPlusCommission)
  }

  /** Building the API record of a row; the schema refuses a row that is
      not acceptable. */
  function ToApi(row: StaffRow, id: int): (r: Result<ApiEmployee>)
    ensures r.Ok? <==> Acceptable(row)
    ensures r.Ok? ==> Describes(r.value, row, id)
  {
    var plan := if row.plan.None? then None else Some(ApiSchemas.PlanText(row.plan.value));
    match ApiSchemas.MakeEmployee(row.employeeId, Some(row.name), row.department, Some(RateValue(row.hourlyRate)),
                                  Some(ApiSchemas.StatusText(row.status)), plan)
    case Valid(spec) => Ok(ApiEmployee(id, spec))
    case Invalid(_) => Err(InvalidRecord)
  }

  const InvalidRecord := "employee record failed validation"

  // ---- listing ---------------------------------------------------------------------------

  /** `text in field` ignoring case; a missing field matches nothing. */
  predicate Mentions(field: Option<string>, text: string) {
    field.Some? && Text.ContainsIgnoreCase(field.value, text)
  }

  /** The filters of the listing; an empty department or search text
      filters nothing. */
  predicate Keep(row: StaffRow, status: Option<ApiSchemas.EmployeeStatus>, department: Option<string>,
                 search: Option<string>) {
    (status.None? || row.status == status.value)
    && (department.None? || department.value == "" || Mentions(row.department, department.value))
    && (search.None? || search.value == "" || Mentions(Some(row.name), search.value)
        || Mentions(row.employeeId, search.value))
  }

  /** The positions of the rows the filters keep, in table order. */
  function Matching(rows: seq<StaffRow>, status: Option<ApiSchemas.EmployeeStatus>, department: Option<string>,
                    search: Option<string>): (m: seq<nat>)
    ensures forall j :: 0 <= j < |m| ==> m[j] < |rows| && Keep(rows[m[j]], status, department, search)
    ensures forall i :: 0 <= i < |rows| && Keep(rows[i], status, department, search) ==> i in m
    ensures forall a, b :: 0 <= a < b < |m| ==> m[a] < m[b]
  {
    if rows == [] then []
    else
      var n := |rows| - 1;
      var front := Matching(rows[..n], status, department, search);
      front + (if Keep(rows[n], status, department, search) then [n] else [])
  }

  predicate AllAcceptable(rows: seq<StaffRow>, at: seq<nat>)
    requires forall j :: 0 <= j < |at| ==> at[j] < |rows|
  {
    forall j :: 0 <= j < |at| ==> Acceptable(rows[at[j]])
  }

  /** The API records of the rows at the given positions, in order; one
      refused row makes the whole page fail. */
  function Page(rows: seq<StaffRow>, at: seq<nat>): (r: Result<seq<ApiEmployee>>)
    requires forall j :: 0 <= j < |at| ==> at[j] < |rows|
    ensures r.Ok? <==> AllAcceptable(rows, at)
    ensures r.Ok? ==> |r.value| == |at| && forall j :: 0 <= j < |at| ==> Describes(r.value[j], rows[at[j]], at[j])
  {
    if AllAcceptable(rows, at) then Ok(seq(|at|, j requires 0 <= j < |at| => ToApi(rows[at[j]], at[j]).value))
    else Err(InvalidRecord)
  }

  /** The positions on the page starting at `skip` with at most `limit`
      entries. */
  function PageAt(m: seq<nat>, skip: nat, limit: nat): (p: seq<nat>)
    ensures |p| == Min(skip + limit, |m|) - Min(skip, |m|)
    ensures forall j :: 0 <= j < |p| ==> p[j] == m[skip + j]
  {
    m[Min(skip, |m|)..Min(skip + limit, |m|)]
  }

  /** `get_employees`: the rows the filters keep, counted, and the page of
      them starting at `skip` with at most `limit` entries. */
  function GetEmployees(rows: seq<StaffRow>, skip: nat, limit: nat, status: Option<ApiSchemas.EmployeeStatus>,
                        department: Option<string>, search: Option<string>): (r: Result<(seq<ApiEmployee>, nat)>)
    ensures rows == [] ==> r == Ok(([], 0))
    ensures rows != [] ==>
              var m := Matching(rows, status, department, search);
              var at := PageAt(m, skip, limit);
              (r.Ok? <==> AllAcceptable(rows, at))
              && (r.Ok? ==> r.value.1 == |m| && |r.value.0| == |at|
                            && forall j :: 0 <= j < |at| ==> Describes(r.value.0[j], rows[at[j]], at[j]))
  {
    if rows == [] then Ok(([], 0))
    else
      var m := Matching(rows, status, department, search);
      match Page(rows, PageAt(m, skip, limit))
      case Err(e) => Err(e)
      case Ok(items) => Ok((items, |m|))
  }

  lemma AllAcceptableAppend(rows: seq<StaffRow>, a: seq<nat>, b: seq<nat>)
    requires forall j :: 0 <= j < |a| ==> a[j] < |rows|
    requires forall j :: 0 <= j < |b| ==> b[j] < |rows|
    ensures AllAcceptable(rows, a + b) <==> AllAcceptable(rows, a) && AllAcceptable(rows, b)
  {
    if AllAcceptable(rows, a) && AllAcceptable(rows, b) {
      forall j | 0 <= j < |a + b| ensures Acceptable(rows[(a + b)[j]]) {
        if j >= |a| {
          assert (a + b)[j] == b[j - |a|];
        }
      }
    }
    if AllAcceptable(rows, a + b) {
      forall j | 0 <= j < |b| ensures Acceptable(rows[b[j]]) {
        assert (a + b)[|a| + j] == b[j];
      }
      forall j | 0 <= j < |a| ensures Acceptable(rows[a[j]]) {
        assert (a + b)[j] == a[j];
      }
    }
  }

  lemma PageAppend(rows: seq<StaffRow>, a: seq<nat>, b: seq<nat>)
    requires forall j :: 0 <= j < |a| ==> a[j] < |rows|
    requires forall j :: 0 <= j < |b| ==> b[j] < |rows|
    ensures Page(rows, a + b).Ok? <==> Page(rows, a).Ok? && Page(rows, b).Ok?
    ensures Page(rows, a + b).Ok? ==> Page(rows, a + b).value == Page(rows, a).value + Page(rows, b).value
  {
    AllAcceptableAppend(rows, a, b);
    if Page(rows, a + b).Ok? {
      var whole := Page(rows, a + b).value;
      var parts := Page(rows, a).value + Page(rows, b).value;
      forall j | 0 <= j < |whole| ensures whole[j] == parts[j] {
        if j < |a| {
          assert (a + b)[j] == a[j];
        } else {
          assert (a + b)[j] == b[j - |a|];
        }
      }
    }
  }

  /** Paging splits the listing: the page of `a` entries at `skip`
      followed by the page of `b` entries right after it is the page of
      `a + b` entries at `skip`. */
  lemma PagesCompose(rows: seq<StaffRow>, skip: nat, a: nat, b: nat, status: Option<ApiSchemas.EmployeeStatus>,
                     department: Option<string>, search: Option<string>)
    requires rows != []
    ensures var first := GetEmployees(rows, skip, a, status, department, search);
            var second := GetEmployees(rows, skip + a, b, status, department, search);
            var both := GetEmployees(rows, skip, a + b, status, department, search);
            (both.Ok? <==> first.Ok? && second.Ok?)
            && (both.Ok? ==> both.value.0 == first.value.0 + second.value.0)
  {
    var m := Matching(rows, status, department, search);
    assert PageAt(m, skip, a + b) == PageAt(m, skip, a) + PageAt(m, skip + a, b);
    PageAppend(rows, PageAt(m, skip, a), PageAt(m, skip + a, b));
  }

  // ---- lookup by id ----------------------------------------------------------------------

  /** `get_employee_by_id`: the row at that position, where a negative id
      counts from the end as Python indexing does; `None` past either end. */
  function GetEmployeeById(rows: seq<StaffRow>, id: int): (r: Result<Option<ApiEmployee>>)
    ensures r == Ok(None) <==> id >= |rows| || id < -|rows|
    ensures r.Err? <==> -|rows| <= id < |rows| && !Acceptable(rows[if id < 0 then |rows| + id else id])
    ensures r.Ok? && r.value.Some? ==>
              r.value.value.id == id
              && r.value.value.spec.name == rows[if id < 0 then |rows| + id else id].name
  {
    if rows == [] || id >= |rows| then Ok(None)
    else if id < -|rows| then Ok(None)
    else
      match ToApi(rows[if id < 0 then |rows| + id else id], id)
      case Err(e) => Err(e)
      case Ok(e) => Ok(Some(e))
  }

  // ---- summary ---------------------------------------------------------------------------

  datatype StaffSummary = StaffSummary(total: nat, active: nat, inactive: nat, helpers: nat, excluded: nat,
                                       averageRate: Option<real>, efficiencyPay: nat, hourlyPlusCommission: nat)

  function CountStatus(rows: seq<StaffRow>, s: ApiSchemas.EmployeeStatus): (n: nat)
    ensures n <= |rows|
  {
    if rows == [] then 0 else CountStatus(rows[..|rows| - 1], s) + (if rows[|rows| - 1].status == s then 1 else 0)
  }

  function CountPlan(rows: seq<StaffRow>, p: ApiSchemas.CommissionPlan): (n: nat)
    ensures n <= |rows|
  {
    if rows == [] then 0 else CountPlan(rows[..|rows| - 1], p) + (if rows[|rows| - 1].plan == Some(p) then 1 else 0)
  }

  /** The sum and the number of the rates present (the mean skips missing
      values). */
  function RateSum(rows: seq<StaffRow>): real {
    if rows == [] then 0.0 else RateSum(rows[..|rows| - 1]) + rows[|rows| - 1].hourlyRate.GetOr(0.0)
  }

  function RateCount(rows: seq<StaffRow>): (n: nat)
    ensures n <= |rows|
  {
    if rows == [] then 0 else RateCount(rows[..|rows| - 1]) + (if rows[|rows| - 1].hourlyRate.Some? then 1 else 0)
  }

  /** `get_employee_summary`: the number of employees per status and per
      plan, and the mean hourly rate rounded to cents; with no rate present
      the mean is not a number (`None`), and with no rows everything is 0. */
  function Summary(rows: seq<StaffRow>): (r: StaffSummary)
    ensures r.total == |rows|
    ensures r.active == CountStatus(rows, ApiSchemas.Active) && r.inactive == CountStatus(rows, ApiSchemas.Inactive)
    ensures r.helpers == CountStatus(rows, ApiSchemas.HelperApprentice)
    ensures r.excluded == CountStatus(rows, ApiSchemas.ExcludedFromPayroll)
    ensures r.efficiencyPay == CountPlan(rows, ApiSchemas.EfficiencyPay)
    ensures r.hourlyPlusCommission == CountPlan(rows, ApiSchemas.HourlyPlusCommission)
    ensures rows == [] ==> r.averageRate == Some(0.0)
    ensures rows != [] ==> (r.averageRate.None? <==> RateCount(rows) == 0)
    ensures rows != [] && r.averageRate.Some? ==>
              Decimals.IsCents(r.averageRate.value)
              && -0.005 <= r.averageRate.value - RateSum(rows) / RateCount(rows) as real <= 0.005
  {
    var avg := if rows == [] then Some(0.0)
               else if RateCount(rows) == 0 then None
               else Some(Decimals.CentsHalfEven(RateSum(rows) / RateCount(rows) as real));
    StaffSummary(|rows|, CountStatus(rows, ApiSchemas.Active), CountStatus(rows, ApiSchemas.Inactive),
                 CountStatus(rows, ApiSchemas.HelperApprentice), CountStatus(rows, ApiSchemas.ExcludedFromPayroll),
                 avg, CountPlan(rows, ApiSchemas.EfficiencyPay), CountPlan(rows, ApiSchemas.HourlyPlusCommission))
  }

  /** Every employee has exactly one status, and at most one plan. */
  lemma {:induction false} SummaryPartitions(rows: seq<StaffRow>)
    ensures var s := Summary(rows);
            s.active + s.inactive + s.helpers + s.excluded == s.total
            && s.efficiencyPay + s.hourlyPlusCommission <= s.total
  {
    if rows != [] {
      SummaryPartitions(rows[..|rows| - 1]);
    }
  }
}
