/** The request and response schemas of the web API for employees and
    business units: the enumerations, the defaults, and the field checks
    the schema library applies when a record is built.  A check collects
    every failing field, in field order. */
module ApiSchemas {
  import opened Wrappers
  import Numbers

  /** A raw field value as it reaches a validator. */
  datatype Value = Number(x: real) | Text(s: string) | Null

  datatype Issue = Required | NotANumber | BelowMin | AboveMax | TooShort | TooLong | NotAChoice

  datatype FieldError = FieldError(field: string, issue: Issue)

  datatype Checked<T> = Valid(value: T) | Invalid(errors: seq<FieldError>)

  /** `Decimal(str(v))`: numbers as they are, text read as a decimal
      number, and `None` (which reads as the text "None") refused. */
  function ToDecimal(v: Value): (r: Option<real>)
    ensures v.Number? ==> r == Some(v.x)
    ensures v.Null? ==> r.None?
    ensures v.Text? ==> r == Numbers.ParseDecimal(v.s)
  {
    match v
    case Number(x) => Some(x)
    case Text(s) => Numbers.ParseDecimal(s)
    case Null => None
  }

  /** The errors of a text field whose length must lie in [lo, hi]. */
  function LengthErrors(field: string, s: string, lo: nat, hi: nat): (r: seq<FieldError>)
    ensures r == [] <==> lo <= |s| <= hi
    ensures |s| < lo ==> r == [FieldError(field, TooShort)]
    ensures |s| > hi && lo <= |s| ==> r == [FieldError(field, TooLong)]
  {
    if |s| < lo then [FieldError(field, TooShort)]
    else if |s| > hi then [FieldError(field, TooLong)]
    else []
  }

  /** An optional text field: nothing to check when it is absent. */
  function OptionalLengthErrors(field: string, s: Option<string>, lo: nat, hi: nat): (r: seq<FieldError>)
    ensures r == [] <==> s.None? || lo <= |s.value| <= hi
  {
    if s.None? then [] else LengthErrors(field, s.value, lo, hi)
  }

  /** A required text field. */
  function RequiredLengthErrors(field: string, s: Option<string>, lo: nat, hi: nat): (r: seq<FieldError>)
    ensures s.None? ==> r == [FieldError(field, Required)]
    ensures r == [] <==> s.Some? && lo <= |s.value| <= hi
  {
    if s.None? then [FieldError(field, Required)] else LengthErrors(field, s.value, lo, hi)
  }

  // ---- commission rates --------------------------------------------------------------------

  predicate IsPercent(x: real) {
    0.0 <= x <= 100.0
  }

  /** One rate: absent means the default 0.00; present, it must read as a
      number in [0, 100]. */
  function RateErrors(field: string, v: Option<Value>): (r: seq<FieldError>)
    ensures r == [] <==> v.None? || (ToDecimal(v.value).Some? && IsPercent(ToDecimal(v.value).value))
    ensures v.Some? && ToDecimal(v.value).None? ==> r == [FieldError(field, NotANumber)]
    ensures |r| <= 1
  {
    match v
    case None => []
    case Some(raw) =>
      match ToDecimal(raw)
      case None => [FieldError(field, NotANumber)]
      case Some(x) =>
        if x < 0.0 then [FieldError(field, BelowMin)]
        else if x > 100.0 then [FieldError(field, AboveMax)]
        else []
  }

  function RateValue(v: Option<Value>): real
    requires v.Some? ==> ToDecimal(v.value).Some?
  {
    if v.None? then 0.0 else ToDecimal(v.value).value
  }

  datatype Rates = Rates(leadGen: real, soldBy: real, workDone: real)

  predicate RatesInRange(r: Rates) {
    IsPercent(r.leadGen) && IsPercent(r.soldBy) && IsPercent(r.workDone)
  }

  const LeadGenField := "lead_gen_rate"
  const SoldByField := "sold_by_rate"
  const WorkDoneField := "work_done_rate"

  /** `CommissionRates`: each rate defaults to 0 and must lie in [0, 100]. */
  function MakeRates(leadGen: Option<Value>, soldBy: Option<Value>, workDone: Option<Value>): (r: Checked<Rates>)
    ensures r.Valid? <==> RateErrors(LeadGenField, leadGen) == [] && RateErrors(SoldByField, soldBy) == []
                          && RateErrors(WorkDoneField, workDone) == []
    ensures r.Valid? ==> RatesInRange(r.value)
    ensures r.Valid? ==> r.value == Rates(RateValue(leadGen), RateValue(soldBy), RateValue(workDone))
    ensures r.Invalid? ==> 1 <= |r.errors| <= 3
  {
    var errors := RateErrors(LeadGenField, leadGen) + RateErrors(SoldByField, soldBy)
                  + RateErrors(WorkDoneField, workDone);
    if errors == [] then Valid(Rates(RateValue(leadGen), RateValue(soldBy), RateValue(workDone)))
    else Invalid(errors)
  }

  // ---- business units ----------------------------------------------------------------------

  /** A business unit as created: the name is 1-100 characters and the
      description at most 255; enabled defaults to true, the rates to 0,
      and auto_added to false. */
  datatype UnitSpec = UnitSpec(name: string, description: Option<string>, enabled: bool, rates: Rates, autoAdded: bool)

  const NameField := "name"
  const DescriptionField := "description"

  function UnitErrors(name: Option<string>, description: Option<string>): (r: seq<FieldError>)
    ensures r == [] <==> name.Some? && 1 <= |name.value| <= 100
                         && (description.None? || |description.value| <= 255)
  {
    RequiredLengthErrors(NameField, name, 1, 100) + OptionalLengthErrors(DescriptionField, description, 0, 255)
  }

  function MakeUnitSpec(name: Option<string>, description: Option<string>, enabled: Option<bool>,
                        rates: Option<Rates>, autoAdded: Option<bool>): (r: Checked<UnitSpec>)
    ensures r.Valid? <==> UnitErrors(name, description) == []
    ensures r.Valid? ==>
              r.value.name == name.value && r.value.description == description
              && r.value.enabled == enabled.GetOr(true) && r.value.autoAdded == autoAdded.GetOr(false)
              && r.value.rates == rates.GetOr(Rates(0.0, 0.0, 0.0))
  {
    var errors := UnitErrors(name, description);
    if errors == [] then
      Valid(UnitSpec(name.value, description, enabled.GetOr(true), rates.GetOr(Rates(0.0, 0.0, 0.0)),
                     autoAdded.GetOr(false)))
    else Invalid(errors)
  }

  /** An update: every field may be left out, and a given name or
      description is held to the same lengths as on creation. */
  datatype UnitUpdate = UnitUpdate(name: Option<string>, description: Option<string>, enabled: Option<bool>,
                                   rates: Option<Rates>)

  function CheckUnitUpdate(u: UnitUpdate): (r: Checked<UnitUpdate>)
    ensures r.Valid? <==> (u.name.None? || 1 <= |u.name.value| <= 100)
                          && (u.description.None? || |u.description.value| <= 255)
    ensures r.Valid? ==> r.value == u
  {
    var errors := OptionalLengthErrors(NameField, u.name, 1, 100)
                  + OptionalLengthErrors(DescriptionField, u.description, 0, 255);
    if errors == [] then Valid(u) else Invalid(errors)
  }

  // ---- employees ---------------------------------------------------------------------------

  datatype EmployeeStatus = Active | Inactive | HelperApprentice | ExcludedFromPayroll

  const ActiveText := "Active"
  const InactiveText := "Inactive"
  const HelperText := "Helper/Apprentice"
  const ExcludedText := "Excluded from Payroll"

  /** The text of a status, which reads back as the same status. */
  function StatusText(s: EmployeeStatus): (t: string)
    ensures ParseStatus(t) == Some(s)
  {
    match s
    case Active => ActiveText
    case Inactive => InactiveText
    case HelperApprentice => HelperText
    case ExcludedFromPayroll => ExcludedText
  }

  /** The status a text names; only the four status texts name one. */
  function ParseStatus(t: string): (r: Option<EmployeeStatus>)
    ensures r == Some(Active) <==> t == ActiveText
    ensures r == Some(Inactive) <==> t == InactiveText
    ensures r == Some(HelperApprentice) <==> t == HelperText
    ensures r == Some(ExcludedFromPayroll) <==> t == ExcludedText
  {
    if t == ActiveText then Some(Active)
    else if t == InactiveText then Some(Inactive)
    else if t == HelperText then Some(HelperApprentice)
    else if t == ExcludedText then Some(ExcludedFromPayroll)
    else None
  }

  datatype CommissionPlan = HourlyPlusCommission | EfficiencyPay

  const HourlyPlusText := "Hourly + Commission"
  const EfficiencyText := "Efficiency Pay"

  /** The text of a plan, which reads back as the same plan. */
  function PlanText(p: CommissionPlan): (t: string)
    ensures ParsePlan(t) == Some(p)
  {
    match p
    case HourlyPlusCommission => HourlyPlusText
    case EfficiencyPay => EfficiencyText
  }

  function ParsePlan(t: string): (r: Option<CommissionPlan>)
    ensures r == Some(HourlyPlusCommission) <==> t == HourlyPlusText
    ensures r == Some(EfficiencyPay) <==> t == EfficiencyText
  {
    if t == HourlyPlusText then Some(HourlyPlusCommission)
    else if t == EfficiencyText then Some(EfficiencyPay)
    else None
  }

  /** An employee record: the name is 1-100 characters, the department at
      most 50, the hourly rate a number at least 0; the status defaults to
      Active and the plan to "Hourly + Commission". */
  datatype EmployeeSpec = EmployeeSpec(employeeId: Option<string>, name: string, department: Option<string>,
                                       hourlyRate: real, status: EmployeeStatus, plan: CommissionPlan)

  const EmployeeIdField := "employee_id"
  const DepartmentField := "department"
  const HourlyRateField := "hourly_rate"
  const StatusField := "status"
  const PlanField := "commission_plan"

  /** The hourly rate: required, read as a decimal, at least 0. */
  function HourlyRateErrors(v: Option<Value>): (r: seq<FieldError>)
    ensures r == [] <==> v.Some? && ToDecimal(v.value).Some? && ToDecimal(v.value).value >= 0.0
    ensures v.None? ==> r == [FieldError(HourlyRateField, Required)]
    ensures v.Some? && ToDecimal(v.value).None? ==> r == [FieldError(HourlyRateField, NotANumber)]
  {
    match v
    case None => [FieldError(HourlyRateField, Required)]
    case Some(raw) =>
      match ToDecimal(raw)
      case None => [FieldError(HourlyRateField, NotANumber)]
      case Some(x) => if x < 0.0 then [FieldError(HourlyRateField, BelowMin)] else []
  }

  /** A choice field: absent is fine, present it must name a choice. */
  function ChoiceErrors<T>(field: string, t: Option<string>, parse: string -> Option<T>): (r: seq<FieldError>)
    ensures r == [] <==> t.None? || parse(t.value).Some?
  {
    if t.Some? && parse(t.value).None? then [FieldError(field, NotAChoice)] else []
  }

  function EmployeeErrors(employeeId: Option<string>, name: Option<string>, department: Option<string>,
                          hourlyRate: Option<Value>, status: Option<string>, plan: Option<string>): seq<FieldError>
  {
    RequiredLengthErrors(NameField, name, 1, 100)
    + OptionalLengthErrors(DepartmentField, department, 0, 50)
    + HourlyRateErrors(hourlyRate)
    + ChoiceErrors(StatusField, status, ParseStatus)
    + ChoiceErrors(PlanField, plan, ParsePlan)
  }

  /** `EmployeeBase` / `EmployeeCreate`. */
  function MakeEmployee(employeeId: Option<string>, name: Option<string>, department: Option<string>,
                        hourlyRate: Option<Value>, status: Option<string>, plan: Option<string>): (r: Checked<EmployeeSpec>)
    ensures r.Valid? <==> name.Some? && 1 <= |name.value| <= 100
                          && (department.None? || |department.value| <= 50)
                          && hourlyRate.Some? && ToDecimal(hourlyRate.value).Some? && ToDecimal(hourlyRate.value).value >= 0.0
                          && (status.None? || ParseStatus(status.value).Some?)
                          && (plan.None? || ParsePlan(plan.value).Some?)
    ensures r.Valid? ==>
              r.value.employeeId == employeeId && r.value.name == name.value && r.value.department == department
              && r.value.hourlyRate == ToDecimal(hourlyRate.value).value && r.value.hourlyRate >= 0.0
              && r.value.status == (if status.None? then Active else ParseStatus(status.value).value)
              && r.value.plan == (if plan.None? then HourlyPlusCommission else ParsePlan(plan.value).value)
    ensures r.Invalid? ==> r.errors == EmployeeErrors(employeeId, name, department, hourlyRate, status, plan)
                           && r.errors != []
  {
    var errors := EmployeeErrors(employeeId, name, department, hourlyRate, status, plan);
    if errors == [] then
      Valid(EmployeeSpec(employeeId, name.value, department, ToDecimal(hourlyRate.value).value,
                         if status.None? then Active else ParseStatus(status.value).value,
                         if plan.None? then HourlyPlusCommission else ParsePlan(plan.value).value))
    else Invalid(errors)
  }

  /** `EmployeeUpdate`: every field may be left out; a given employee id is
      at most 50 characters, and the rate check lets a missing rate pass. */
  datatype EmployeeChange = EmployeeChange(employeeId: Option<string>, name: Option<string>,
                                           department: Option<string>, hourlyRate: Option<real>,
                                           status: Option<EmployeeStatus>, plan: Option<CommissionPlan>)

  function UpdateRateErrors(v: Option<Value>): (r: seq<FieldError>)
    ensures r == [] <==> v.None? || v.value.Null? || (ToDecimal(v.value).Some? && ToDecimal(v.value).value >= 0.0)
  {
    if v.None? || v.value.Null? then [] else HourlyRateErrors(v)
  }

  function MakeEmployeeChange(employeeId: Option<string>, name: Option<string>, department: Option<string>,
                              hourlyRate: Option<Value>, status: Option<string>, plan: Option<string>)
    : (r: Checked<EmployeeChange>)
    ensures r.Valid? <==> (employeeId.None? || |employeeId.value| <= 50)
                          && (name.None? || 1 <= |name.value| <= 100)
                          && (department.None? || |department.value| <= 50)
                          && UpdateRateErrors(hourlyRate) == []
                          && (status.None? || ParseStatus(status.value).Some?)
                          && (plan.None? || ParsePlan(plan.value).Some?)
    ensures r.Valid? ==>
              r.value.employeeId == employeeId && r.value.name == name && r.value.department == department
              && (r.value.hourlyRate.None? <==> hourlyRate.None? || hourlyRate.value.Null?)
              && (r.value.hourlyRate.Some? ==> r.value.hourlyRate == ToDecimal(hourlyRate.value) && r.value.hourlyRate.value >= 0.0)
              && (r.value.status.None? <==> status.None?) && (r.value.plan.None? <==> plan.None?)
  {
    var errors := OptionalLengthErrors(EmployeeIdField, employeeId, 0, 50)
                  + OptionalLengthErrors(NameField, name, 1, 100)
                  + OptionalLengthErrors(DepartmentField, department, 0, 50)
                  + UpdateRateErrors(hourlyRate)
                  + ChoiceErrors(StatusField, status, ParseStatus)
                  + ChoiceErrors(PlanField, plan, ParsePlan);
    if errors == [] then
      Valid(EmployeeChange(employeeId, name, department,
                           if hourlyRate.None? || hourlyRate.value.Null? then None else ToDecimal(hourlyRate.value),
                           if status.None? then None else ParseStatus(status.value),
                           if plan.None? then None else ParsePlan(plan.value)))
    else Invalid(errors)
  }
}
