/** The employee record of the pool-distribution calculator: a name, an
    hourly rate and the three kinds of hours, each a non-negative amount kept
    to cents, and the labor cost they make at time and a half and double
    time. */
module EmployeeModel {
  import opened Wrappers
  import Text
  import Decimals
  import Pay

  datatype Employee = Employee(
    id: string, name: string, hourlyRate: real,
    regularHours: real, otHours: real, dtHours: real,
    isActive: bool)

  const MaxNameLength := 100
  const NameEmpty := "Employee name cannot be empty"
  const NameLengthError := "name: length must be between 1 and 100"
  const NegativeValue := "Value must be non-negative"

  /** The accepted form of a record: a stripped, non-empty name of at most
      100 characters and non-negative amounts in whole cents. */
  predicate WellFormed(e: Employee) {
    1 <= |e.name| <= MaxNameLength && e.name == Text.Strip(e.name)
    && e.hourlyRate >= 0.0 && e.regularHours >= 0.0 && e.otHours >= 0.0 && e.dtHours >= 0.0
    && Decimals.IsCents(e.hourlyRate) && Decimals.IsCents(e.regularHours)
    && Decimals.IsCents(e.otHours) && Decimals.IsCents(e.dtHours)
  }

  /** The name check: the length bound applies to the name as given, then
      a blank name is refused and the stripped name is kept. */
  function CheckName(name: string): (r: Result<string>)
    ensures r.Ok? <==> 1 <= |name| <= MaxNameLength && !Text.IsBlank(name)
    ensures r.Ok? ==> r.value == Text.Strip(name) && 1 <= |r.value| <= MaxNameLength
    ensures !(1 <= |name| <= MaxNameLength) ==> r == Err(NameLengthError)
    ensures 1 <= |name| <= MaxNameLength && Text.IsBlank(name) ==> r == Err(NameEmpty)
  {
    if !(1 <= |name| <= MaxNameLength) then Err(NameLengthError)
    else if Text.IsBlank(name) then Err(NameEmpty)
    else
      Text.StripEmptyIffBlank(name);
      Ok(Text.Strip(name))
  }

  /** A non-negative amount, quantized to cents under the default context. */
  function CheckAmount(x: real): (r: Result<real>)
    ensures r.Ok? <==> x >= 0.0
    ensures r.Ok? ==> r.value == Decimals.CentsHalfEven(x) && r.value >= 0.0
    ensures r.Err? ==> r.error == NegativeValue
  {
    if x < 0.0 then Err(NegativeValue) else Ok(Decimals.CentsHalfEven(x))
  }

  /** Constructing a record: the first failing field in declaration order
      is reported. */
  function MakeEmployee(id: string, name: string, rate: real, regular: real, ot: real, dt: real): (r: Result<Employee>)
    ensures r.Ok? <==> 1 <= |name| <= MaxNameLength && !Text.IsBlank(name)
                       && rate >= 0.0 && regular >= 0.0 && ot >= 0.0 && dt >= 0.0
    ensures r.Ok? ==> WellFormed(r.value) && r.value.id == id && r.value.isActive
    ensures r.Ok? ==> r.value.name == Text.Strip(name) && r.value.hourlyRate == Decimals.CentsHalfEven(rate)
                      && r.value.regularHours == Decimals.CentsHalfEven(regular)
                      && r.value.otHours == Decimals.CentsHalfEven(ot)
                      && r.value.dtHours == Decimals.CentsHalfEven(dt)
  {
    var n :- CheckName(name);
    var hr :- CheckAmount(rate);
    var rh :- CheckAmount(regular);
    var oh :- CheckAmount(ot);
    var dh :- CheckAmount(dt);
    Text.StripIdempotent(name);
    Ok(Employee(id, n, hr, rh, oh, dh, true))
  }

  function TotalHours(e: Employee): real {
    e.regularHours + e.otHours + e.dtHours
  }

  function RegularCost(e: Employee): real {
    e.regularHours * e.hourlyRate
  }

  function OvertimeCost(e: Employee): real {
    e.otHours * e.hourlyRate * 1.5
  }

  function DoubleTimeCost(e: Employee): real {
    e.dtHours * e.hourlyRate * 2.0
  }

  function TotalLaborCost(e: Employee): real {
    RegularCost(e) + OvertimeCost(e) + DoubleTimeCost(e)
  }

  /** The record's labor cost is the hourly pay every engine computes for
      the same rate and hours. */
  lemma LaborCostIsHourlyPay(e: Employee)
    ensures TotalLaborCost(e) == Pay.HourlyPay(e.hourlyRate, e.regularHours, e.otHours, e.dtHours)
  {
  }

  lemma LaborCostNonNegative(e: Employee)
    requires e.hourlyRate >= 0.0 && e.regularHours >= 0.0 && e.otHours >= 0.0 && e.dtHours >= 0.0
    ensures TotalLaborCost(e) >= 0.0
  {
    Pay.HourlyPayNonNegative(e.hourlyRate, e.regularHours, e.otHours, e.dtHours);
  }

  /** Setting the hours: each given value replaces its field, a negative
      one becoming 0, and a missing one leaves its field alone.  The values
      are not quantized. */
  function UpdateHours(e: Employee, regular: Option<real>, ot: Option<real>, dt: Option<real>): (r: Employee)
    ensures r.regularHours == (if regular.Some? then Decimals.Max(0.0, regular.value) else e.regularHours)
    ensures r.otHours == (if ot.Some? then Decimals.Max(0.0, ot.value) else e.otHours)
    ensures r.dtHours == (if dt.Some? then Decimals.Max(0.0, dt.value) else e.dtHours)
    ensures r.id == e.id && r.name == e.name && r.hourlyRate == e.hourlyRate && r.isActive == e.isActive
  {
    e.(regularHours := if regular.Some? then Decimals.Max(0.0, regular.value) else e.regularHours,
       otHours := if ot.Some? then Decimals.Max(0.0, ot.value) else e.otHours,
       dtHours := if dt.Some? then Decimals.Max(0.0, dt.value) else e.dtHours)
  }

  /** Updating keeps the hours non-negative, and setting the same hours
      twice is the same as once. */
  lemma UpdateHoursKeepsNonNegative(e: Employee, regular: Option<real>, ot: Option<real>, dt: Option<real>)
    requires e.regularHours >= 0.0 && e.otHours >= 0.0 && e.dtHours >= 0.0
    ensures var r := UpdateHours(e, regular, ot, dt);
      r.regularHours >= 0.0 && r.otHours >= 0.0 && r.dtHours >= 0.0
      && UpdateHours(r, regular, ot, dt) == r
  {
  }

  /** Updating with non-negative hours sets the total to their sum. */
  lemma UpdateHoursTotal(e: Employee, regular: real, ot: real, dt: real)
    requires regular >= 0.0 && ot >= 0.0 && dt >= 0.0
    ensures TotalHours(UpdateHours(e, Some(regular), Some(ot), Some(dt))) == regular + ot + dt
  {
  }
}
