/** The business unit, commission and manual-split records of the
    pool-distribution calculator.  A unit's commission pool is its rate
    applied to its revenue; a commission is an amount with the share of it
    actually paid, and moves from pending to approved to paid; a manual
    split shares a total among employees by percentages that add up to
    100. */
module UnitModel {
  import opened Wrappers
  import Text
  import Decimals
  import Dicts

  datatype BusinessUnit = BusinessUnit(id: string, name: string, commissionRate: real, revenue: real, isActive: bool)

  const MaxNameLength := 100
  const NameEmpty := "Business unit name cannot be empty"
  const NameLengthError := "name: length must be between 1 and 100"
  const RateRange := "Commission rate must be between 0 and 100"
  const NegativeRevenue := "revenue: must be greater than or equal to 0"

  predicate RateInRange(rate: real) {
    0.0 <= rate <= 100.0
  }

  /** Constructing a unit: a name of 1 to 100 characters that is not blank
      (kept stripped), a rate in [0, 100] and a non-negative revenue, both
      quantized to cents. */
  function MakeUnit(id: string, name: string, rate: real, revenue: real): (r: Result<BusinessUnit>)
    ensures r.Ok? <==> 1 <= |name| <= MaxNameLength && !Text.IsBlank(name) && RateInRange(rate) && revenue >= 0.0
    ensures r.Ok? ==> r.value.id == id && r.value.name == Text.Strip(name) && r.value.isActive
                      && r.value.commissionRate == Decimals.CentsHalfEven(rate)
                      && r.value.revenue == Decimals.CentsHalfEven(revenue)
                      && RateInRange(r.value.commissionRate) && r.value.revenue >= 0.0
    ensures !RateInRange(rate) && 1 <= |name| <= MaxNameLength && !Text.IsBlank(name) ==> r == Err(RateRange)
  {
    if !(1 <= |name| <= MaxNameLength) then Err(NameLengthError)
    else if Text.IsBlank(name) then Err(NameEmpty)
    else if !RateInRange(rate) then Err(RateRange)
    else if revenue < 0.0 then Err(NegativeRevenue)
    else
      var q := Decimals.CentsHalfEven(rate);
      assert q <= 100.0 by {
        assert Decimals.IsCents(100.0);
        CentsMonotone(rate, 100.0);
      }
      Ok(BusinessUnit(id, Text.Strip(name), q, Decimals.CentsHalfEven(revenue), true))
  }

  /** Quantizing to cents never crosses a whole number of cents. */
  lemma CentsMonotone(x: real, c: real)
    requires x <= c && Decimals.IsCents(c)
    ensures Decimals.CentsHalfEven(x) <= c
  {
    var q := Decimals.CentsHalfEven(x);
    var k := (q * 100.0).Floor;
    var m := (c * 100.0).Floor;
    assert k as real == q * 100.0 && m as real == c * 100.0;
    assert k as real <= m as real + 0.5;
    assert k <= m;
  }

  /** The unit's commission pool. */
  function CommissionAmount(u: BusinessUnit): real {
    Decimals.Percent(u.revenue, u.commissionRate)
  }

  /** A pool never exceeds the revenue it comes from and is not negative. */
  lemma PoolWithinRevenue(u: BusinessUnit)
    requires u.revenue >= 0.0 && RateInRange(u.commissionRate)
    ensures 0.0 <= CommissionAmount(u) <= u.revenue
  {
    Decimals.PercentAtMost(u.revenue, u.commissionRate);
  }

  /** Changing the rate: a rate outside [0, 100] is refused; an accepted
      one is stored as given, without quantizing. */
  function UpdateRate(u: BusinessUnit, rate: real): (r: Result<BusinessUnit>)
    ensures r.Ok? <==> RateInRange(rate)
    ensures r.Ok? ==> r.value == u.(commissionRate := rate)
    ensures r.Err? ==> r.error == RateRange
  {
    if !RateInRange(rate) then Err(RateRange) else Ok(u.(commissionRate := rate))
  }

  // ---- commissions -----------------------------------------------------------

  datatype Status = Pending | Approved | Paid | Cancelled

  function StatusName(s: Status): string {
    match s
    case Pending => "pending"
    case Approved => "approved"
    case Paid => "paid"
    case Cancelled => "cancelled"
  }

  /** The status pattern: exactly one of the four names. */
  function ParseStatus(t: string): (r: Option<Status>)
    ensures r.Some? ==> StatusName(r.value) == t
    ensures r.None? ==> forall s: Status :: StatusName(s) != t
  {
    if t == "pending" then Some(Pending)
    else if t == "approved" then Some(Approved)
    else if t == "paid" then Some(Paid)
    else if t == "cancelled" then Some(Cancelled)
    else None
  }

  lemma StatusRoundTrip(s: Status)
    ensures ParseStatus(StatusName(s)) == Some(s)
  {
  }

  datatype Commission = Commission(
    employeeId: string, unitId: string, amount: real, percentage: real,
    status: Status, approvedBy: Option<string>)

  const DefaultPercentage: real := 100.0
  const NegativeAmount := "amount: must be greater than or equal to 0"
  const PercentageRange := "percentage: must be between 0 and 100"
  const NotApproved := "Commission must be approved before marking as paid"

  /** Constructing a pending commission: a non-negative amount and a
      percentage in [0, 100], both quantized to cents. */
  function MakeCommission(employeeId: string, unitId: string, amount: real, percentage: real): (r: Result<Commission>)
    ensures r.Ok? <==> amount >= 0.0 && RateInRange(percentage)
    ensures r.Ok? ==> r.value.employeeId == employeeId && r.value.unitId == unitId
                      && r.value.amount == Decimals.CentsHalfEven(amount)
                      && r.value.percentage == Decimals.CentsHalfEven(percentage)
                      && r.value.status == Pending && r.value.approvedBy.None?
  {
    if amount < 0.0 then Err(NegativeAmount)
    else if !RateInRange(percentage) then Err(PercentageRange)
    else Ok(Commission(employeeId, unitId, Decimals.CentsHalfEven(amount), Decimals.CentsHalfEven(percentage),
                       Pending, None))
  }

  /** The part of the amount actually paid. */
  function AdjustedAmount(c: Commission): real {
    Decimals.Percent(c.amount, c.percentage)
  }

  /** With the default percentage the whole amount is paid; with any
      percentage in [0, 100], no more than the amount. */
  lemma AdjustedAmountBounds(c: Commission)
    requires c.amount >= 0.0 && RateInRange(c.percentage)
    ensures 0.0 <= AdjustedAmount(c) <= c.amount
    ensures c.percentage == DefaultPercentage ==> AdjustedAmount(c) == c.amount
  {
    Decimals.PercentAtMost(c.amount, c.percentage);
  }

  /** Approving records the approver and sets the status, whatever it was. */
  function Approve(c: Commission, approver: string): (r: Commission)
    ensures r.status == Approved && r.approvedBy == Some(approver)
    ensures r.employeeId == c.employeeId && r.unitId == c.unitId && r.amount == c.amount && r.percentage == c.percentage
  {
    c.(status := Approved, approvedBy := Some(approver))
  }

  /** Paying needs an approved commission. */
  function MarkPaid(c: Commission): (r: Result<Commission>)
    ensures r.Ok? <==> c.status == Approved
    ensures r.Ok? ==> r.value == c.(status := Paid)
    ensures r.Err? ==> r.error == NotApproved
  {
    if c.status != Approved then Err(NotApproved) else Ok(c.(status := Paid))
  }

  /** Approve then pay always succeeds, and a commission cannot be paid
      twice without a new approval. */
  lemma ApproveThenPay(c: Commission, approver: string)
    ensures MarkPaid(Approve(c, approver)).Ok?
    ensures MarkPaid(Approve(c, approver)).value.status == Paid
    ensures MarkPaid(MarkPaid(Approve(c, approver)).value).Err?
  {
  }

  // ---- manual splits ---------------------------------------------------------

  datatype CommissionSplit = CommissionSplit(jobId: string, employeeSplits: Dicts.Dict<real>, totalAmount: real)

  const SplitSumError := "Employee splits must sum to 100%"
  const SplitTolerance: real := 0.01

  predicate SumsToHundred(splits: Dicts.Dict<real>) {
    Decimals.Abs(Dicts.Total(splits) - 100.0) <= SplitTolerance
  }

  /** Constructing a split: a non-negative total with at most two decimal
      places, and percentages whose sum is within 0.01 of 100.  The single
      percentages are not checked. */
  function MakeSplit(jobId: string, splits: Dicts.Dict<real>, totalAmount: real): (r: Result<CommissionSplit>)
    ensures r.Ok? <==> totalAmount >= 0.0 && Decimals.IsCents(totalAmount) && SumsToHundred(splits)
    ensures r.Ok? ==> r.value == CommissionSplit(jobId, splits, totalAmount)
    ensures totalAmount >= 0.0 && Decimals.IsCents(totalAmount) && !SumsToHundred(splits) ==> r == Err(SplitSumError)
  {
    if totalAmount < 0.0 then Err("total_amount: must be greater than or equal to 0")
    else if !Decimals.IsCents(totalAmount) then Err("total_amount: no more than 2 decimal places")
    else if !SumsToHundred(splits) then Err(SplitSumError)
    else Ok(CommissionSplit(jobId, splits, totalAmount))
  }

  /** One employee's part of the split total; nothing for an employee not
      in the split. */
  function EmployeeAmount(s: CommissionSplit, employeeId: string): (a: real)
    ensures employeeId !in s.employeeSplits.entries ==> a == 0.0
  {
    if employeeId !in s.employeeSplits.entries then 0.0
    else Decimals.Percent(s.totalAmount, s.employeeSplits.entries[employeeId])
  }

  /** The parts of the listed employees. */
  function AmountsOver(s: CommissionSplit, ids: seq<string>): real
    decreases |ids|
  {
    if |ids| == 0 then 0.0 else AmountsOver(s, ids[..|ids| - 1]) + EmployeeAmount(s, ids[|ids| - 1])
  }

  lemma {:induction false} AmountsOverTotal(s: CommissionSplit, ids: seq<string>)
    ensures AmountsOver(s, ids) == Decimals.Percent(s.totalAmount, Dicts.TotalOver(ids, s.employeeSplits.entries))
    decreases |ids|
  {
    if |ids| > 0 {
      var init := ids[..|ids| - 1];
      AmountsOverTotal(s, init);
      var k := ids[|ids| - 1];
      var v := if k in s.employeeSplits.entries then s.employeeSplits.entries[k] else 0.0;
      Decimals.PercentAddRate(s.totalAmount, Dicts.TotalOver(init, s.employeeSplits.entries), v);
    }
  }

  /** Paying every employee of an accepted split their part pays out the
      total to within one hundredth of a percent of it. */
  lemma SplitPaysOutTotal(s: CommissionSplit)
    requires s.totalAmount >= 0.0 && SumsToHundred(s.employeeSplits)
    ensures Decimals.Abs(AmountsOver(s, s.employeeSplits.order) - s.totalAmount) <= s.totalAmount * 0.0001
  {
    AmountsOverTotal(s, s.employeeSplits.order);
    var t := Dicts.Total(s.employeeSplits);
    assert AmountsOver(s, s.employeeSplits.order) - s.totalAmount == s.totalAmount * (t - 100.0) / 100.0;
    if t >= 100.0 {
      assert s.totalAmount * (t - 100.0) <= s.totalAmount * 0.01;
    } else {
      assert s.totalAmount * (100.0 - t) <= s.totalAmount * 0.01;
    }
  }
}
