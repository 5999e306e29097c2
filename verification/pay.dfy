/** Pay arithmetic shared by the engines: hourly pay with overtime at time
    and a half and double time at twice the rate, and the two ways a
    commission is reconciled with hourly pay. */
module Pay {

  const OvertimeMultiplier: real := 1.5
  const DoubleTimeMultiplier: real := 2.0

  /** reg × r + ot × r × 1.5 + dt × r × 2 */
  function HourlyPay(rate: real, regular: real, overtime: real, doubleTime: real): real {
    regular * rate + overtime * rate * OvertimeMultiplier + doubleTime * rate * DoubleTimeMultiplier
  }

  lemma MulNonNegative(a: real, b: real)
    requires a >= 0.0 && b >= 0.0
    ensures a * b >= 0.0
  {
  }

  lemma HourlyPayNonNegative(rate: real, regular: real, overtime: real, doubleTime: real)
    requires rate >= 0.0 && regular >= 0.0 && overtime >= 0.0 && doubleTime >= 0.0
    ensures HourlyPay(rate, regular, overtime, doubleTime) >= 0.0
  {
    MulNonNegative(regular, rate);
    MulNonNegative(overtime, rate);
    MulNonNegative(doubleTime, rate);
  }

  /** The amount paid and the part of it that is efficiency pay. */
  datatype Settlement = Settlement(finalPay: real, efficiencyPay: real)

  /** Efficiency Pay pays the larger of hourly pay and commission; any other
      plan pays both. */
  function Reconcile(efficiencyPlan: bool, hourly: real, commission: real): (s: Settlement)
    ensures efficiencyPlan ==> s.finalPay >= hourly && s.finalPay >= commission
    ensures efficiencyPlan ==> s.finalPay == hourly || s.finalPay == commission
    ensures efficiencyPlan ==> s.efficiencyPay == s.finalPay - hourly
    ensures !efficiencyPlan ==> s.finalPay == hourly + commission && s.efficiencyPay == 0.0
    ensures s.efficiencyPay >= 0.0
  {
    if efficiencyPlan then
      var finalPay := if hourly >= commission then hourly else commission;
      Settlement(finalPay, finalPay - hourly)
    else Settlement(hourly + commission, 0.0)
  }

  /** Efficiency Pay never pays more than Hourly + Commission when the
      commission is not negative, and pays the same when one of the two is
      zero. */
  lemma EfficiencyNeverExceedsSum(hourly: real, commission: real)
    requires hourly >= 0.0 && commission >= 0.0
    ensures Reconcile(true, hourly, commission).finalPay <= Reconcile(false, hourly, commission).finalPay
    ensures hourly == 0.0 || commission == 0.0
      ==> Reconcile(true, hourly, commission).finalPay == Reconcile(false, hourly, commission).finalPay
  {
  }
}
