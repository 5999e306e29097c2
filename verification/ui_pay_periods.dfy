/** The company-setup screen's pay-period generator.  It differs from the
    service's: semi-monthly halves are the 1st-14th and the 15th-end, every
    schedule but monthly pays four days after the period ends, and the
    schedule is named by free text, anything unrecognised meaning monthly.

    Two defects of the generator as written are modelled next to the
    corrected generator the rest of the model uses: a semi-monthly run
    started between the 2nd and the 14th skips from the 14th to the 1st of
    the next month, and a monthly period is paid on the 6th to 9th of the
    next month instead of the 5th. */
module UiPayPeriods {
  import opened Dates
  import PayPeriods
  import ApiPayPeriods
  import PayPeriodSchema

  /** One generated period as the screen stores it. */
  datatype UiPeriod = UiPeriod(number: int, start: Date, end: Date, pay: Date, year: int, totalYear: int)

  function AsPeriod(p: UiPeriod): PayPeriods.Period {
    PayPeriods.Period(p.number, p.start, p.end, p.pay)
  }

  function AsPeriods(ps: seq<UiPeriod>): (r: seq<PayPeriods.Period>)
    ensures |r| == |ps|
    ensures forall k :: 0 <= k < |ps| ==> r[k] == AsPeriod(ps[k])
  {
    seq(|ps|, k requires 0 <= k < |ps| => AsPeriod(ps[k]))
  }

  const Weekly := "Weekly"
  const BiWeekly := "Bi-weekly"
  const SemiMonthly := "Semi-monthly"

  /** The 1st of a month plus 32 days: a day early in the next month. */
  function NextMonthProbe(d: Date): (e: Date)
    requires Valid(d)
    ensures Valid(e)
    ensures var f := FirstOfNextMonth(d);
      e.year == f.year && e.month == f.month && e.day == 33 - DaysInMonth(d.year, d.month)
  {
    var first := Date(d.year, d.month, 1);
    assert AddDays(first, 32) == AddDays(FirstOfNextMonth(d), 32 - DaysInMonth(d.year, d.month));
    AddDays(first, 32)
  }

  /** The last day of `d`'s month, reached by stepping back from the probe
      by its own day number. */
  function MonthEnd(d: Date): (e: Date)
    requires Valid(d)
    ensures e == LastOfMonth(d)
  {
    var probe := NextMonthProbe(d);
    PrevDay(Date(probe.year, probe.month, 1))
  }

  /** The end, the pay date and the next start of the period starting on
      `start`, as written (`corrected == false`) or corrected. */
  function UiStep(schedule: string, start: Date, corrected: bool): (r: (Date, Date, Date))
    requires Valid(start)
    ensures Valid(r.0) && Valid(r.1) && Valid(r.2)
    ensures NotAfter(start, r.0)
    ensures schedule == Weekly ==> r.0 == AddDays(start, 6) && r.1 == AddDays(r.0, 4)
    ensures schedule == BiWeekly ==> r.0 == AddDays(start, 13) && r.1 == AddDays(r.0, 4)
    ensures schedule == SemiMonthly && start.day < 15
      ==> r.0 == Date(start.year, start.month, 14) && r.1 == Date(start.year, start.month, 15)
    ensures schedule == SemiMonthly && start.day >= 15
      ==> r.0 == LastOfMonth(start) && r.1 == FirstOfNextMonth(start)
    ensures schedule == SemiMonthly && start.day == 1 ==> r.2 == Date(start.year, start.month, 15)
    ensures schedule == SemiMonthly && start.day != 1 && !(corrected && start.day < 15) ==> r.2 == FirstOfNextMonth(start)
    ensures IsMonthly(schedule) ==> r.0 == LastOfMonth(start)
    ensures IsMonthly(schedule) && !corrected
      ==> r.1.year == FirstOfNextMonth(start).year && r.1.month == FirstOfNextMonth(start).month
          && r.1.day == 37 - DaysInMonth(start.year, start.month)
    ensures IsMonthly(schedule) && corrected ==> r.1 == Date(FirstOfNextMonth(start).year, FirstOfNextMonth(start).month, 5)
    ensures corrected ==> r.2 == NextDay(r.0)
    ensures !corrected ==> (r.2 == NextDay(r.0) <==> !(schedule == SemiMonthly && 1 < start.day < 15))
  {
    var y, m := start.year, start.month;
    if schedule == Weekly then
      AddDaysOrder(start, 6);
      var end := AddDays(start, 6);
      (end, AddDays(end, 4), NextDay(end))
    else if schedule == BiWeekly then
      AddDaysOrder(start, 13);
      var end := AddDays(start, 13);
      (end, AddDays(end, 4), NextDay(end))
    else if schedule == SemiMonthly then
      var (end, pay) :=
        if start.day < 15 then (Date(y, m, 14), Date(y, m, 15))
        else (MonthEnd(start), FirstOfNextMonth(start));
      var next :=
        if start.day == 1 || (corrected && start.day < 15) then Date(y, m, 15)
        else FirstOfNextMonth(start);
      (end, pay, next)
    else
      var probe := NextMonthProbe(start);
      var end := MonthEnd(start);
      var pay := if corrected then Date(probe.year, probe.month, 5) else AddDays(probe, 4);
      (end, pay, NextDay(end))
  }

  /** Any schedule text other than the three named ones means monthly. */
  predicate IsMonthly(schedule: string) {
    schedule != Weekly && schedule != BiWeekly && schedule != SemiMonthly
  }

  /** Periods `number`, `number + 1`, ... of a run of `total` periods. */
  function UiFrom(schedule: string, start: Date, number: int, count: nat, total: int, corrected: bool): (r: seq<UiPeriod>)
    requires Valid(start)
    ensures |r| == count
    ensures count > 0 ==> r[0].start == start
    ensures forall k :: 0 <= k < count ==>
      r[k].number == number + k && r[k].totalYear == total && Valid(r[k].start)
      && r[k].year == r[k].start.year
      && (r[k].end, r[k].pay) == (UiStep(schedule, r[k].start, corrected).0, UiStep(schedule, r[k].start, corrected).1)
    ensures forall k :: 0 <= k < count - 1 ==> r[k + 1].start == UiStep(schedule, r[k].start, corrected).2
    decreases count
  {
    if count == 0 then []
    else
      var st := UiStep(schedule, start, corrected);
      [UiPeriod(number, start, st.0, st.1, start.year, total)] + UiFrom(schedule, st.2, number + 1, count - 1, total, corrected)
  }

  /** The generator as written. */
  function GenerateAsWritten(start: Date, schedule: string, numPeriods: nat): (r: seq<UiPeriod>)
    requires Valid(start)
    ensures |r| == numPeriods
    ensures forall k :: 0 <= k < numPeriods ==> r[k].number == k + 1 && r[k].totalYear == numPeriods
  {
    UiFrom(schedule, start, 1, numPeriods, numPeriods, false)
  }

  /** The generator corrected: each period starts the day after the previous
      one ends, and monthly periods are paid on the 5th of the next month. */
  function Generate(start: Date, schedule: string, numPeriods: nat): (r: seq<UiPeriod>)
    requires Valid(start)
    ensures |r| == numPeriods
    ensures numPeriods > 0 ==> r[0].start == start
    ensures forall k :: 0 <= k < numPeriods ==>
      r[k].number == k + 1 && r[k].totalYear == numPeriods && Valid(r[k].start) && Valid(r[k].end)
      && NotAfter(r[k].start, r[k].end) && r[k].year == r[k].start.year
    ensures forall k :: 0 <= k < numPeriods - 1 ==> r[k + 1].start == NextDay(r[k].end)
  {
    UiFrom(schedule, start, 1, numPeriods, numPeriods, true)
  }

  /** The as-written generator leaves the 15th to the end of January
      uncovered for a semi-monthly run started on 5 January. */
  lemma SemiMonthlyGapAsWritten()
    ensures var ps := GenerateAsWritten(Date(2024, 1, 5), SemiMonthly, 2);
      ps[0].end == Date(2024, 1, 14) && ps[1].start == Date(2024, 2, 1)
      && PayPeriods.PeriodContaining(AsPeriods(ps), Date(2024, 1, 15)).None?
  {
    var ps := GenerateAsWritten(Date(2024, 1, 5), SemiMonthly, 2);
    var qs := AsPeriods(ps);
    assert ps[0].start == Date(2024, 1, 5);
    assert ps[0].end == Date(2024, 1, 14);
    assert ps[1].start == Date(2024, 2, 1);
    assert !PayPeriods.Contains(qs[0], Date(2024, 1, 15)) && !PayPeriods.Contains(qs[1], Date(2024, 1, 15));
  }

  /** Corrected semi-monthly runs alternate between the halves
      1st-14th and 15th-end of month once they reach a boundary. */
  lemma SemiMonthlyHalves(start: Date, numPeriods: nat, k: nat)
    requires Valid(start) && (start.day == 1 || start.day == 15) && k < numPeriods
    ensures var p := Generate(start, SemiMonthly, numPeriods)[k];
      (p.start.day == 1 && p.end.day == 14 && p.end.month == p.start.month)
      || (p.start.day == 15 && p.end == LastOfMonth(p.start))
  {
    HalfStarts(start, numPeriods, k);
  }

  /** Every period of such a run starts on the 1st or the 15th. */
  lemma {:induction false} HalfStarts(start: Date, numPeriods: nat, k: nat)
    requires Valid(start) && (start.day == 1 || start.day == 15) && k < numPeriods
    ensures var p := Generate(start, SemiMonthly, numPeriods)[k];
      p.start.day == 1 || p.start.day == 15
    decreases k
  {
    if k > 0 {
      HalfStarts(start, numPeriods, k - 1);
    }
  }

  /** The as-written generator pays the January period on 6 February, not
      on the 5th. */
  lemma MonthlyPayAsWritten()
    ensures GenerateAsWritten(Date(2024, 1, 1), "Monthly", 1)[0].pay == Date(2024, 2, 6)
  {
    var d := Date(2024, 1, 1);
    assert FirstOfNextMonth(d) == Date(2024, 2, 1);
    var st := UiStep("Monthly", d, false);
    assert st.1 == Date(2024, 2, 6);
    var ps := GenerateAsWritten(d, "Monthly", 1);
    assert ps[0].start == d;
  }

  /** Corrected monthly runs pay every period on the 5th of the month after
      it ends. */
  lemma MonthlyPayOnFifth(start: Date, schedule: string, numPeriods: nat, k: nat)
    requires Valid(start) && IsMonthly(schedule) && k < numPeriods
    ensures var p := Generate(start, schedule, numPeriods)[k];
      Valid(p.end) && p.pay == Date(NextDay(p.end).year, NextDay(p.end).month, 5)
  {
  }

  /** The two generators disagree on semi-monthly halves: from the 1st, the
      screen's first period ends on the 14th and the service's on the
      15th. */
  lemma SemiMonthlyBoundariesDiffer(start: Date)
    requires Valid(start) && start.day == 1
    ensures Generate(start, SemiMonthly, 1)[0].end.day == 14
    ensures ApiPayPeriods.Step(PayPeriodSchema.SemiMonthly, start).0.day == 15
  {
  }
}
