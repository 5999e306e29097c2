/** The pay-period request and response models: the four schedule names,
    the rules a pay period must satisfy, and the bounds on a schedule
    configuration and on a generation request. */
module PayPeriodSchema {
  import opened Wrappers
  import Dates
  import PayPeriods

  datatype Schedule = Weekly | BiWeekly | SemiMonthly | Monthly

  /** The enumeration's value. */
  function ScheduleName(s: Schedule): (t: string)
    ensures |t| >= 6
  {
    match s
    case Weekly => "Weekly"
    case BiWeekly => "Bi-Weekly"
    case SemiMonthly => "Semi-Monthly"
    case Monthly => "Monthly"
  }

  /** Reading a schedule from its value; anything else is rejected. */
  function ParseSchedule(t: string): (r: Option<Schedule>)
    ensures r.Some? ==> ScheduleName(r.value) == t
    ensures r.None? ==> forall s: Schedule :: ScheduleName(s) != t
  {
    if t == "Weekly" then Some(Weekly)
    else if t == "Bi-Weekly" then Some(BiWeekly)
    else if t == "Semi-Monthly" then Some(SemiMonthly)
    else if t == "Monthly" then Some(Monthly)
    else None
  }

  lemma ScheduleRoundTrip(s: Schedule)
    ensures ParseSchedule(ScheduleName(s)) == Some(s)
  {
  }

  const NumberTooSmall := "period_number: Input should be greater than or equal to 1"
  const EndNotAfterStart := "End date must be after start date"
  const PayBeforeEnd := "Pay date must be on or after end date"

  /** The fields of a well-formed period. */
  predicate WellFormed(p: PayPeriods.Period) {
    p.number >= 1 && Dates.Before(p.start, p.end) && Dates.NotAfter(p.end, p.pay)
  }

  /** The validation errors of a period, in field order.  The pay-date rule
      is only consulted when the end date itself was accepted. */
  function PeriodErrors(p: PayPeriods.Period): (errs: seq<string>)
    ensures errs == [] <==> WellFormed(p)
    ensures p.number < 1 <==> NumberTooSmall in errs
    ensures !Dates.Before(p.start, p.end) <==> EndNotAfterStart in errs
    ensures PayBeforeEnd in errs <==> Dates.Before(p.start, p.end) && !Dates.NotAfter(p.end, p.pay)
  {
    (if p.number < 1 then [NumberTooSmall] else [])
    + (if !Dates.Before(p.start, p.end) then [EndNotAfterStart]
       else if !Dates.NotAfter(p.end, p.pay) then [PayBeforeEnd]
       else [])
  }

  /** Constructing a period: the period itself, or the first error. */
  function MakePeriod(p: PayPeriods.Period): (r: Result<PayPeriods.Period>)
    ensures r.Ok? <==> WellFormed(p)
    ensures r.Ok? ==> r.value == p
    ensures r.Err? ==> r.error in PeriodErrors(p)
  {
    var errs := PeriodErrors(p);
    if errs == [] then Ok(p) else Err(errs[0])
  }

  /** A pay schedule: its frequency, the first period's start, and the days
      from a period's end to its pay date. */
  datatype ScheduleConfig = ScheduleConfig(schedule: Schedule, firstStart: Dates.Date, payDelay: int)

  const DefaultPayDelay := 0
  const MaxPayDelay := 30
  const DefaultNumPeriods := 26
  const MaxNumPeriods := 52

  predicate ConfigValid(c: ScheduleConfig) {
    0 <= c.payDelay <= MaxPayDelay
  }

  function MakeConfig(schedule: Schedule, firstStart: Dates.Date, payDelay: int): (r: Result<ScheduleConfig>)
    ensures r.Ok? <==> 0 <= payDelay <= MaxPayDelay
    ensures r.Ok? ==> ConfigValid(r.value) && r.value.schedule == schedule
                      && r.value.firstStart == firstStart && r.value.payDelay == payDelay
  {
    if 0 <= payDelay <= MaxPayDelay then Ok(ScheduleConfig(schedule, firstStart, payDelay))
    else Err("pay_delay_days: Input should be between 0 and 30")
  }

  /** A generation request: a valid configuration and 1 to 52 periods. */
  datatype Generation = Generation(config: ScheduleConfig, numPeriods: nat)

  function MakeGeneration(config: ScheduleConfig, numPeriods: int): (r: Result<Generation>)
    ensures r.Ok? <==> ConfigValid(config) && 1 <= numPeriods <= MaxNumPeriods
    ensures r.Ok? ==> r.value.config == config && r.value.numPeriods == numPeriods
  {
    if !ConfigValid(config) then Err("pay_delay_days: Input should be between 0 and 30")
    else if 1 <= numPeriods <= MaxNumPeriods then Ok(Generation(config, numPeriods))
    else Err("num_periods: Input should be between 1 and 52")
  }

  /** The defaults are accepted: no pay delay and 26 periods. */
  lemma DefaultsAccepted(schedule: Schedule, firstStart: Dates.Date)
    ensures MakeConfig(schedule, firstStart, DefaultPayDelay).Ok?
    ensures MakeGeneration(ScheduleConfig(schedule, firstStart, DefaultPayDelay), DefaultNumPeriods).Ok?
  {
  }
}
