/** The service's pay-period rules: generating a run of periods from a
    schedule configuration, reading the configuration back from stored
    periods, and listing the periods of one year. */
module ApiPayPeriods {
  import opened Wrappers
  import opened Dates
  import opened PayPeriods
  import opened PayPeriodSchema

  /** A semi-monthly run that starts on the last day of a month other than
      the 1st: its first period would end the day it starts. */
  predicate OneDayStart(s: Schedule, start: Date)
    requires Valid(start)
  {
    s == SemiMonthly && start.day != 1 && start.day == DaysInMonth(start.year, start.month)
  }

  /** The end of the period starting on `start`, and the next start. */
  function Step(s: Schedule, start: Date): (r: (Date, Date))
    requires Valid(start)
    ensures Valid(r.0) && Valid(r.1)
    ensures r.1 == NextDay(r.0)
    ensures NotAfter(start, r.0)
    ensures r.0 == start <==> OneDayStart(s, start)
    ensures s == Weekly ==> r.0 == AddDays(start, 6) && r.1 == AddDays(start, 7)
    ensures s == BiWeekly ==> r.0 == AddDays(start, 13) && r.1 == AddDays(start, 14)
    ensures s == SemiMonthly && start.day == 1
      ==> r.0 == Date(start.year, start.month, 15) && r.1 == Date(start.year, start.month, 16)
    ensures s == SemiMonthly && start.day != 1
      ==> r.0 == LastOfMonth(start) && r.1 == FirstOfNextMonth(start)
    ensures s == SemiMonthly ==> r.1.day == 1 || r.1.day == 16
    ensures s == Monthly ==> r.1 == AddOneMonth(start)
  {
    match s
    case Weekly =>
      AddDaysStep(start, 6);
      AddDaysOrder(start, 6);
      (AddDays(start, 6), AddDays(start, 7))
    case BiWeekly =>
      AddDaysStep(start, 13);
      AddDaysOrder(start, 13);
      (AddDays(start, 13), AddDays(start, 14))
    case SemiMonthly =>
      if start.day == 1 then
        (Date(start.year, start.month, 15), Date(start.year, start.month, 16))
      else
        var next := AddOneMonth(Date(start.year, start.month, 1));
        assert next == FirstOfNextMonth(start);
        (PrevDay(next), next)
    case Monthly =>
      var next := AddOneMonth(start);
      AddOneMonthOrdinal(start);
      var end := PrevDay(next);
      NextDayOrdinal(end);
      NextDayOrdinal(start);
      OrdinalOrder(start, end);
      (end, next)
  }

  /** Periods `number`, `number + 1`, ... of a run starting on `start`;
      creating a period that breaks the period rules raises and ends the
      run. */
  function GenerateFrom(s: Schedule, start: Date, delay: nat, number: int, count: nat): (r: Result<seq<Period>>)
    requires Valid(start) && number >= 1
    ensures r.Err? <==> count > 0 && OneDayStart(s, start)
    ensures r.Ok? ==> |r.value| == count
    ensures r.Ok? && count > 0 ==> r.value[0].start == start
    ensures r.Ok? ==> forall k :: 0 <= k < |r.value| ==>
      r.value[k].number == number + k
      && Valid(r.value[k].start) && Valid(r.value[k].end)
      && r.value[k].end == Step(s, r.value[k].start).0
      && r.value[k].pay == AddDays(r.value[k].end, delay)
      && WellFormed(r.value[k])
    ensures r.Ok? ==> forall k :: 0 <= k < |r.value| - 1 ==> r.value[k + 1].start == NextDay(r.value[k].end)
    decreases count
  {
    if count == 0 then Ok([])
    else
      var (end, next) := Step(s, start);
      AddDaysOrder(end, delay);
      var p :- MakePeriod(Period(number, start, end, AddDays(end, delay)));
      var rest :- GenerateFrom(s, next, delay, number + 1, count - 1);
      Ok([p] + rest)
  }

  /** The service's generator: periods numbered from 1, each starting the day
      after the previous one ends, paid `payDelay` days after it ends. */
  function Generate(g: Generation): (r: Result<seq<Period>>)
    requires Valid(g.config.firstStart) && ConfigValid(g.config)
    ensures r.Err? <==> OneDayStart(g.config.schedule, g.config.firstStart) && g.numPeriods > 0
    ensures r.Ok? ==> |r.value| == g.numPeriods
    ensures r.Ok? && g.numPeriods > 0 ==> r.value[0].start == g.config.firstStart
    ensures r.Ok? ==> forall k :: 0 <= k < |r.value| ==> r.value[k].number == k + 1 && WellFormed(r.value[k])
    ensures r.Ok? ==> forall k :: 0 <= k < |r.value| ==>
      Valid(r.value[k].end) && r.value[k].pay == AddDays(r.value[k].end, g.config.payDelay)
    ensures r.Ok? ==> forall k :: 0 <= k < |r.value| - 1 ==> r.value[k + 1].start == NextDay(r.value[k].end)
  {
    GenerateFrom(g.config.schedule, g.config.firstStart, g.config.payDelay, 1, g.numPeriods)
  }

  /** A generated run leaves no day uncovered: every day from the first
      start to the last end lies in some period. */
  lemma {:induction false} GeneratedCovers(ps: seq<Period>, d: Date) returns (k: nat)
    requires forall k :: 0 <= k < |ps| ==> Valid(ps[k].start) && Valid(ps[k].end) && NotAfter(ps[k].start, ps[k].end)
    requires forall k :: 0 <= k < |ps| - 1 ==> ps[k + 1].start == NextDay(ps[k].end)
    requires |ps| > 0 && Valid(d) && NotAfter(ps[0].start, d) && NotAfter(d, ps[|ps| - 1].end)
    ensures k < |ps| && Contains(ps[k], d)
    decreases |ps|
  {
    if Contains(ps[0], d) {
      return 0;
    }
    OrdinalOrder(d, ps[0].end);
    NextDayOrdinal(ps[0].end);
    OrdinalOrder(ps[1].start, d);
    var rest := ps[1..];
    assert forall k :: 0 <= k < |rest| - 1 ==> rest[k + 1].start == NextDay(rest[k].end) by {
      forall k | 0 <= k < |rest| - 1 ensures rest[k + 1].start == NextDay(rest[k].end) {
        assert rest[k + 1] == ps[k + 2] && rest[k] == ps[k + 1];
      }
    }
    var j := GeneratedCovers(rest, d);
    return j + 1;
  }

  /** ... and covers no day twice. */
  lemma {:induction false} GeneratedNoOverlap(ps: seq<Period>, d: Date, i: nat, j: nat)
    requires forall k :: 0 <= k < |ps| ==> Valid(ps[k].start) && Valid(ps[k].end) && NotAfter(ps[k].start, ps[k].end)
    requires forall k :: 0 <= k < |ps| - 1 ==> ps[k + 1].start == NextDay(ps[k].end)
    requires i < j < |ps|
    ensures !(Contains(ps[i], d) && Contains(ps[j], d))
    decreases j - i
  {
    if Contains(ps[i], d) && Contains(ps[j], d) {
      LaterStartsAfter(ps, i, j);
      OrdinalOrder(ps[i].end, ps[j].start);
      assert Valid(d) by { assert Valid(ps[i].start); }
      OrdinalOrder(d, ps[i].end);
      OrdinalOrder(ps[j].start, d);
      assert false;
    }
  }

  /** Each later period starts after an earlier one ends. */
  lemma {:induction false} LaterStartsAfter(ps: seq<Period>, i: nat, j: nat)
    requires forall k :: 0 <= k < |ps| ==> Valid(ps[k].start) && Valid(ps[k].end) && NotAfter(ps[k].start, ps[k].end)
    requires forall k :: 0 <= k < |ps| - 1 ==> ps[k + 1].start == NextDay(ps[k].end)
    requires i < j < |ps|
    ensures Ordinal(ps[i].end) < Ordinal(ps[j].start)
    decreases j - i
  {
    NextDayOrdinal(ps[i].end);
    if i + 1 < j {
      LaterStartsAfter(ps, i + 1, j);
      OrdinalOrder(ps[i + 1].start, ps[i + 1].end);
    }
  }

  /** The schedule a stored run appears to follow, judged from its first
      two periods: a seven-day step is weekly, a fourteen-day step
      bi-weekly, a first period longer than 25 days monthly, and anything
      else semi-monthly. */
  function Classify(daysBetween: int, periodLength: int): (s: Schedule)
    ensures daysBetween == 7 <==> s == Weekly
    ensures s == BiWeekly <==> daysBetween == 14
    ensures s == Monthly <==> daysBetween != 7 && daysBetween != 14 && periodLength > 25
  {
    if daysBetween == 7 then Weekly
    else if daysBetween == 14 then BiWeekly
    else if periodLength > 25 then Monthly
    else SemiMonthly
  }

  /** The configuration read back from stored periods: none for fewer than
      two, and an error when the first period's pay delay is outside the
      configuration's bounds. */
  function InferConfig(ps: seq<Period>): (r: Result<Option<ScheduleConfig>>)
    requires forall k :: 0 <= k < |ps| ==> Valid(ps[k].start) && Valid(ps[k].end) && Valid(ps[k].pay)
    ensures |ps| < 2 ==> r == Ok(None)
    ensures |ps| >= 2 ==> (r.Ok? <==> 0 <= Ordinal(ps[0].pay) - Ordinal(ps[0].end) <= MaxPayDelay)
    ensures r.Ok? && |ps| >= 2 ==>
      r.value.Some?
      && r.value.value.firstStart == ps[0].start
      && Ordinal(ps[0].end) + r.value.value.payDelay == Ordinal(ps[0].pay)
      && r.value.value.schedule == Classify(DaysBetween(ps[0].start, ps[1].start), DaysBetween(ps[0].start, ps[0].end) + 1)
  {
    if |ps| < 2 then Ok(None)
    else
      var between := DaysBetween(ps[0].start, ps[1].start);
      var length := DaysBetween(ps[0].start, ps[0].end) + 1;
      var delay := DaysBetween(ps[0].end, ps[0].pay);
      var c :- MakeConfig(Classify(between, length), ps[0].start, delay);
      Ok(Some(c))
  }

  /** Generating and reading back gives the configuration again, for weekly,
      bi-weekly and monthly runs and for semi-monthly runs that start on the
      1st. */
  lemma InferGenerated(g: Generation)
    requires Valid(g.config.firstStart) && ConfigValid(g.config) && g.numPeriods >= 2
    requires g.config.schedule == SemiMonthly ==> g.config.firstStart.day == 1
    ensures Generate(g).Ok?
    ensures forall k :: 0 <= k < |Generate(g).value| ==>
      Valid(Generate(g).value[k].start) && Valid(Generate(g).value[k].end) && Valid(Generate(g).value[k].pay)
    ensures InferConfig(Generate(g).value) == Ok(Some(g.config))
  {
    var c := g.config;
    var ps := Generate(g).value;
    var start := c.firstStart;
    var (end, next) := Step(c.schedule, start);
    FirstTwo(g);
    AddDaysOrdinal(end, c.payDelay);
    StepLengths(c.schedule, start);
    ReadBack(ps, c);
  }

  /** The first two periods of a generated run. */
  lemma FirstTwo(g: Generation)
    requires Valid(g.config.firstStart) && ConfigValid(g.config) && g.numPeriods >= 2
    requires !OneDayStart(g.config.schedule, g.config.firstStart)
    ensures Generate(g).Ok?
    ensures var ps, st := Generate(g).value, Step(g.config.schedule, g.config.firstStart);
      ps[0].start == g.config.firstStart && ps[0].end == st.0 && ps[1].start == st.1
      && ps[0].pay == AddDays(st.0, g.config.payDelay)
  {
  }

  /** The step and first-period length of each schedule, in days. */
  lemma StepLengths(s: Schedule, start: Date)
    requires Valid(start)
    requires s == SemiMonthly ==> start.day == 1
    ensures var st := Step(s, start);
      Classify(DaysBetween(start, st.1), DaysBetween(start, st.0) + 1) == s
  {
    var st := Step(s, start);
    NextDayOrdinal(st.0);
    match s
    case Weekly =>
      AddDaysOrdinal(start, 7);
    case BiWeekly =>
      AddDaysOrdinal(start, 14);
    case SemiMonthly =>
    case Monthly =>
      AddOneMonthOrdinal(start);
  }

  /** Reading back a run whose first two periods show a configuration. */
  lemma ReadBack(ps: seq<Period>, c: ScheduleConfig)
    requires forall k :: 0 <= k < |ps| ==> Valid(ps[k].start) && Valid(ps[k].end) && Valid(ps[k].pay)
    requires |ps| >= 2 && ConfigValid(c)
    requires ps[0].start == c.firstStart
    requires Ordinal(ps[0].pay) - Ordinal(ps[0].end) == c.payDelay
    requires Classify(DaysBetween(ps[0].start, ps[1].start), DaysBetween(ps[0].start, ps[0].end) + 1) == c.schedule
    ensures InferConfig(ps) == Ok(Some(c))
  {
  }

  /** The reading is ambiguous: a semi-monthly run starting on the 16th of
      February in a leap year has a fourteen-day first period, the same as a
      bi-weekly run, and is read back as bi-weekly. */
  lemma InferenceMisreadsLeapFebruary()
    ensures var g := Generation(ScheduleConfig(SemiMonthly, Date(2024, 2, 16), 0), 2);
      Generate(g).Ok?
      && InferConfig(Generate(g).value) == Ok(Some(ScheduleConfig(BiWeekly, Date(2024, 2, 16), 0)))
  {
    var g := Generation(ScheduleConfig(SemiMonthly, Date(2024, 2, 16), 0), 2);
    var ps := Generate(g).value;
    assert ps[0].start == Date(2024, 2, 16);
    assert ps[0].end == Date(2024, 2, 29);
    assert ps[1].start == Date(2024, 3, 1);
    assert ps[0].pay == Date(2024, 2, 29);
  }

  /** The stored periods of one year, or all of them, each with its position
      in the stored list, which is the identifier the service gives it. */
  function PeriodsOfYear(ps: seq<Period>, year: Option<int>): (r: seq<(nat, Period)>)
    ensures |r| <= |ps|
    ensures year.None? ==> |r| == |ps|
    ensures forall e :: e in r <==> e.0 < |ps| && e.1 == ps[e.0] && (year.None? || ps[e.0].start.year == year.value)
    ensures forall a, b :: 0 <= a < b < |r| ==> r[a].0 < r[b].0
    decreases |ps|
  {
    if |ps| == 0 then []
    else
      var n := |ps| - 1;
      var rest := PeriodsOfYear(ps[..n], year);
      if year.None? || ps[n].start.year == year.value then rest + [(n, ps[n])] else rest
  }
}
