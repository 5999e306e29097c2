/** Pay periods and the ways the system looks one up: the period that
    contains a date (the service's notion of "current", and the screens'
    lookup by date), and the screens' notion of "current", which falls back
    to the latest past period and then to the first future one. */
module PayPeriods {
  import opened Wrappers
  import Dates

  /** A numbered period with its first and last day (both included) and the
      day it is paid. */
  datatype Period = Period(number: int, start: Dates.Date, end: Dates.Date, pay: Dates.Date)

  /** `start <= d <= end` */
  predicate Contains(p: Period, d: Dates.Date) {
    Dates.NotAfter(p.start, d) && Dates.NotAfter(d, p.end)
  }

  /** The period ended before `d`. */
  predicate IsPast(p: Period, d: Dates.Date) {
    Dates.Before(p.end, d)
  }

  /** The period starts after `d`. */
  predicate IsFuture(p: Period, d: Dates.Date) {
    Dates.Before(d, p.start)
  }

  /** Every period, well-formed or not, contains `d`, lies before it or
      lies after it. */
  lemma Trichotomy(p: Period, d: Dates.Date)
    ensures Contains(p, d) || IsPast(p, d) || IsFuture(p, d)
  {
  }

  /** The position of the first period containing `d`. */
  function FirstContaining(ps: seq<Period>, d: Dates.Date): (r: Option<nat>)
    ensures r.None? <==> forall i :: 0 <= i < |ps| ==> !Contains(ps[i], d)
    ensures r.Some? ==> r.value < |ps| && Contains(ps[r.value], d)
                        && forall j :: 0 <= j < r.value ==> !Contains(ps[j], d)
    decreases |ps|
  {
    if |ps| == 0 then None
    else if Contains(ps[0], d) then Some(0)
    else
      match FirstContaining(ps[1..], d)
      case None => None
      case Some(k) => Some(k + 1)
  }

  /** The position of the last period that ended before `d`. */
  function LastPast(ps: seq<Period>, d: Dates.Date): (r: Option<nat>)
    ensures r.None? <==> forall i :: 0 <= i < |ps| ==> !IsPast(ps[i], d)
    ensures r.Some? ==> r.value < |ps| && IsPast(ps[r.value], d)
                        && forall j :: r.value < j < |ps| ==> !IsPast(ps[j], d)
    decreases |ps|
  {
    if |ps| == 0 then None
    else if IsPast(ps[|ps| - 1], d) then Some(|ps| - 1)
    else LastPast(ps[..|ps| - 1], d)
  }

  /** The position of the first period that starts after `d`. */
  function FirstFuture(ps: seq<Period>, d: Dates.Date): (r: Option<nat>)
    ensures r.None? <==> forall i :: 0 <= i < |ps| ==> !IsFuture(ps[i], d)
    ensures r.Some? ==> r.value < |ps| && IsFuture(ps[r.value], d)
                        && forall j :: 0 <= j < r.value ==> !IsFuture(ps[j], d)
    decreases |ps|
  {
    if |ps| == 0 then None
    else if IsFuture(ps[0], d) then Some(0)
    else
      match FirstFuture(ps[1..], d)
      case None => None
      case Some(k) => Some(k + 1)
  }

  /** The period containing `d`, if any: the service's current period and
      the screens' lookup by date.  There is no fallback. */
  function PeriodContaining(ps: seq<Period>, d: Dates.Date): (r: Option<Period>)
    ensures r.Some? ==> r.value in ps && Contains(r.value, d)
    ensures r.None? <==> forall p :: p in ps ==> !Contains(p, d)
  {
    match FirstContaining(ps, d)
    case None => None
    case Some(i) => Some(ps[i])
  }

  /** The screens' current period: the first containing `today`, else the
      latest past one, else the first future one, else none. */
  function CurrentWithFallback(ps: seq<Period>, today: Dates.Date): (r: Option<Period>)
    ensures FirstContaining(ps, today).Some? ==> r == Some(ps[FirstContaining(ps, today).value])
    ensures FirstContaining(ps, today).None? && LastPast(ps, today).Some?
      ==> r == Some(ps[LastPast(ps, today).value])
    ensures FirstContaining(ps, today).None? && LastPast(ps, today).None? && FirstFuture(ps, today).Some?
      ==> r == Some(ps[FirstFuture(ps, today).value])
  {
    match FirstContaining(ps, today)
    case Some(i) => Some(ps[i])
    case None =>
      match LastPast(ps, today)
      case Some(i) => Some(ps[i])
      case None =>
        match FirstFuture(ps, today)
        case Some(i) => Some(ps[i])
        case None => None
  }

  /** The fallback finds a period whenever there is one: it is empty only
      for an empty schedule.  The service's lookup, by contrast, finds
      nothing on a day between two periods. */
  lemma FallbackEmptyOnlyWithoutPeriods(ps: seq<Period>, today: Dates.Date)
    ensures CurrentWithFallback(ps, today).None? <==> |ps| == 0
  {
    if |ps| > 0 {
      Trichotomy(ps[0], today);
    }
  }

  /** When some period contains the day, both notions of "current" agree. */
  lemma CurrentNotionsAgree(ps: seq<Period>, today: Dates.Date)
    requires exists p :: p in ps && Contains(p, today)
    ensures CurrentWithFallback(ps, today) == PeriodContaining(ps, today)
    ensures CurrentWithFallback(ps, today).Some?
  {
  }

  /** A day in the gap between two periods: the service finds no current
      period while the screens fall back to the one that just ended. */
  lemma CurrentNotionsDiffer()
    ensures var ps := [Period(1, Dates.Date(2024, 1, 1), Dates.Date(2024, 1, 14), Dates.Date(2024, 1, 18)),
                       Period(2, Dates.Date(2024, 2, 1), Dates.Date(2024, 2, 14), Dates.Date(2024, 2, 18))];
      PeriodContaining(ps, Dates.Date(2024, 1, 20)).None?
      && CurrentWithFallback(ps, Dates.Date(2024, 1, 20)) == Some(ps[0])
  {
    var ps := [Period(1, Dates.Date(2024, 1, 1), Dates.Date(2024, 1, 14), Dates.Date(2024, 1, 18)),
               Period(2, Dates.Date(2024, 2, 1), Dates.Date(2024, 2, 14), Dates.Date(2024, 2, 18))];
    var d := Dates.Date(2024, 1, 20);
    assert !Contains(ps[0], d) && !Contains(ps[1], d);
    assert IsPast(ps[0], d) && !IsPast(ps[1], d);
  }
}
