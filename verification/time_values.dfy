/** Reading a number of hours out of whatever a timesheet cell holds: a
    time of day, a number, a decimal text, "H:M", "Xh Ym" words or a text
    with some number in it.  Every result is quantized to cents with the
    default Decimal rounding (ties to even).  The float steps of the
    original (`minutes / 60.0`) are exact rationals here. */
module TimeValues {
  import opened Wrappers
  import Text
  import Numbers
  import Decimals

  /** A value as the converter receives it. */
  datatype TimeValue =
    | Blank                            // None, NaN or ''
    | Clock(hour: nat, minute: nat)    // a time of day, or a timestamp's time part
    | Number(x: real)
    | Written(s: string)

  /** `hours + minutes / 60` */
  function HoursOf(hours: real, minutes: real): real {
    hours + minutes / 60.0
  }

  // ---- int() ----------------------------------------------------------------------

  /** Python's `int(t)` for text: optional blanks around an optional sign
      and at least one digit. */
  function IntValue(t: string): (r: Option<int>)
  {
    var u := Text.Strip(t);
    if |u| > 0 && (u[0] == '-' || u[0] == '+') then
      var d := u[1..];
      if |d| > 0 && Numbers.AllDigits(d) then
        Some(if u[0] == '-' then -(Text.DigitsValue(d) as int) else Text.DigitsValue(d) as int)
      else None
    else if |u| > 0 && Numbers.AllDigits(u) then Some(Text.DigitsValue(u) as int)
    else None
  }

  /** Whatever `int` reads, `float` reads as the same number. */
  lemma IntIsDecimal(t: string)
    ensures IntValue(t).Some? ==> Numbers.ParseDecimal(t) == Some(IntValue(t).value as real)
  {
    var u := Text.Strip(t);
    if IntValue(t).Some? {
      if u[0] == '-' || u[0] == '+' {
        UnsignedDigits(u[1..]);
      } else {
        UnsignedDigits(u);
      }
    }
  }

  lemma UnsignedDigits(d: string)
    requires |d| > 0 && Numbers.AllDigits(d)
    ensures Numbers.ParseUnsigned(d) == Some(Text.DigitsValue(d) as real)
  {
    Text.SplitNoSeparator(d, '.');
  }

  // ---- the two regular expressions ---------------------------------------------------

  /** The end of the run of digits that starts at `i`. */
  function RunEnd(s: string, i: nat): (e: nat)
    requires i <= |s|
    ensures i <= e <= |s|
    ensures forall k :: i <= k < e ==> Text.IsDigit(s[k])
    ensures e < |s| ==> !Text.IsDigit(s[e])
    decreases |s| - i
  {
    if i < |s| && Text.IsDigit(s[i]) then RunEnd(s, i + 1) else i
  }

  /** The end of the run of blanks that starts at `i` (`\s*`). */
  function BlanksEnd(s: string, i: nat): (e: nat)
    requires i <= |s|
    ensures i <= e <= |s|
    ensures forall k :: i <= k < e ==> Text.IsSpace(s[k])
    ensures e < |s| ==> !Text.IsSpace(s[e])
    decreases |s| - i
  {
    if i < |s| && Text.IsSpace(s[i]) then BlanksEnd(s, i + 1) else i
  }

  /** Where the number starting at `i` ends: `\d+` for whole numbers, or
      `\d+\.?\d*` when a fraction is allowed. */
  function NumberEnd(s: string, i: nat, fractions: bool): (e: nat)
    requires i <= |s|
    ensures RunEnd(s, i) <= e <= |s|
  {
    var w := RunEnd(s, i);
    if fractions && w < |s| && s[w] == '.' then RunEnd(s, w + 1) else w
  }

  /** The value of the number starting at `i`. */
  function Quantity(s: string, i: nat, fractions: bool): (v: real)
    requires i <= |s|
    ensures v >= 0.0
  {
    var w := RunEnd(s, i);
    var e := NumberEnd(s, i, fractions);
    var whole := s[i..w];
    var frac := if e > w then s[w + 1..e] else "";
    assert Numbers.AllDigits(whole) by {
      forall k | 0 <= k < |whole| ensures Text.IsDigit(whole[k]) { assert whole[k] == s[i + k]; }
    }
    assert Numbers.AllDigits(frac) by {
      forall k | 0 <= k < |frac| ensures Text.IsDigit(frac[k]) { assert frac[k] == s[w + 1 + k]; }
    }
    Numbers.DecimalValue(whole, frac)
  }

  /** The pattern "number, blanks, `unit`" matches at `i`. */
  predicate MatchesAt(s: string, i: nat, unit: char, fractions: bool) {
    i < |s| && Text.IsDigit(s[i]) &&
    var k := BlanksEnd(s, NumberEnd(s, i, fractions));
    k < |s| && s[k] == unit
  }

  /** `re.search`: the leftmost position from `i` on where the pattern
      matches. */
  function Search(s: string, i: nat, unit: char, fractions: bool): (r: Option<nat>)
    requires i <= |s|
    ensures r.Some? ==> i <= r.value < |s| && MatchesAt(s, r.value, unit, fractions)
    ensures r.Some? ==> forall q :: i <= q < r.value ==> !MatchesAt(s, q, unit, fractions)
    ensures r.None? ==> forall q :: i <= q < |s| ==> !MatchesAt(s, q, unit, fractions)
    decreases |s| - i
  {
    if i == |s| then None
    else if MatchesAt(s, i, unit, fractions) then Some(i)
    else Search(s, i + 1, unit, fractions)
  }

  /** The first digit from `i` on: where `\d+\.?\d*` matches. */
  function FirstDigit(s: string, i: nat): (r: Option<nat>)
    requires i <= |s|
    ensures r.Some? ==> i <= r.value < |s| && Text.IsDigit(s[r.value])
    ensures r.Some? ==> forall q :: i <= q < r.value ==> !Text.IsDigit(s[q])
    ensures r.None? ==> forall q :: i <= q < |s| ==> !Text.IsDigit(s[q])
    decreases |s| - i
  {
    if i == |s| then None
    else if Text.IsDigit(s[i]) then Some(i)
    else FirstDigit(s, i + 1)
  }

  /** The amount the unit search finds, or 0 without a match. */
  function Amount(s: string, unit: char, fractions: bool): real {
    match Search(s, 0, unit, fractions)
    case Some(p) => Quantity(s, p, fractions)
    case None => 0.0
  }

  // ---- conversion --------------------------------------------------------------------

  /** "H:M" (and "H:M:S"): both leading fields must read as integers. */
  function ClockText(t: string): (r: Option<real>)
  {
    if ':' !in t then None
    else
      var parts := Text.Split(t, ':');
      var minutes := if |parts| > 1 then IntValue(parts[1]) else Some(0);
      match (IntValue(parts[0]), minutes)
      case (Some(h), Some(m)) => Some(HoursOf(h as real, m as real))
      case _ => None
  }

  /** The text path: a decimal, then "H:M", then the words. */
  function FromText(s: string, fractions: bool): (r: real)
    ensures Decimals.IsCents(r)
  {
    var t := Text.Strip(s);
    match Numbers.ParseDecimal(t)
    case Some(x) => Decimals.CentsHalfEven(x)
    case None =>
      match ClockText(t)
      case Some(h) => Decimals.CentsHalfEven(h)
      case None => FromWords(t, fractions)
  }

  /** "Xh Ym" words, then the first number anywhere, then zero.
      `fractions` says whether the hour and minute counts of the words may
      carry a fraction. */
  function FromWords(t: string, fractions: bool): (r: real)
    ensures Decimals.IsCents(r)
  {
    var lower := Text.Lower(t);
    var hours := Amount(lower, 'h', fractions);
    var minutes := Amount(lower, 'm', fractions);
    if hours > 0.0 || minutes > 0.0 then Decimals.CentsHalfEven(HoursOf(hours, minutes))
    else match FirstDigit(t, 0)
      case Some(p) => Decimals.CentsHalfEven(Quantity(t, p, true))
      case None => 0.0
  }

  lemma DecimalStep(s: string, x: real, fractions: bool)
    requires Text.Strip(s) == s && Numbers.ParseDecimal(s) == Some(x)
    ensures FromText(s, fractions) == Decimals.CentsHalfEven(x)
  {
  }

  lemma ClockStep(s: string, h: real, fractions: bool)
    requires Text.Strip(s) == s && Numbers.ParseDecimal(s) == None && ClockText(s) == Some(h)
    ensures FromText(s, fractions) == Decimals.CentsHalfEven(h)
  {
  }

  lemma WordsStep(s: string, fractions: bool)
    requires Text.Strip(s) == s && Numbers.ParseDecimal(s) == None && ClockText(s) == None
    ensures FromText(s, fractions) == FromWords(s, fractions)
  {
  }

  /** `convert_time_to_decimal` as written: the word counts are whole
      numbers (`(\d+)\s*h`), so "7.5 hours" reads as 5 hours. */
  function ConvertAsWritten(v: TimeValue): (r: real)
    ensures Decimals.IsCents(r)
    ensures v.Blank? ==> r == 0.0
    ensures v.Clock? ==> r == Decimals.CentsHalfEven(HoursOf(v.hour as real, v.minute as real))
    ensures v.Number? ==> r == Decimals.CentsHalfEven(v.x)
  {
    match v
    case Blank => 0.0
    case Clock(h, m) => Decimals.CentsHalfEven(HoursOf(h as real, m as real))
    case Number(x) => Decimals.CentsHalfEven(x)
    case Written(s) => FromText(s, false)
  }

  /** The converter the rest of the model uses: as written, except that
      the hour and minute counts of the words may carry a fraction. */
  function Convert(v: TimeValue): (r: real)
    ensures Decimals.IsCents(r)
    ensures v.Blank? ==> r == 0.0
    ensures v.Clock? ==> r == Decimals.CentsHalfEven(HoursOf(v.hour as real, v.minute as real))
    ensures v.Number? ==> r == Decimals.CentsHalfEven(v.x)
    ensures !v.Written? ==> r == ConvertAsWritten(v)
  {
    match v
    case Written(s) => FromText(s, true)
    case _ => ConvertAsWritten(v)
  }

  // ---- agreement of the forms -------------------------------------------------------------

  /** A printed amount of hours (`f"{x:.2f}"`) reads back unchanged. */
  lemma PrintedHoursReadBack(cents: nat)
    ensures Convert(Written(Numbers.CentsText(cents))) == cents as real / 100.0
    ensures ConvertAsWritten(Written(Numbers.CentsText(cents))) == cents as real / 100.0
  {
    var s := Numbers.CentsText(cents);
    PrintedCentsStripped(cents);
    Numbers.ParseCents(cents);
    DecimalStep(s, cents as real / 100.0, true);
    DecimalStep(s, cents as real / 100.0, false);
    assert Decimals.IsCents(cents as real / 100.0) by {
      assert (cents as real / 100.0) * 100.0 == cents as real;
    }
  }

  lemma PrintedCentsStripped(cents: nat)
    ensures Text.Strip(Numbers.CentsText(cents)) == Numbers.CentsText(cents)
  {
    var s := Numbers.CentsText(cents);
    var w := Text.NatToString(cents / 100);
    var f := Text.ZeroFill(Text.NatToString(cents % 100), 2);
    assert s == w + "." + f;
    assert s[0] == w[0] && Text.IsDigit(s[0]);
    Text.LeadingZeros(Text.NatToString(cents % 100), 2);
    assert s[|s| - 1] == f[|f| - 1] && Text.IsDigit(s[|s| - 1]);
    Text.StripKeepsNonBlank(s);
  }

  /** "H:MM" text reads as the same hours as the time of day H:MM. */
  lemma ClockTextAgrees(h: nat, m: nat)
    ensures Convert(Written(Text.NatToString(h) + ":" + Text.ZeroFill(Text.NatToString(m), 2)))
            == Convert(Clock(h, m))
  {
    var hs := Text.NatToString(h);
    var ms := Text.ZeroFill(Text.NatToString(m), 2);
    Text.LeadingZeros(Text.NatToString(m), 2);
    Text.DigitsOfNat(h);
    Text.DigitsOfNat(m);
    ClockRead(hs, ms, hs + ":" + ms, true);
  }

  /** Digits, ':' and digits read as hours and minutes. */
  lemma ClockRead(hs: string, ms: string, s: string, fractions: bool)
    requires |hs| > 0 && Numbers.AllDigits(hs) && |ms| > 0 && Numbers.AllDigits(ms)
    requires s == hs + [':'] + ms
    ensures FromText(s, fractions)
            == Decimals.CentsHalfEven(HoursOf(Text.DigitsValue(hs) as real, Text.DigitsValue(ms) as real))
  {
    ClockLayout(hs, ms, s);
    ClockNotDecimal(hs, ms, s);
    assert ':' !in hs && ':' !in ms;
    ClockFields(hs, ms, s);
    IntOfDigits(hs);
    IntOfDigits(ms);
    ClockStep(s, HoursOf(Text.DigitsValue(hs) as real, Text.DigitsValue(ms) as real), fractions);
  }

  lemma ClockFields(hs: string, ms: string, s: string)
    requires s == hs + [':'] + ms && ':' !in hs && ':' !in ms
    ensures ClockText(s) == match (IntValue(hs), IntValue(ms))
                            case (Some(h), Some(m)) => Some(HoursOf(h as real, m as real))
                            case _ => None
  {
    Text.SplitTwo(hs, ms, ':');
    assert s[|hs|] == ':';
  }

  /** `int` of a string of digits is their value. */
  lemma IntOfDigits(d: string)
    requires |d| > 0 && Numbers.AllDigits(d)
    ensures IntValue(d) == Some(Text.DigitsValue(d) as int)
  {
    Numbers.StripDigits(d);
  }

  /** "H:MM" is stripped, and only its ':' is not a digit. */
  lemma ClockLayout(hs: string, ms: string, s: string)
    requires |hs| > 0 && Numbers.AllDigits(hs) && |ms| > 0 && Numbers.AllDigits(ms)
    requires s == hs + [':'] + ms
    ensures Text.Strip(s) == s
    ensures forall k :: 0 <= k < |s| && k != |hs| ==> Text.IsDigit(s[k])
    ensures s[|hs|] == ':'
  {
    forall k | 0 <= k < |s| && k != |hs| ensures Text.IsDigit(s[k]) {
      if k < |hs| { assert s[k] == hs[k]; } else { assert s[k] == ms[k - |hs| - 1]; }
    }
    Text.StripKeepsNonBlank(s);
  }

  lemma ClockNotDecimal(hs: string, ms: string, s: string)
    requires |hs| < |s| && s[|hs|] == ':' && Text.Strip(s) == s
    requires forall k :: 0 <= k < |s| && k != |hs| ==> Text.IsDigit(s[k])
    ensures Numbers.ParseDecimal(s) == None
  {
    assert forall k :: 0 <= k < |s| ==> s[k] != '.' by {
      forall k | 0 <= k < |s| ensures s[k] != '.' { if k != |hs| { assert Text.IsDigit(s[k]); } }
    }
    Text.SplitNoSeparator(s, '.');
    assert s[0] != '-' && s[0] != '+' by { if |hs| != 0 { assert Text.IsDigit(s[0]); } }
    assert !Numbers.AllDigits(s) by { assert !Text.IsDigit(s[|hs|]); }
  }

  // ---- decimal hours in words ---------------------------------------------------------------

  const HoursWord := " hours"

  /** The run of digits from `i` ends exactly at `e`. */
  lemma RunEndIs(s: string, i: nat, e: nat)
    requires i <= e <= |s|
    requires forall k :: i <= k < e ==> Text.IsDigit(s[k])
    requires e < |s| ==> !Text.IsDigit(s[e])
    ensures RunEnd(s, i) == e
  {
  }

  /** `s` is "w.f hours", index by index. */
  predicate HoursLayout(s: string, w: string, f: string) {
    |w| > 0 && Numbers.AllDigits(w) && Numbers.AllDigits(f) &&
    |s| == |w| + |f| + 7 &&
    (forall k :: 0 <= k < |w| ==> s[k] == w[k]) &&
    s[|w|] == '.' &&
    (forall k :: 0 <= k < |f| ==> s[|w| + 1 + k] == f[k]) &&
    s[|w| + 1 + |f|..] == HoursWord
  }

  lemma LayoutOf(w: string, f: string)
    requires |w| > 0 && Numbers.AllDigits(w) && Numbers.AllDigits(f)
    ensures HoursLayout(w + "." + f + HoursWord, w, f)
  {
  }

  /** The characters of " hours". */
  lemma TailChars(s: string, w: string, f: string)
    requires HoursLayout(s, w, f)
    ensures forall k :: |w| + 1 + |f| <= k < |s| ==>
              !Text.IsDigit(s[k]) && s[k] != 'm' && s[k] != ':' && s[k] != '.' && !('A' <= s[k] <= 'Z')
    ensures s[|w| + 1 + |f|] == ' ' && s[|w| + 2 + |f|] == 'h' && s[|s| - 1] == 's'
  {
    var n := |w| + 1 + |f|;
    forall k | n <= k < |s|
      ensures !Text.IsDigit(s[k]) && s[k] != 'm' && s[k] != ':' && s[k] != '.' && !('A' <= s[k] <= 'Z')
    {
      assert s[k] == s[n..][k - n];
    }
    assert s[n] == s[n..][0] && s[n + 1] == s[n..][1] && s[|s| - 1] == s[n..][5];
  }

  /** The digits of "w" and "f". */
  lemma HeadChars(s: string, w: string, f: string)
    requires HoursLayout(s, w, f)
    ensures forall k :: 0 <= k < |w| + 1 + |f| && k != |w| ==> Text.IsDigit(s[k])
  {
    forall k | 0 <= k < |w| + 1 + |f| && k != |w|
      ensures Text.IsDigit(s[k])
    {
      if k < |w| { assert s[k] == w[k]; } else { assert s[k] == f[k - |w| - 1]; }
    }
  }

  /** Where the runs of digits and blanks of "w.f hours" end. */
  lemma HoursRuns(s: string, w: string, f: string)
    requires HoursLayout(s, w, f)
    ensures forall q :: 0 <= q < |w| ==> RunEnd(s, q) == |w|
    ensures forall q :: |w| + 1 <= q <= |w| + 1 + |f| ==> RunEnd(s, q) == |w| + 1 + |f|
    ensures BlanksEnd(s, |w| + 1 + |f|) == |w| + 2 + |f|
    ensures BlanksEnd(s, |w|) == |w|
  {
    var n := |w| + 1 + |f|;
    HeadChars(s, w, f);
    TailChars(s, w, f);
    forall q | 0 <= q < |w| ensures RunEnd(s, q) == |w| { RunEndIs(s, q, |w|); }
    forall q | |w| + 1 <= q <= n ensures RunEnd(s, q) == n { RunEndIs(s, q, n); }
  }

  /** "w.f hours" has no blank at either end and no capital letter. */
  lemma HoursPlain(s: string, w: string, f: string)
    requires HoursLayout(s, w, f)
    ensures Text.Strip(s) == s && Text.Lower(s) == s
  {
    HeadChars(s, w, f);
    TailChars(s, w, f);
    Text.StripKeepsNonBlank(s);
    forall k | 0 <= k < |s| ensures Text.LowerChar(s[k]) == s[k] {
      if k < |w| + 1 + |f| && k != |w| { assert Text.IsDigit(s[k]); }
    }
  }

  /** "w.f hours" is not a decimal: what follows the point is not all
      digits. */
  lemma HoursNotDecimal(s: string, w: string, f: string)
    requires HoursLayout(s, w, f)
    ensures Numbers.ParseDecimal(s) == None
  {
    HeadChars(s, w, f);
    TailChars(s, w, f);
    Text.StripKeepsNonBlank(s);
    var tail := s[|w| + 1..];
    assert s == w + ['.'] + tail;
    assert forall k :: 0 <= k < |w| ==> w[k] != '.' by {
      forall k | 0 <= k < |w| ensures w[k] != '.' { assert w[k] == s[k]; }
    }
    assert forall k :: 0 <= k < |tail| ==> tail[k] != '.' by {
      forall k | 0 <= k < |tail| ensures tail[k] != '.' { assert tail[k] == s[|w| + 1 + k]; }
    }
    Text.SplitTwo(w, tail, '.');
    assert !Numbers.AllDigits(tail) by { assert tail[|f|] == s[|w| + 1 + |f|]; }
  }

  /** "w.f hours" has no ':' and starts with a digit. */
  lemma HoursNoClock(s: string, w: string, f: string)
    requires HoursLayout(s, w, f)
    ensures ClockText(s) == None
    ensures FirstDigit(s, 0) == Some(0)
  {
    HeadChars(s, w, f);
    TailChars(s, w, f);
    forall k | 0 <= k < |s| ensures s[k] != ':' {
      if k < |w| + 1 + |f| && k != |w| { assert Text.IsDigit(s[k]); }
    }
  }

  /** As written, "w.f hours" reads as f hours: the whole-number pattern
      skips "w." and matches the digits after the point. */
  lemma DecimalHoursAsWritten(w: string, f: string)
    requires |w| > 0 && Numbers.AllDigits(w) && |f| > 0 && Numbers.AllDigits(f)
    requires Text.DigitsValue(f) > 0
    ensures ConvertAsWritten(Written(w + "." + f + HoursWord)) == Text.DigitsValue(f) as real
  {
    var s := w + "." + f + HoursWord;
    LayoutOf(w, f);
    HoursPlain(s, w, f);
    HoursNotDecimal(s, w, f);
    HoursNoClock(s, w, f);
    WordsStep(s, false);
    WholeHours(s, w, f);
  }

  lemma WholeHours(s: string, w: string, f: string)
    requires HoursLayout(s, w, f) && |f| > 0 && Text.DigitsValue(f) > 0
    requires Text.Lower(s) == s
    ensures FromWords(s, false) == Text.DigitsValue(f) as real
  {
    WholeIsCents(Text.DigitsValue(f));
    WholeHoursMatch(s, w, f);
    SearchFinds(s, |w| + 1, 'h', false);
    WholeHoursQuantity(s, w, f);
    NoMinutes(s, w, f, false);
    assert HoursOf(Text.DigitsValue(f) as real, 0.0) == Text.DigitsValue(f) as real;
  }

  lemma WholeIsCents(n: nat)
    ensures Decimals.CentsHalfEven(n as real) == n as real
  {
    assert Decimals.IsIntegral(n as real * 100.0) by {
      assert n as real * 100.0 == (n * 100) as real;
    }
  }

  /** The search finds the first place the pattern matches. */
  lemma SearchFinds(s: string, p: nat, unit: char, fractions: bool)
    requires p < |s| && MatchesAt(s, p, unit, fractions)
    requires forall q :: 0 <= q < p ==> !MatchesAt(s, q, unit, fractions)
    ensures Search(s, 0, unit, fractions) == Some(p)
  {
  }

  /** The whole-number pattern first matches at the digits after the point. */
  lemma WholeHoursMatch(s: string, w: string, f: string)
    requires HoursLayout(s, w, f) && |f| > 0
    ensures forall q :: 0 <= q < |w| + 1 ==> !MatchesAt(s, q, 'h', false)
    ensures MatchesAt(s, |w| + 1, 'h', false)
  {
    HoursRuns(s, w, f);
    HeadChars(s, w, f);
    TailChars(s, w, f);
    forall q | 0 <= q < |w| + 1 ensures !MatchesAt(s, q, 'h', false) {
      if q < |w| {
        assert NumberEnd(s, q, false) == |w|;
      }
    }
  }

  lemma WholeHoursQuantity(s: string, w: string, f: string)
    requires HoursLayout(s, w, f) && |f| > 0
    ensures Quantity(s, |w| + 1, false) == Text.DigitsValue(f) as real
  {
    var n := |w| + 1 + |f|;
    HoursRuns(s, w, f);
    assert s[|w| + 1..n] == f by {
      forall k | 0 <= k < |f| ensures s[|w| + 1..n][k] == f[k] { }
    }
  }

  /** No number in "w.f hours" is followed by an 'm'. */
  lemma NoMinutes(s: string, w: string, f: string, fractions: bool)
    requires HoursLayout(s, w, f)
    ensures forall q :: 0 <= q < |s| ==> !MatchesAt(s, q, 'm', fractions)
    ensures Amount(s, 'm', fractions) == 0.0
  {
    var n := |w| + 1 + |f|;
    HoursRuns(s, w, f);
    TailChars(s, w, f);
    forall q | 0 <= q < |s| ensures !MatchesAt(s, q, 'm', fractions) {
      if q < |w| {
        assert NumberEnd(s, q, fractions) == |w| || NumberEnd(s, q, fractions) == n;
      } else if |w| < q < n {
        assert NumberEnd(s, q, fractions) == n;
      }
    }
  }

  /** With fractions allowed, "w.f hours" reads as w.f hours. */
  lemma DecimalHoursRead(w: string, f: string)
    requires |w| > 0 && Numbers.AllDigits(w) && Numbers.AllDigits(f)
    ensures Convert(Written(w + "." + f + HoursWord)) == Decimals.CentsHalfEven(Numbers.DecimalValue(w, f))
  {
    var s := w + "." + f + HoursWord;
    LayoutOf(w, f);
    HoursPlain(s, w, f);
    HoursNotDecimal(s, w, f);
    HoursNoClock(s, w, f);
    WordsStep(s, true);
    FractionalHours(s, w, f);
  }

  lemma FractionalHours(s: string, w: string, f: string)
    requires HoursLayout(s, w, f)
    requires Text.Lower(s) == s && FirstDigit(s, 0) == Some(0)
    ensures FromWords(s, true) == Decimals.CentsHalfEven(Numbers.DecimalValue(w, f))
  {
    FractionalMatch(s, w, f);
    SearchFinds(s, 0, 'h', true);
    FractionalQuantity(s, w, f);
    NoMinutes(s, w, f, true);
    assert HoursOf(Numbers.DecimalValue(w, f), 0.0) == Numbers.DecimalValue(w, f);
  }

  lemma FractionalMatch(s: string, w: string, f: string)
    requires HoursLayout(s, w, f)
    ensures MatchesAt(s, 0, 'h', true)
  {
    HoursRuns(s, w, f);
    TailChars(s, w, f);
    assert NumberEnd(s, 0, true) == |w| + 1 + |f|;
  }

  lemma FractionalQuantity(s: string, w: string, f: string)
    requires HoursLayout(s, w, f)
    ensures Quantity(s, 0, true) == Numbers.DecimalValue(w, f)
  {
    var n := |w| + 1 + |f|;
    HoursRuns(s, w, f);
    assert NumberEnd(s, 0, true) == n;
    assert s[0..|w|] == w by {
      forall k | 0 <= k < |w| ensures s[0..|w|][k] == w[k] { }
    }
    assert s[|w| + 1..n] == f by {
      forall k | 0 <= k < |f| ensures s[|w| + 1..n][k] == f[k] { }
    }
  }

  /** The discrepancy on one input: "7.5 hours" is 5 hours as written and
      7.5 hours once fractions are read. */
  lemma SevenAndAHalfHours()
    ensures ConvertAsWritten(Written("7.5 hours")) == 5.0
    ensures Convert(Written("7.5 hours")) == 7.5
  {
    assert "7.5 hours" == "7" + "." + "5" + HoursWord;
    SingleDigits();
    DecimalHoursAsWritten("7", "5");
    DecimalHoursRead("7", "5");
    SevenAndAHalf();
  }

  lemma SingleDigits()
    ensures Numbers.AllDigits("7") && Numbers.AllDigits("5")
    ensures Text.DigitsValue("5") == 5 && Text.DigitsValue("7") == 7
  {
    assert "5"[..0] == "" && "7"[..0] == "";
  }

  lemma SevenAndAHalf()
    ensures Numbers.AllDigits("7") && Numbers.AllDigits("5")
    ensures Decimals.CentsHalfEven(Numbers.DecimalValue("7", "5")) == 7.5
  {
    SingleDigits();
    assert Numbers.DecimalValue("7", "5") == 7.5;
    assert Decimals.IsCents(7.5) by { assert 7.5 * 100.0 == 750.0; }
  }
}
