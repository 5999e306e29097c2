/** The ISO text form of a date, `YYYY-MM-DD`: what `date.isoformat()`
    prints and what `date.fromisoformat` and `pd.to_datetime` read back. */
module IsoDates {
  import opened Wrappers
  import Text
  import Dates

  /** `d.isoformat()` for a date with a four-digit year. */
  function FormatIsoDate(d: Dates.Date): (s: string)
    requires Dates.Valid(d) && d.year <= 9999
    ensures |s| == 10 && s[4] == '-' && s[7] == '-'
  {
    Pad(d.year, 4) + "-" + Pad(d.month, 2) + "-" + Pad(d.day, 2)
  }

  /** The digits of `n` left-padded with zeros to `width`. */
  function Pad(n: nat, width: nat): (s: string)
    requires width >= 1 && n < Numbers10(width)
    ensures |s| == width
    ensures forall i :: 0 <= i < |s| ==> Text.IsDigit(s[i])
  {
    NatWidth(n, width);
    Text.LeadingZeros(Text.NatToString(n), width);
    Text.ZeroFill(Text.NatToString(n), width)
  }

  function Numbers10(k: nat): (p: nat)
    ensures p >= 1
  {
    if k == 0 then 1 else 10 * Numbers10(k - 1)
  }

  lemma {:induction false} NatWidth(n: nat, width: nat)
    requires width >= 1 && n < Numbers10(width)
    ensures |Text.NatToString(n)| <= width
    decreases n
  {
    if n >= 10 {
      NatWidth(n / 10, width - 1);
    }
  }

  /** The digit string `s[i..j]` read as a number. */
  function Field(s: string, i: nat, j: nat): (n: nat)
    requires i <= j <= |s|
    requires forall k :: i <= k < j ==> Text.IsDigit(s[k])
  {
    Text.DigitsValue(s[i..j])
  }

  predicate DigitsAt(s: string, i: nat, j: nat)
    requires i <= j <= |s|
  {
    forall k :: i <= k < j ==> Text.IsDigit(s[k])
  }

  /** `date.fromisoformat(s)` for the basic `YYYY-MM-DD` form: `None` for
      any other shape and for a day the calendar does not have. */
  function ParseIsoDate(s: string): (r: Option<Dates.Date>)
    ensures r.Some? ==> Dates.Valid(r.value) && r.value.year <= 9999
  {
    if |s| == 10 && s[4] == '-' && s[7] == '-' && DigitsAt(s, 0, 4) && DigitsAt(s, 5, 7) && DigitsAt(s, 8, 10) then
      var d := Dates.Date(Field(s, 0, 4), Field(s, 5, 7), Field(s, 8, 10));
      if Dates.Valid(d) && d.year <= 9999 then Some(d) else None
    else None
  }

  /** Reading back the printed form of a date gives the date. */
  lemma ParseFormatIsoDate(d: Dates.Date)
    requires Dates.Valid(d) && d.year <= 9999
    ensures ParseIsoDate(FormatIsoDate(d)) == Some(d)
  {
    var s := FormatIsoDate(d);
    var y, m, dd := Pad(d.year, 4), Pad(d.month, 2), Pad(d.day, 2);
    assert s[0..4] == y && s[5..7] == m && s[8..10] == dd;
    PadValue(d.year, 4);
    PadValue(d.month, 2);
    PadValue(d.day, 2);
  }

  /** A padded number reads back as the number. */
  lemma PadValue(n: nat, width: nat)
    requires width >= 1 && n < Numbers10(width)
    ensures Text.DigitsValue(Pad(n, width)) == n
  {
    Text.DigitsOfNat(n);
    Text.LeadingZeros(Text.NatToString(n), width);
  }

  /** Every date that parses prints back as the same text. */
  lemma FormatParseIsoDate(s: string)
    requires ParseIsoDate(s).Some?
    ensures FormatIsoDate(ParseIsoDate(s).value) == s
  {
    var d := ParseIsoDate(s).value;
    ParsedShape(s);
    Widths();
    var a, b, c := s[0..4], s[5..7], s[8..10];
    assert forall k :: 0 <= k < |a| ==> Text.IsDigit(a[k]);
    assert forall k :: 0 <= k < |b| ==> Text.IsDigit(b[k]);
    assert forall k :: 0 <= k < |c| ==> Text.IsDigit(c[k]);
    DigitsRoundTrip(a);
    DigitsRoundTrip(b);
    DigitsRoundTrip(c);
    FormatOfPads(d, a, b, c);
    Reassemble(s);
  }

  lemma FormatOfPads(d: Dates.Date, a: string, b: string, c: string)
    requires Dates.Valid(d) && d.year <= 9999
    requires |a| == 4 && |b| == 2 && |c| == 2
    requires Numbers10(2) == 100 && Numbers10(4) == 10000
    requires Pad(d.year, 4) == a && Pad(d.month, 2) == b && Pad(d.day, 2) == c
    ensures FormatIsoDate(d) == a + "-" + b + "-" + c
  {
  }

  lemma Widths()
    ensures Numbers10(2) == 100 && Numbers10(4) == 10000
  {
    assert Numbers10(1) == 10;
    assert Numbers10(3) == 1000;
  }

  lemma Reassemble(s: string)
    requires |s| == 10 && s[4] == '-' && s[7] == '-'
    ensures s == s[0..4] + "-" + s[5..7] + "-" + s[8..10]
  {
  }

  lemma ParsedShape(s: string)
    requires ParseIsoDate(s).Some?
    ensures |s| == 10 && s[4] == '-' && s[7] == '-'
    ensures DigitsAt(s, 0, 4) && DigitsAt(s, 5, 7) && DigitsAt(s, 8, 10)
    ensures ParseIsoDate(s).value == Dates.Date(Field(s, 0, 4), Field(s, 5, 7), Field(s, 8, 10))
  {
  }

  /** A fixed-width digit string is the zero-padded printing of its value. */
  lemma DigitsRoundTrip(t: string)
    requires |t| >= 1
    requires forall k :: 0 <= k < |t| ==> Text.IsDigit(t[k])
    ensures Text.DigitsValue(t) < Numbers10(|t|)
    ensures Pad(Text.DigitsValue(t), |t|) == t
  {
    DigitsBound(t);
    PadUnique(t, Text.DigitsValue(t));
  }

  lemma {:induction false} DigitsBound(t: string)
    requires forall k :: 0 <= k < |t| ==> Text.IsDigit(t[k])
    ensures Text.DigitsValue(t) < Numbers10(|t|)
    decreases |t|
  {
    if |t| > 0 {
      DigitsBound(t[..|t| - 1]);
      assert Text.IsDigit(t[|t| - 1]);
    }
  }

  /** Two digit strings of the same length with the same value are equal. */
  lemma {:induction false} SameValueSameDigits(a: string, b: string)
    requires |a| == |b|
    requires forall k :: 0 <= k < |a| ==> Text.IsDigit(a[k])
    requires forall k :: 0 <= k < |b| ==> Text.IsDigit(b[k])
    requires Text.DigitsValue(a) == Text.DigitsValue(b)
    ensures a == b
    decreases |a|
  {
    if |a| > 0 {
      var n := |a|;
      assert Text.IsDigit(a[n - 1]) && Text.IsDigit(b[n - 1]);
      var la := a[n - 1] as int - '0' as int;
      var lb := b[n - 1] as int - '0' as int;
      assert Text.DigitsValue(a) == Text.DigitsValue(a[..n - 1]) * 10 + la;
      assert Text.DigitsValue(b) == Text.DigitsValue(b[..n - 1]) * 10 + lb;
      assert la == lb;
      SameValueSameDigits(a[..n - 1], b[..n - 1]);
      assert a == a[..n - 1] + [a[n - 1]];
      assert b == b[..n - 1] + [b[n - 1]];
    }
  }

  lemma PadUnique(t: string, n: nat)
    requires |t| >= 1
    requires forall k :: 0 <= k < |t| ==> Text.IsDigit(t[k])
    requires n == Text.DigitsValue(t) && n < Numbers10(|t|)
    ensures Pad(n, |t|) == t
  {
    var p := Pad(n, |t|);
    Text.DigitsOfNat(n);
    Text.LeadingZeros(Text.NatToString(n), |t|);
    SameValueSameDigits(p, t);
  }
}
