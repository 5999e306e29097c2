/** Reading numbers out of text, as `pd.to_numeric(..., errors='coerce')`
    and `float(...)` do for the plain decimal forms found in uploaded
    sheets: optional blanks around an optional sign, digits, and at most
    one decimal point with at least one digit somewhere.  Anything else
    (thousands separators, currency signs, words) is not a number. */
module Numbers {
  import opened Wrappers
  import Text

  predicate AllDigits(s: string) {
    forall i :: 0 <= i < |s| ==> Text.IsDigit(s[i])
  }

  function Pow10(k: nat): (p: nat)
    ensures p >= 1
  {
    if k == 0 then 1 else 10 * Pow10(k - 1)
  }

  /** The value of `whole.frac` for digit strings `whole` and `frac`. */
  function DecimalValue(whole: string, frac: string): (v: real)
    requires AllDigits(whole) && AllDigits(frac)
    ensures v >= 0.0
  {
    Text.DigitsValue(whole) as real + Text.DigitsValue(frac) as real / Pow10(|frac|) as real
  }

  /** An unsigned decimal: digits, or digits '.' digits, with at least one
      digit in all. */
  function ParseUnsigned(t: string): (r: Option<real>)
    ensures r.Some? ==> r.value >= 0.0
  {
    var parts := Text.Split(t, '.');
    if |parts| == 1 && |t| > 0 && AllDigits(t) then
      Some(Text.DigitsValue(t) as real)
    else if |parts| == 2 && AllDigits(parts[0]) && AllDigits(parts[1]) && |parts[0]| + |parts[1]| > 0 then
      Some(DecimalValue(parts[0], parts[1]))
    else None
  }

  /** A decimal number with optional sign and surrounding blanks. */
  function ParseDecimal(s: string): (r: Option<real>)
  {
    var t := Text.Strip(s);
    if |t| > 0 && (t[0] == '-' || t[0] == '+') then
      match ParseUnsigned(t[1..])
      case None => None
      case Some(v) => Some(if t[0] == '-' then -v else v)
    else ParseUnsigned(t)
  }

  /** A blank string is not a number. */
  lemma BlankIsNotNumber(s: string)
    requires Text.IsBlank(s)
    ensures ParseDecimal(s) == None
  {
    Text.StripEmptyIffBlank(s);
    assert Text.Strip(s) == "";
    assert Text.Split("", '.') == [""];
  }

  /** Printed digits read back as the same whole number. */
  lemma ParseNat(n: nat)
    ensures ParseDecimal(Text.NatToString(n)) == Some(n as real)
  {
    var s := Text.NatToString(n);
    StripDigits(s);
    Text.SplitNoSeparator(s, '.');
    Text.DigitsOfNat(n);
  }

  /** `-n` printed with a minus sign reads back as `-n`. */
  lemma ParseNegativeNat(n: nat)
    ensures ParseDecimal("-" + Text.NatToString(n)) == Some(-(n as real))
  {
    var s := Text.NatToString(n);
    var t := "-" + s;
    assert !Text.IsSpace(t[0]) && t[|t| - 1] == s[|s| - 1];
    assert Text.IsDigit(s[|s| - 1]);
    Text.StripKeepsNonBlank(t);
    assert t[1..] == s;
    Text.SplitNoSeparator(s, '.');
    Text.DigitsOfNat(n);
  }

  /** Digits followed by ".0" read as the digits' value. */
  lemma UnsignedPointZero(s: string)
    requires |s| > 0 && AllDigits(s)
    ensures ParseUnsigned(s + ".0") == Some(Text.DigitsValue(s) as real)
  {
    PointZeroSplit(s);
    UnsignedTwoParts(s + ".0", s, "0");
    PointZeroValue(s);
  }

  /** Digits followed by ".0" split at the point into the digits and "0". */
  lemma PointZeroSplit(s: string)
    requires AllDigits(s)
    ensures Text.Split(s + ".0", '.') == [s, "0"]
  {
    Text.SplitTwo(s, "0", '.');
    assert s + ['.'] + "0" == s + ".0";
  }

  /** A zero fraction adds nothing. */
  lemma PointZeroValue(s: string)
    requires AllDigits(s)
    ensures DecimalValue(s, "0") == Text.DigitsValue(s) as real
  {
    assert Text.DigitsValue("0") == 0 by { assert "0"[..0] == ""; }
  }

  /** Text that splits at its one point into two digit runs, not both
      empty, reads as their decimal value. */
  lemma UnsignedTwoParts(t: string, whole: string, frac: string)
    requires Text.Split(t, '.') == [whole, frac]
    requires AllDigits(whole) && AllDigits(frac) && |whole| + |frac| > 0
    ensures ParseUnsigned(t) == Some(DecimalValue(whole, frac))
  {
  }

  /** Text starting with a digit reads as an unsigned decimal. */
  lemma ParseUnsignedText(t: string, s: string)
    requires |s| > 0 && AllDigits(s) && t == s + ".0"
    ensures ParseDecimal(t) == ParseUnsigned(t)
  {
    assert t[0] == s[0] && Text.IsDigit(s[0]);
    Text.StripKeepsNonBlank(t);
  }

  /** An amount of whole cents printed as `<units>.<two digits>` (the form
      of `f"{x:.2f}"` for a non-negative amount of cents) reads back as
      the same amount. */
  lemma ParseCents(cents: nat)
    ensures ParseDecimal(CentsText(cents)) == Some(cents as real / 100.0)
  {
    var w := Text.NatToString(cents / 100);
    var f := Text.ZeroFill(Text.NatToString(cents % 100), 2);
    var s := CentsText(cents);
    assert s == w + "." + f;
    assert |f| == 2 by {
      assert |Text.NatToString(cents % 100)| <= 2 by { SmallNatWidth(cents % 100); }
    }
    assert AllDigits(f);
    assert !Text.IsSpace(s[0]) by { assert s[0] == w[0]; }
    assert !Text.IsSpace(s[|s| - 1]) by { assert s[|s| - 1] == f[1]; }
    Text.StripKeepsNonBlank(s);
    assert s[0] != '-' && s[0] != '+' by { assert s[0] == w[0]; }
    Text.SplitTwo(w, f, '.');
    Text.DigitsOfNat(cents / 100);
    Text.DigitsOfNat(cents % 100);
    Text.LeadingZeros(Text.NatToString(cents % 100), 2);
    assert DecimalValue(w, f) == (cents / 100) as real + (cents % 100) as real / 100.0;
  }

  /** `f"{x:.2f}"` for `x = cents / 100`. */
  function CentsText(cents: nat): (s: string)
    ensures |s| >= 4
  {
    Text.NatToString(cents / 100) + "." + Text.ZeroFill(Text.NatToString(cents % 100), 2)
  }

  lemma SmallNatWidth(n: nat)
    requires n < 100
    ensures |Text.NatToString(n)| <= 2
  {
  }

  lemma StripDigits(s: string)
    requires |s| > 0 && AllDigits(s)
    ensures Text.Strip(s) == s
  {
    assert Text.IsDigit(s[0]) && Text.IsDigit(s[|s| - 1]);
    Text.StripKeepsNonBlank(s);
  }
}
