/** Exact decimal arithmetic.  Python `Decimal` values and the floats of the
    report code are modelled as `real`; quantizing to a number of decimal
    places is modelled by rounding `x * scale` to an integer, with the two
    rounding modes the code base uses:
      - ROUND_HALF_UP (requested explicitly): ties move away from zero;
      - ROUND_HALF_EVEN (the default Decimal context): ties go to the even
        neighbour. */
module Decimals {

  function Abs(x: real): real {
    if x < 0.0 then -x else x
  }

  predicate IsIntegral(y: real) {
    y.Floor as real == y
  }

  /** A whole number's magnitude is a whole number too. */
  lemma AbsIntegral(y: real)
    requires IsIntegral(y)
    ensures Abs(y).Floor >= 0 && Abs(y).Floor as real == Abs(y)
  {
    var k := y.Floor;
    var m := if k < 0 then -k else k;
    assert y == k as real;
    assert Abs(y) == m as real;
    assert (m as real).Floor == m;
  }

  /** Round to an integer, ties away from zero. */
  function RoundHalfUp(y: real): (k: int)
    ensures -0.5 <= k as real - y <= 0.5
    ensures k as real - y == 0.5 ==> y > 0.0
    ensures k as real - y == -0.5 ==> y < 0.0
    ensures IsIntegral(y) ==> k as real == y
  {
    if y >= 0.0 then
      var k := (y + 0.5).Floor;
      assert k as real <= y + 0.5 < k as real + 1.0;
      assert IsIntegral(y) ==> k == y.Floor;
      k
    else
      var j := (-y + 0.5).Floor;
      assert j as real <= -y + 0.5 < j as real + 1.0;
      assert IsIntegral(y) ==> j == -(y.Floor);
      -j
  }

  /** Round to an integer, ties to the even neighbour (banker's rounding). */
  function RoundHalfEven(y: real): (k: int)
    ensures -0.5 <= k as real - y <= 0.5
    ensures Abs(k as real - y) == 0.5 ==> k % 2 == 0
    ensures IsIntegral(y) ==> k as real == y
  {
    var f := y.Floor;
    var frac := y - f as real;
    if frac < 0.5 then f
    else if frac > 0.5 then f + 1
    else if f % 2 == 0 then f
    else f + 1
  }

  /** The rounding contracts above pin the result down: any integer that is
      within one half of `y` and obeys the tie rule is the rounded value. */
  lemma RoundHalfUpUnique(y: real, k: int)
    requires -0.5 <= k as real - y <= 0.5
    requires k as real - y == 0.5 ==> y > 0.0
    requires k as real - y == -0.5 ==> y < 0.0
    ensures k == RoundHalfUp(y)
  {
    var r := RoundHalfUp(y);
    assert -1.0 <= k as real - r as real <= 1.0;
  }

  lemma RoundHalfEvenUnique(y: real, k: int)
    requires -0.5 <= k as real - y <= 0.5
    requires Abs(k as real - y) == 0.5 ==> k % 2 == 0
    ensures k == RoundHalfEven(y)
  {
    var r := RoundHalfEven(y);
    assert -1.0 <= k as real - r as real <= 1.0;
  }

  predicate IsCents(x: real) {
    IsIntegral(x * 100.0)
  }

  predicate IsTenths(x: real) {
    IsIntegral(x * 10.0)
  }

  /** `Decimal.quantize(Decimal('0.01'), rounding=ROUND_HALF_UP)` */
  function CentsHalfUp(x: real): (r: real)
    ensures IsCents(r)
    ensures -0.005 <= r - x <= 0.005
    ensures IsCents(x) ==> r == x
    ensures x >= 0.0 ==> r >= 0.0
    ensures NearestCentHalfUp(r, x)
  {
    RoundHalfUp(x * 100.0) as real / 100.0
  }

  /** `Decimal.quantize(Decimal('0.1'), rounding=ROUND_HALF_UP)` */
  function TenthsHalfUp(x: real): (r: real)
    ensures IsTenths(r)
    ensures -0.05 <= r - x <= 0.05
    ensures IsTenths(x) ==> r == x
    ensures NearestTenthHalfUp(r, x)
  {
    RoundHalfUp(x * 10.0) as real / 10.0
  }

  /** `Decimal.quantize(Decimal('0.01'))` under the default context. */
  function CentsHalfEven(x: real): (r: real)
    ensures IsCents(r)
    ensures -0.005 <= r - x <= 0.005
    ensures IsCents(x) ==> r == x
    ensures x >= 0.0 ==> r >= 0.0
    ensures NearestCentHalfEven(r, x)
  {
    RoundHalfEven(x * 100.0) as real / 100.0
  }

  /** `c` is the amount of whole cents nearest to `x`, a tie going away
      from zero: a statement of ROUND_HALF_UP quantizing that does not
      mention how it is computed. */
  predicate NearestCentHalfUp(c: real, x: real) {
    IsCents(c)
    && -0.005 <= c - x <= 0.005
    && (c - x == 0.005 ==> x > 0.0)
    && (c - x == -0.005 ==> x < 0.0)
  }

  /** Same for tenths. */
  predicate NearestTenthHalfUp(c: real, x: real) {
    IsTenths(c)
    && -0.05 <= c - x <= 0.05
    && (c - x == 0.05 ==> x > 0.0)
    && (c - x == -0.05 ==> x < 0.0)
  }

  /** ... and for the default (half-even) quantizing to cents. */
  predicate NearestCentHalfEven(c: real, x: real) {
    IsCents(c)
    && -0.005 <= c - x <= 0.005
    && (Abs(c - x) == 0.005 ==> (c * 100.0).Floor % 2 == 0)
  }

  /** The declarative statement and the computation agree. */
  lemma CentsHalfUpCharacterized(c: real, x: real)
    ensures NearestCentHalfUp(c, x) <==> c == CentsHalfUp(x)
  {
    if NearestCentHalfUp(c, x) {
      var k := (c * 100.0).Floor;
      assert k as real == c * 100.0;
      RoundHalfUpUnique(x * 100.0, k);
    }
  }

  lemma TenthsHalfUpCharacterized(c: real, x: real)
    ensures NearestTenthHalfUp(c, x) <==> c == TenthsHalfUp(x)
  {
    if NearestTenthHalfUp(c, x) {
      var k := (c * 10.0).Floor;
      assert k as real == c * 10.0;
      RoundHalfUpUnique(x * 10.0, k);
    }
  }

  lemma CentsHalfEvenCharacterized(c: real, x: real)
    ensures NearestCentHalfEven(c, x) <==> c == CentsHalfEven(x)
  {
    if NearestCentHalfEven(c, x) {
      var k := (c * 100.0).Floor;
      assert k as real == c * 100.0;
      RoundHalfEvenUnique(x * 100.0, k);
    }
  }

  /** Python's `int(x)` on a number: truncation toward zero. */
  function TruncateToInt(x: real): (n: int)
    ensures x >= 0.0 ==> 0 <= n && n as real <= x < n as real + 1.0
    ensures x < 0.0 ==> n <= 0 && n as real - 1.0 < x <= n as real
  {
    if x >= 0.0 then x.Floor else -((-x).Floor)
  }

  function Sum(xs: seq<real>): real {
    if |xs| == 0 then 0.0 else xs[0] + Sum(xs[1..])
  }

  lemma {:induction false} SumAppend(xs: seq<real>, ys: seq<real>)
    ensures Sum(xs + ys) == Sum(xs) + Sum(ys)
  {
    if |xs| == 0 {
      assert xs + ys == ys;
    } else {
      assert (xs + ys)[1..] == xs[1..] + ys;
      SumAppend(xs[1..], ys);
    }
  }

  lemma {:induction false} SumNonNegative(xs: seq<real>)
    requires forall i :: 0 <= i < |xs| ==> xs[i] >= 0.0
    ensures Sum(xs) >= 0.0
  {
    if |xs| > 0 {
      SumNonNegative(xs[1..]);
    }
  }

  function Max(a: real, b: real): real {
    if a >= b then a else b
  }

  function Min(a: real, b: real): real {
    if a <= b then a else b
  }

  /** `x × rate / 100`: `rate` percent of `x`. */
  function Percent(x: real, rate: real): real {
    x * rate / 100.0
  }

  /** Taking a percentage distributes over a sum. */
  lemma PercentAdd(a: real, b: real, rate: real)
    ensures Percent(a + b, rate) == Percent(a, rate) + Percent(b, rate)
  {
  }

  lemma PercentNonNegative(x: real, rate: real)
    requires x >= 0.0 && rate >= 0.0
    ensures Percent(x, rate) >= 0.0
  {
  }

  /** ... and over a sum of rates. */
  lemma PercentAddRate(x: real, a: real, b: real)
    ensures Percent(x, a + b) == Percent(x, a) + Percent(x, b)
  {
  }

  /** At most 100 percent of a non-negative amount is at most the amount. */
  lemma PercentAtMost(x: real, rate: real)
    requires x >= 0.0 && 0.0 <= rate <= 100.0
    ensures 0.0 <= Percent(x, rate) <= x
  {
  }
}
