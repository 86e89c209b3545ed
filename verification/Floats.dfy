/** Floating-point numbers as far as prices need them: what a decimal numeral is worth, how it is
    rounded, and how two numbers compare. */
module Floats {
  import opened Results
  import opened Text

  datatype Float = NaN | Infinite(negative: bool) | Finite(value: real)

  /** The comparison `x >= y`; false wherever a NaN takes part. */
  predicate AtLeast(x: Float, y: Float) {
    match (x, y)
    case (Finite(a), Finite(b)) => a >= b
    case (Infinite(negative), Finite(_)) => !negative
    case (Finite(_), Infinite(negative)) => negative
    case (Infinite(m), Infinite(n)) => n || !m
    case _ => false
  }

  predicate Below(x: Float, y: Float) {
    !x.NaN? && !y.NaN? && !AtLeast(x, y)
  }

  lemma AtLeastItself(x: Float)
    ensures AtLeast(x, x) <==> x != NaN
  {
  }

  function Abs(x: real): real {
    if x < 0.0 then 0.0 - x else x
  }

  // ---- decimal numerals ---------------------------------------------------------------------------

  function TenToThe(n: nat): (r: real)
    ensures r > 0.0
  {
    if n == 0 then 1.0 else 10.0 * TenToThe(n - 1)
  }

  /** The value of a plain decimal numeral: a sign, digits, a point and digits, of which only some
      digit is required. */
  function DecimalValue(s: string): Option<real> {
    var negative := s != "" && s[0] == '-';
    var parts := Split(if s != "" && s[0] in {'+', '-'} then s[1..] else s, '.');
    if |parts| > 2 || (|parts| == 1 && parts[0] == "") || (|parts| == 2 && parts[0] + parts[1] == "") then None
    else
      var whole :- ParseDigits(parts[0]);
      var fraction :- ParseDigits(if |parts| == 2 then parts[1] else "");
      var value := whole as real + fraction as real / TenToThe(if |parts| == 2 then |parts[1]| else 0);
      Some(if negative then 0.0 - value else value)
  }

  // ---- rounding -------------------------------------------------------------------------------------

  /** No representable number is closer to `x` than the one it is rounded to. */
  ghost predicate RoundsToNearest(round: real -> real, representable: iset<real>) {
    && (forall x: real :: round(x) in representable)
    && (forall x: real, f: real :: f in representable ==> Abs(x - round(x)) <= Abs(x - f))
  }

  /** Numerals within `limit` are parsed to the rounded value. */
  ghost predicate ParsesDecimals(parseFloat: string -> Option<Float>, round: real -> real, limit: real) {
    forall s: string :: InRange(s, limit) ==> parseFloat(s) == Some(Finite(round(DecimalValue(s).value)))
  }

  predicate InRange(s: string, limit: real) {
    DecimalValue(s).Some? && Abs(DecimalValue(s).value) <= limit
  }

  /** Rounding to nearest never swaps two numbers, however ties are broken. */
  lemma RoundingIsMonotone(round: real -> real, representable: iset<real>, x: real, y: real)
    requires RoundsToNearest(round, representable) && x <= y
    ensures round(x) <= round(y)
  {
    assert Abs(x - round(x)) <= Abs(x - round(y));
    assert Abs(y - round(y)) <= Abs(y - round(x));
    assert x == y ==> round(x) == round(y);
  }
}
