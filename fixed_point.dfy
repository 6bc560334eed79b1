/**
 * Fixed-point arithmetic of the bot: monetary values are integers scaled by
 * 1000, and the price feed's arbitrary-precision decimal is converted to that
 * scale by multiplying by 1000 and keeping the integer part.
 */
module FixedPoint {

  function Abs(x: int): nat
  {
    if x < 0 then -x else x
  }

  function Pow10(n: nat): (r: nat)
    ensures r >= 1
  {
    if n == 0 then 1 else 10 * Pow10(n - 1)
  }

  /** Integer division that truncates toward zero, as Go's integer conversions do. */
  function TruncDiv(a: int, b: int): (q: int)
    requires b > 0
    ensures Abs(q) * b <= Abs(a) < (Abs(q) + 1) * b
    ensures a >= 0 ==> q >= 0
    ensures a <= 0 ==> q <= 0
  {
    if a >= 0 then a / b else -((-a) / b)
  }

  /**
   * An arbitrary-precision decimal number `coefficient * 10^exponent`, the
   * representation the price feed's decimal type uses.
   */
  datatype Decimal = Decimal(coefficient: int, exponent: int)

  /**
   * The feed price scaled to thousandths: the decimal is multiplied by the
   * exact decimal 1000 (the coefficients multiply, the exponents add) and
   * its integer part is taken, which truncates toward zero.
   */
  function ScaleToMilli(d: Decimal): (r: int)
    ensures d.exponent >= 0 ==> r == d.coefficient * 1000 * Pow10(d.exponent)
    ensures d.exponent < 0 ==>
      var unit := Pow10(-d.exponent);
      Abs(r) * unit <= Abs(d.coefficient * 1000) < (Abs(r) + 1) * unit
    ensures d.coefficient >= 0 ==> r >= 0
    ensures d.coefficient <= 0 ==> r <= 0
  {
    var scaled := d.coefficient * 1000;
    if d.exponent >= 0 then scaled * Pow10(d.exponent)
    else TruncDiv(scaled, Pow10(-d.exponent))
  }
}
