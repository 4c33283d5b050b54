/**
 * JavaScript numbers over exact reals. A finite value is an exact real; the two
 * infinities and NaN arise from division by zero and from arithmetic on
 * `undefined`. Floating-point rounding, overflow and negative zero are not
 * represented.
 */
module JsNumber {
  datatype Num = Finite(v: real) | PosInf | NegInf | NaN

  /** `x - y` */
  function Sub(x: Num, y: Num): (r: Num)
    ensures x.Finite? && y.Finite? ==> r == Finite(x.v - y.v)
    ensures x.NaN? || y.NaN? ==> r.NaN?
  {
    match (x, y)
    case (NaN, _) => NaN
    case (_, NaN) => NaN
    case (Finite(a), Finite(b)) => Finite(a - b)
    case (PosInf, PosInf) => NaN
    case (NegInf, NegInf) => NaN
    case (PosInf, _) => PosInf
    case (NegInf, _) => NegInf
    case (Finite(_), PosInf) => NegInf
    case (Finite(_), NegInf) => PosInf
  }

  /** `x * k` for a positive finite constant `k` (the source only scales by 100 and 10^8). */
  function Scale(x: Num, k: real): (r: Num)
    requires k > 0.0
    ensures r.Finite? <==> x.Finite?
    ensures r.NaN? <==> x.NaN?
  {
    match x
    case Finite(a) => Finite(a * k)
    case _ => x
  }

  /** `x / y`, with IEEE results for zero divisors and infinite operands. */
  function Div(x: Num, y: Num): (r: Num)
    ensures x.Finite? && y.Finite? && y.v != 0.0 ==> r == Finite(x.v / y.v)
    ensures x.Finite? && y.Finite? && y.v == 0.0 ==> !r.Finite?
    ensures x.NaN? || y.NaN? ==> r.NaN?
  {
    match (x, y)
    case (NaN, _) => NaN
    case (_, NaN) => NaN
    case (Finite(a), Finite(b)) =>
      if b != 0.0 then Finite(a / b)
      else if a > 0.0 then PosInf
      else if a < 0.0 then NegInf
      else NaN
    case (Finite(_), _) => Finite(0.0)
    case (PosInf, Finite(b)) => if b < 0.0 then NegInf else PosInf
    case (NegInf, Finite(b)) => if b < 0.0 then PosInf else NegInf
    case (_, _) => NaN
  }

  /** `Math.round`: the nearest integer, halves rounded up; non-finite values unchanged. */
  function Round(x: Num): (r: Num)
    ensures r.Finite? <==> x.Finite?
    ensures x.Finite? ==> r.v - 0.5 <= x.v < r.v + 0.5 && r.v == r.v.Floor as real
  {
    match x
    case Finite(a) => Finite((a + 0.5).Floor as real)
    case _ => x
  }

  /** `Math.abs` */
  function Abs(x: Num): (r: Num)
    ensures r.Finite? <==> x.Finite?
    ensures x.Finite? ==> r.v >= 0.0 && (r.v == x.v || r.v == -x.v)
    ensures x.NaN? <==> r.NaN?
  {
    match x
    case Finite(a) => Finite(if a < 0.0 then -a else a)
    case NaN => NaN
    case _ => PosInf
  }

  /** `x < y`; every comparison with NaN is false. */
  predicate Less(x: Num, y: Num) {
    match (x, y)
    case (NaN, _) => false
    case (_, NaN) => false
    case (Finite(a), Finite(b)) => a < b
    case (NegInf, NegInf) => false
    case (NegInf, _) => true
    case (_, NegInf) => false
    case (PosInf, _) => false
    case (Finite(_), PosInf) => true
  }

  /** `Math.min(x, y)`: NaN when either is NaN, otherwise the smaller. */
  function Min(x: Num, y: Num): (r: Num)
    ensures x.NaN? || y.NaN? ==> r.NaN?
    ensures !x.NaN? && !y.NaN? ==> (r == x || r == y) && !Less(x, r) && !Less(y, r)
  {
    if x.NaN? || y.NaN? then NaN
    else if Less(y, x) then y
    else x
  }
}
