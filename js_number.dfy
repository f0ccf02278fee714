/**
 * The parts of JavaScript number semantics that the modelled code runs into: division by
 * zero and its infinities, NaN through Math.min/Math.max, the 32-bit conversions behind
 * `|`, `<<` and `>>`, and the truncating `%` operator. Finite values are exact reals;
 * IEEE rounding is not modelled.
 */
module JsNumber {

  /** A JavaScript number: a finite value, one of the two infinities, or NaN. */
  datatype Num = Fin(v: real) | PosInf | NegInf | NaN

  /** `a / b` for finite operands; the divisor is a non-negative zero when it is zero. */
  function Div(a: real, b: real): (r: Num)
    ensures b != 0.0 ==> r == Fin(a / b)
    ensures b == 0.0 ==> (r == NaN <==> a == 0.0) && (r == PosInf <==> a > 0.0) && (r == NegInf <==> a < 0.0)
  {
    if b != 0.0 then Fin(a / b)
    else if a > 0.0 then PosInf
    else if a < 0.0 then NegInf
    else NaN
  }

  /** Unary minus. */
  function Neg(n: Num): Num {
    match n
    case Fin(v) => Fin(-v)
    case PosInf => NegInf
    case NegInf => PosInf
    case NaN => NaN
  }

  /** `n * m` for a finite `m` (an infinity times zero is NaN). */
  function Mul(n: Num, m: real): (r: Num)
    ensures n.Fin? ==> r.Fin?
    ensures n.NaN? ==> r.NaN?
  {
    match n
    case Fin(v) => Fin(v * m)
    case PosInf => if m > 0.0 then PosInf else if m < 0.0 then NegInf else NaN
    case NegInf => if m > 0.0 then NegInf else if m < 0.0 then PosInf else NaN
    case NaN => NaN
  }

  /** `Math.min(a, n)`: NaN wins, the infinities compare as expected. */
  function Min(a: real, n: Num): (r: Num)
    ensures r.NaN? <==> n.NaN?
    ensures r.Fin? ==> r.v <= a
  {
    match n
    case Fin(v) => Fin(if v <= a then v else a)
    case PosInf => Fin(a)
    case NegInf => NegInf
    case NaN => NaN
  }

  /** `Math.max(a, n)`: NaN wins, the infinities compare as expected. */
  function Max(a: real, n: Num): (r: Num)
    ensures r.NaN? <==> n.NaN?
    ensures r.Fin? ==> r.v >= a
  {
    match n
    case Fin(v) => Fin(if v >= a then v else a)
    case PosInf => PosInf
    case NegInf => Fin(a)
    case NaN => NaN
  }

  const TwoTo32: int := 0x1_0000_0000
  const TwoTo31: int := 0x8000_0000

  predicate IsInt32(x: int) {
    -TwoTo31 <= x < TwoTo31
  }

  /** ToInt32: the value the operators `|`, `<<` and `>>` first convert their operands to. */
  function ToInt32(x: int): (r: int)
    ensures IsInt32(r)
    ensures (r - x) % TwoTo32 == 0
    ensures IsInt32(x) ==> r == x
  {
    var m := x % TwoTo32;
    if m >= TwoTo31 then m - TwoTo32 else m
  }

  /** ToInt32 only depends on its argument modulo 2^32. */
  lemma ToInt32Congruent(x: int, y: int)
    requires (x - y) % TwoTo32 == 0
    ensures ToInt32(x) == ToInt32(y)
  {
    assert x % TwoTo32 == y % TwoTo32;
  }

  function Pow2(k: nat): (r: nat)
    ensures r >= 1
  {
    if k == 0 then 1 else 2 * Pow2(k - 1)
  }

  /** `x << k` for 0 <= k < 32. */
  function ShiftLeft(x: int, k: nat): (r: int)
    requires k < 32
    ensures IsInt32(r)
  {
    ToInt32(ToInt32(x) * Pow2(k))
  }

  /** `x >> k` for 0 <= k < 32: an arithmetic shift of ToInt32(x), that is, floor division by 2^k. */
  function ShiftRight(x: int, k: nat): (r: int)
    requires k < 32
    ensures ToInt32(x) >= 0 ==> 0 <= r <= ToInt32(x)
    ensures ToInt32(x) < 0 ==> r < 0
  {
    var y := ToInt32(x);
    FloorDivSign(y, Pow2(k));
    y / Pow2(k)
  }

  lemma FloorDivSign(y: int, d: int)
    requires d >= 1
    ensures y >= 0 ==> 0 <= y / d <= y
    ensures y < 0 ==> y / d < 0
  {
    assert d * (y / d) + y % d == y;
    if y >= 0 {
      DivLe(y, d);
    } else if y / d >= 0 {
      MulNonNeg(y / d, d);
    }
  }

  lemma MulNonNeg(a: int, b: int)
    requires a >= 0 && b >= 0
    ensures a * b >= 0
  {
  }

  lemma DivLe(y: nat, d: int)
    requires d >= 1
    ensures y / d <= y
  {
    assert d * (y / d) + y % d == y;
  }

  /** `a % b` for a positive `b`: the remainder takes the sign of the dividend. */
  function Rem(a: int, b: int): (r: int)
    requires b > 0
    ensures a >= 0 ==> 0 <= r < b
    ensures a < 0 ==> -b < r <= 0
  {
    if a >= 0 then a % b else -((-a) % b)
  }

  /** `Math.abs` on an integer. */
  function AbsInt(x: int): (r: int)
    ensures r >= 0 && (r == x || r == -x)
  {
    if x >= 0 then x else -x
  }
}
