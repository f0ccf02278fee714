/** What the gesture handlers read from a pointer event's target element. */
module Dom {

  /** A DOMRect as `getBoundingClientRect` returns it (IEEE rounding is not modelled). */
  datatype Rect = Rect(left: real, top: real, width: real, height: real)

  function Max(a: real, b: real): (r: real)
    ensures r >= a && r >= b && (r == a || r == b)
  {
    if a >= b then a else b
  }

  function Min(a: real, b: real): (r: real)
    ensures r <= a && r <= b && (r == a || r == b)
  {
    if a <= b then a else b
  }

  function Abs(x: real): (r: real)
    ensures r >= 0.0 && (r == x || r == -x)
  {
    if x >= 0.0 then x else -x
  }
}
