/**
 * Numeric conventions of the two host languages, stated over exact numbers:
 * JavaScript's number kinds and Python's truncating and ceiling conversions.
 */
module Numbers {

  /** A JavaScript number: finite values are exact reals; the three non-finite kinds are explicit. */
  datatype JsNum = Finite(v: real) | PosInf | NegInf | NaN {
    /** `Number.isFinite(x)` */
    predicate IsFinite() { Finite? }
  }

  /** A three.js `Vector3` with exact coordinates. */
  datatype Vec3 = Vec3(x: real, y: real, z: real)
  {
    function Plus(o: Vec3): Vec3 { Vec3(x + o.x, y + o.y, z + o.z) }
  }

  /** `Number.isInteger(x)` for a finite number. */
  predicate IsIntegral(x: real) { x.Floor as real == x }

  /** Python `int(x)` on a float: truncation toward zero. */
  function Trunc(x: real): (r: int)
    ensures x >= 0.0 ==> r as real <= x < r as real + 1.0
    ensures x < 0.0 ==> r as real - 1.0 < x <= r as real
  {
    if x >= 0.0 then x.Floor else -((-x).Floor)
  }

  /** Python `math.ceil(a / b)` for integers and a nonzero divisor. */
  function CeilDiv(a: int, b: int): (r: int)
    requires b != 0
  {
    if b > 0 then -((-a) / b) else -(a / (-b))
  }

  /** For a positive divisor, the ceiling is the least multiple count that covers `a`. */
  lemma CeilDivBounds(a: int, b: int)
    requires b > 0
    ensures (CeilDiv(a, b) - 1) * b < a <= CeilDiv(a, b) * b
  {
    var q := (-a) / b;
    var m := (-a) % b;
    assert -a == q * b + m && 0 <= m < b;
    assert CeilDiv(a, b) == -q;
    assert a == (-q) * b - m;
  }

  function Max(a: int, b: int): int { if a >= b then a else b }
  function Min(a: int, b: int): int { if a <= b then a else b }
  function MaxR(a: real, b: real): real { if a >= b then a else b }
  function MinR(a: real, b: real): real { if a <= b then a else b }
  function AbsR(x: real): real { if x >= 0.0 then x else -x }

  /** JavaScript `a % 360`: the remainder of truncating division, with the sign of `a`. */
  function JsRem360(a: real): (r: real)
    ensures a >= 0.0 ==> 0.0 <= r < 360.0
    ensures a < 0.0 ==> -360.0 < r <= 0.0
  {
    a - 360.0 * Trunc(a / 360.0) as real
  }
}
