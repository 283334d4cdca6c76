/**
 * Double-precision values as the kinematics solver sees them.
 *
 * Every angle the solver computes is either a finite number or not-a-number
 * (a square root of a negative radicand, taken through std::complex and then
 * cut back to its real part, comes out as NaN).  Rounding is not modelled:
 * a finite double is represented by the real number it denotes.
 */
module Floats {

  datatype Num = NaN | Val(v: real)

  /** M_PI as the C library defines it. */
  const Pi: real := 3.141592653589793

  /** FLT_EPSILON, that is 2^-23. */
  const FltEpsilon: real := 1.0 / 8388608.0

  /** Unary minus: NaN stays NaN. */
  function Neg(x: Num): Num
  {
    match x
    case NaN => NaN
    case Val(a) => Val(-a)
  }

  /** `x + c` for a finite constant `c`: NaN propagates. */
  function Plus(x: Num, c: real): Num
  {
    match x
    case NaN => NaN
    case Val(a) => Val(a + c)
  }

  /** The C++ comparison `x < y`: false as soon as either side is NaN. */
  predicate Less(x: Num, y: Num)
  {
    x.Val? && y.Val? && x.v < y.v
  }

  /** The C++ test `abs(x) < bound`: false for NaN. */
  predicate AbsBelow(x: Num, bound: real)
  {
    x.Val? && (if x.v < 0.0 then -x.v else x.v) < bound
  }
}
