/** Numbers produced by the external detector (a float tensor) and the few
    float operations the counting code applies to them. A non-finite value is
    kept distinct so that NaN and infinity checks can be stated. */
module Floats {

  datatype Float = Finite(r: real) | NaN | PosInf | NegInf

  /** `f > t` for a finite threshold `t`; every comparison with NaN is false. */
  predicate GreaterThan(f: Float, t: real) {
    match f
    case Finite(r) => r > t
    case PosInf => true
    case _ => false
  }

  /** `f * k` for an integer frame dimension `k` (exact for real frame sizes). */
  function MulInt(f: Float, k: int): Float {
    match f
    case NaN => NaN
    case Finite(r) => Finite(r * k as real)
    case PosInf => if k > 0 then PosInf else if k < 0 then NegInf else NaN
    case NegInf => if k > 0 then NegInf else if k < 0 then PosInf else NaN
  }

  /** Python's `int(x)` on a finite float: truncation toward zero. */
  function Trunc(r: real): (i: int)
    ensures 0.0 <= r ==> 0 <= i && i as real <= r < i as real + 1.0
    ensures r < 0.0 ==> i <= 0 && i as real - 1.0 < r <= i as real
  {
    if r >= 0.0 then r.Floor else -((-r).Floor)
  }

  /** `np.clip(f, lo, hi)`: NaN stays NaN, infinities go to the bounds. */
  function Clip(f: Float, lo: real, hi: real): (c: Float)
    requires lo <= hi
    ensures f.NaN? <==> c.NaN?
    ensures c.Finite? ==> lo <= c.r <= hi
  {
    match f
    case NaN => NaN
    case PosInf => Finite(hi)
    case NegInf => Finite(lo)
    case Finite(r) => Finite(if r < lo then lo else if r > hi then hi else r)
  }

  const Int64Min: int := -0x8000_0000_0000_0000
  const Int64Max: int := 0x7FFF_FFFF_FFFF_FFFF

  /** numpy's `astype("int")` of one element on x86-64: truncation when the
      value fits in 64 bits, otherwise (NaN, infinities, overflow) the
      "integer indefinite" value INT64_MIN. */
  function AsInt64(f: Float): (i: int)
    ensures Int64Min <= i <= Int64Max
    ensures f.Finite? && Int64Min as real <= f.r < Int64Max as real + 1.0 ==> i == Trunc(f.r)
    ensures !f.Finite? ==> i == Int64Min
  {
    match f
    case Finite(r) =>
      if Int64Min as real <= r < Int64Max as real + 1.0 then Trunc(r) else Int64Min
    case _ => Int64Min
  }
}
