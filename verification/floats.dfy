/** Floating-point values as the source's numpy/torch code sees them: exact reals
    (rounding is not modelled) extended with the two infinities and NaN, since the
    reprojection and the drawing guards both meet them. */
module Floats {

  datatype Float = Finite(r: real) | PosInf | NegInf | NaN

  /** IEEE quotient of a finite numerator by a finite denominator. A zero
      denominator gives an infinity signed like the numerator, or NaN for 0/0. */
  function Quot(num: real, den: real): (q: Float)
    ensures q.NaN? <==> num == 0.0 && den == 0.0
    ensures q.PosInf? <==> den == 0.0 && num > 0.0
    ensures q.NegInf? <==> den == 0.0 && num < 0.0
    ensures den != 0.0 ==> q.Finite?
  {
    if den != 0.0 then Finite(num / den)
    else if num > 0.0 then PosInf
    else if num < 0.0 then NegInf
    else NaN
  }

  /** A non-zero denominator gives the one finite value that multiplies back to
      the numerator. */
  lemma QuotExact(num: real, den: real, q: real)
    requires den != 0.0
    ensures Quot(num, den) == Finite(q) <==> q * den == num
  {
  }

  /** `torch.clamp(f, lo, hi)`: infinities saturate, NaN propagates. */
  function Clamp(f: Float, lo: real, hi: real): (c: Float)
    requires lo <= hi
    ensures c.NaN? <==> f.NaN?
    ensures !c.NaN? ==> c.Finite? && lo <= c.r <= hi
    ensures f.Finite? && lo <= f.r <= hi ==> c == f
    ensures f.PosInf? || (f.Finite? && f.r > hi) ==> c == Finite(hi)
    ensures f.NegInf? || (f.Finite? && f.r < lo) ==> c == Finite(lo)
  {
    match f
    case Finite(r) => Finite(if r < lo then lo else if r > hi then hi else r)
    case PosInf => Finite(hi)
    case NegInf => Finite(lo)
    case NaN => NaN
  }

  /** Truncation toward zero: Python's `int(r)`, numpy's `astype(int32)` and
      torch's `.int()` on a finite value (overflow is not modelled). */
  function Trunc(r: real): (t: int)
    ensures 0.0 <= r ==> t as real <= r < t as real + 1.0
    ensures r < 0.0 ==> t as real - 1.0 < r <= t as real
    ensures 0.0 <= r ==> t == r.Floor
  {
    if r >= 0.0 then r.Floor else -((-r).Floor)
  }

  /** Python's `f < x` for a float `f` and a finite `x`. */
  predicate Below(f: Float, x: real) {
    match f
    case Finite(r) => r < x
    case PosInf => false
    case NegInf => true
    case NaN => false
  }

  /** Python's `f > x` for a float `f` and a finite `x`. */
  predicate Above(f: Float, x: real) {
    match f
    case Finite(r) => r > x
    case PosInf => true
    case NegInf => false
    case NaN => false
  }

  /** IEEE `a <= b`: false whenever either side is NaN. */
  predicate AtMost(a: Float, b: Float) {
    !a.NaN? && !b.NaN? && (a.NegInf? || b.PosInf? || (a.Finite? && b.Finite? && a.r <= b.r))
  }

  /** IEEE addition. */
  function Add(a: Float, b: Float): Float {
    if a.NaN? || b.NaN? then NaN
    else if (a.PosInf? && b.NegInf?) || (a.NegInf? && b.PosInf?) then NaN
    else if a.PosInf? || b.PosInf? then PosInf
    else if a.NegInf? || b.NegInf? then NegInf
    else Finite(a.r + b.r)
  }

  /** `np.sum` of a flat array of floats (the empty sum is 0.0). */
  function SumAll(s: seq<Float>): Float {
    if |s| == 0 then Finite(0.0) else Add(s[0], SumAll(s[1..]))
  }

  predicate HasNaN(s: seq<Float>) { exists i :: 0 <= i < |s| && s[i].NaN? }
  predicate HasPosInf(s: seq<Float>) { exists i :: 0 <= i < |s| && s[i].PosInf? }
  predicate HasNegInf(s: seq<Float>) { exists i :: 0 <= i < |s| && s[i].NegInf? }

  /** `np.isnan(np.sum(s))` holds exactly when some element is NaN or both
      infinities occur; in particular the verdict does not depend on the order in
      which numpy adds the elements. */
  lemma {:induction false} SumIsNaN(s: seq<Float>)
    ensures SumAll(s).NaN? <==> HasNaN(s) || (HasPosInf(s) && HasNegInf(s))
    ensures SumAll(s).PosInf? <==> !HasNaN(s) && HasPosInf(s) && !HasNegInf(s)
    ensures SumAll(s).NegInf? <==> !HasNaN(s) && !HasPosInf(s) && HasNegInf(s)
  {
    if |s| > 0 {
      var t := s[1..];
      SumIsNaN(t);
      assert HasNaN(s) <==> s[0].NaN? || HasNaN(t) by {
        if HasNaN(t) { var i :| 0 <= i < |t| && t[i].NaN?; assert s[i + 1] == t[i]; }
        if HasNaN(s) { var i :| 0 <= i < |s| && s[i].NaN?; if i > 0 { assert t[i - 1] == s[i]; } }
      }
      assert HasPosInf(s) <==> s[0].PosInf? || HasPosInf(t) by {
        if HasPosInf(t) { var i :| 0 <= i < |t| && t[i].PosInf?; assert s[i + 1] == t[i]; }
        if HasPosInf(s) { var i :| 0 <= i < |s| && s[i].PosInf?; if i > 0 { assert t[i - 1] == s[i]; } }
      }
      assert HasNegInf(s) <==> s[0].NegInf? || HasNegInf(t) by {
        if HasNegInf(t) { var i :| 0 <= i < |t| && t[i].NegInf?; assert s[i + 1] == t[i]; }
        if HasNegInf(s) { var i :| 0 <= i < |s| && s[i].NegInf?; if i > 0 { assert t[i - 1] == s[i]; } }
      }
    }
  }
}
