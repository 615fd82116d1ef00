/**
 * The values that SciPy and scikit-learn hand back (R², MAE, MSE, RMSE and the
 * fitted coefficients) are double-precision floats. Their digits do not matter
 * to the selection logic; only how Python's `>` orders them does, and that
 * ordering has two special cases: the infinities and NaN, which compares false
 * with everything.
 */
module Floats {

  datatype Float = NaN | NegInf | Finite(v: real) | PosInf

  /**
   * Python's `x > y` on floats: false as soon as either side is NaN; -inf is
   * below and +inf above every other value but NaN; finite values compare as
   * reals.
   */
  predicate Gt(x: Float, y: Float): (r: bool)
    ensures (x.NaN? || y.NaN?) ==> !r
    ensures r ==> x != y && !x.NegInf? && !y.PosInf?
    ensures x.Finite? && y.Finite? ==> (r <==> x.v > y.v)
    ensures y.NegInf? ==> (r <==> !x.NaN? && !x.NegInf?)
  {
    match x
    case NaN => false
    case NegInf => false
    case PosInf => y.NegInf? || y.Finite?
    case Finite(a) => y.NegInf? || (y.Finite? && a > y.v)
  }

  lemma GtIrreflexive(x: Float)
    ensures !Gt(x, x)
  {
  }

  lemma GtTransitive(x: Float, y: Float, z: Float)
    requires Gt(x, y) && Gt(y, z)
    ensures Gt(x, z)
  {
  }

  /** Apart from NaN, floats are totally ordered by `>`. */
  lemma GtTotal(x: Float, y: Float)
    requires !x.NaN? && !y.NaN? && x != y
    ensures Gt(x, y) || Gt(y, x)
  {
  }
}
