/**
 The five scalar inputs every pricing and sensitivity formula takes, in the
 order the formulas take them: spot price S, strike K, time to expiry T in
 years, continuously compounded risk-free rate r and annualised volatility
 sigma.
 */
module Market {
  import opened Numerics

  datatype Params = Params(s: real, k: real, t: real, r: real, sigma: real)
  {
    /** The inputs for which the closed forms are defined: T = 0 or sigma = 0
        divides by zero, and the logarithm of S/K needs both positive. The
        rate may have either sign. */
    predicate Valid() {
      s > 0.0 && k > 0.0 && t > 0.0 && sigma > 0.0
    }
  }

  /** The exponent -rT of the discount factor e^(-rT). */
  function DiscountExponent(p: Params): real {
    -p.r * p.t
  }

  /** The ratio S/K whose logarithm enters d1. */
  function Moneyness(p: Params): real
    requires p.Valid()
  {
    p.s / p.k
  }

  /** The strike discounted to today, K * e^(-rT). */
  function DiscountedStrike(n: Primitives, p: Params): (d: real)
    requires n.Valid() && p.Valid()
    ensures d > 0.0
    ensures p.r == 0.0 ==> d == p.k
    ensures p.r > 0.0 ==> d < p.k
  {
    DiscountFactorBounds(n, p);
    p.k * n.exp(DiscountExponent(p))
  }

  /** e^(-rT) is positive, equals 1 at a zero rate and is below 1 at a
      positive rate. */
  lemma DiscountFactorBounds(n: Primitives, p: Params)
    requires n.Valid() && p.Valid()
    ensures n.exp(DiscountExponent(p)) > 0.0
    ensures p.r == 0.0 ==> n.exp(DiscountExponent(p)) == 1.0
    ensures p.r > 0.0 ==> n.exp(DiscountExponent(p)) < 1.0
    ensures p.r > 0.0 ==> p.k * n.exp(DiscountExponent(p)) < p.k
  {
    var e := n.exp(DiscountExponent(p));
    if p.r > 0.0 {
      assert DiscountExponent(p) < 0.0;
      assert e < 1.0;
      assert p.k * e < p.k * 1.0;
    }
  }
}
