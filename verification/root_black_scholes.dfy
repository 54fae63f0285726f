/**
 The top-level `black_scholes.py`, which the payoff plotting helpers and the
 test script import. Its text is identical to the package module
 `src/black_scholes.py`; it is defined here on its own, formula by formula, and
 `AgreesWithPackage` proves that the two copies compute the same values, so
 every property of the package copy carries over.
 */
module RootBlackScholes {
  import opened Numerics
  import opened Market
  import opened Arith
  import BlackScholes

  /** d1, written as in the package copy. */
  function D1(n: Primitives, p: Params): real
    requires n.Valid() && p.Valid()
  {
    SqrtPositive(n, p.t);
    (n.ln(Moneyness(p)) + (p.r + p.sigma * p.sigma / 2.0) * p.t) / (p.sigma * n.sqrt(p.t))
  }

  /** d1 scaled back by sigma sqrt(T) is the drift-adjusted log-moneyness
      ln(S/K) + (r + sigma^2/2) T, and d1 is positive exactly when that is. */
  lemma D1Scaled(n: Primitives, p: Params)
    requires n.Valid() && p.Valid()
    ensures D1(n, p) * (p.sigma * n.sqrt(p.t)) == n.ln(Moneyness(p)) + (p.r + p.sigma * p.sigma / 2.0) * p.t
    ensures D1(n, p) > 0.0 <==> n.ln(Moneyness(p)) + (p.r + p.sigma * p.sigma / 2.0) * p.t > 0.0
  {
    AgreesWithPackage(n, p);
    BlackScholes.D1Scaled(n, p);
  }

  /** d2 lies strictly below d1. */
  function D2(n: Primitives, p: Params): (d: real)
    requires n.Valid() && p.Valid()
    ensures d < D1(n, p)
    ensures (D1(n, p) - d) * (D1(n, p) - d) == p.sigma * p.sigma * p.t
  {
    SqrtPositive(n, p.t);
    ScaledRootSquare(p.sigma, n.sqrt(p.t), p.t);
    D1(n, p) - p.sigma * n.sqrt(p.t)
  }

  /** The call price never exceeds the spot. */
  function CallPrice(n: Primitives, p: Params): (c: real)
    requires n.Valid() && p.Valid()
    ensures c <= p.s
  {
    var d1 := D1(n, p);
    var d2 := D2(n, p);
    assert n.exp(DiscountExponent(p)) > 0.0 && n.cdf(d2) >= 0.0;
    p.s * n.cdf(d1) - p.k * n.exp(DiscountExponent(p)) * n.cdf(d2)
  }

  /** The put price never exceeds the discounted strike. */
  function PutPrice(n: Primitives, p: Params): (q: real)
    requires n.Valid() && p.Valid()
    ensures q <= DiscountedStrike(n, p)
  {
    var d1 := D1(n, p);
    var d2 := D2(n, p);
    assert n.exp(DiscountExponent(p)) > 0.0 && n.cdf(-d2) <= 1.0 && n.cdf(-d1) >= 0.0;
    p.k * n.exp(DiscountExponent(p)) * n.cdf(-d2) - p.s * n.cdf(-d1)
  }

  /** The two copies of the module agree on every valid input. */
  lemma AgreesWithPackage(n: Primitives, p: Params)
    requires n.Valid() && p.Valid()
    ensures D1(n, p) == BlackScholes.D1(n, p)
    ensures D2(n, p) == BlackScholes.D2(n, p)
    ensures CallPrice(n, p) == BlackScholes.CallPrice(n, p)
    ensures PutPrice(n, p) == BlackScholes.PutPrice(n, p)
  {
  }

  /** Put-call parity for the copy the test script checks it on. */
  lemma PutCallParity(n: Primitives, p: Params)
    requires n.Valid() && p.Valid()
    ensures CallPrice(n, p) + DiscountedStrike(n, p) == PutPrice(n, p) + p.s
  {
    AgreesWithPackage(n, p);
    BlackScholes.PutCallParity(n, p);
  }
}
