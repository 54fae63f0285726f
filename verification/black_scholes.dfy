/**
 Closed-form Black-Scholes-Merton prices of European options, as computed by
 the package module `src/black_scholes.py`: the standardised quantities d1
 and d2, and the call and put prices built from them.
 */
module BlackScholes {
  import opened Numerics
  import opened Market
  import opened Arith

  /** d1 = (ln(S/K) + (r + sigma^2/2) T) / (sigma sqrt(T)): the drift-adjusted
      log-moneyness measured in units of sigma sqrt(T). */
  function D1(n: Primitives, p: Params): real
    requires n.Valid() && p.Valid()
  {
    SqrtPositive(n, p.t);
    (n.ln(Moneyness(p)) + (p.r + p.sigma * p.sigma / 2.0) * p.t) / (p.sigma * n.sqrt(p.t))
  }

  /** d1 scaled back by sigma sqrt(T) is the drift-adjusted log-moneyness
      ln(S/K) + (r + sigma^2/2) T, and d1 is positive exactly when that is. */
  lemma D1Scaled(n: Primitives, p: Params)
    requires n.Valid() && p.Valid()
    ensures D1(n, p) * (p.sigma * n.sqrt(p.t)) == n.ln(Moneyness(p)) + (p.r + p.sigma * p.sigma / 2.0) * p.t
    ensures D1(n, p) > 0.0 <==> n.ln(Moneyness(p)) + (p.r + p.sigma * p.sigma / 2.0) * p.t > 0.0
  {
    SqrtPositive(n, p.t);
    PositiveProduct2(p.sigma, n.sqrt(p.t));
    QuotientByPositive(n.ln(Moneyness(p)) + (p.r + p.sigma * p.sigma / 2.0) * p.t, p.sigma * n.sqrt(p.t));
  }

  /** d2 lies strictly below d1: the two are sigma sqrt(T) apart. */
  function D2(n: Primitives, p: Params): (d: real)
    requires n.Valid() && p.Valid()
    ensures d < D1(n, p)
    ensures (D1(n, p) - d) * (D1(n, p) - d) == p.sigma * p.sigma * p.t
  {
    SqrtPositive(n, p.t);
    ScaledRootSquare(p.sigma, n.sqrt(p.t), p.t);
    D1(n, p) - p.sigma * n.sqrt(p.t)
  }

  /** The call price S Phi(d1) - K e^(-rT) Phi(d2); it never exceeds the spot. */
  function CallPrice(n: Primitives, p: Params): (c: real)
    requires n.Valid() && p.Valid()
    ensures c <= p.s
  {
    var d1 := D1(n, p);
    var d2 := D2(n, p);
    assert n.exp(DiscountExponent(p)) > 0.0 && n.cdf(d2) >= 0.0;
    p.s * n.cdf(d1) - p.k * n.exp(DiscountExponent(p)) * n.cdf(d2)
  }

  /** The put price K e^(-rT) Phi(-d2) - S Phi(-d1); it never exceeds the
      discounted strike. */
  function PutPrice(n: Primitives, p: Params): (q: real)
    requires n.Valid() && p.Valid()
    ensures q <= DiscountedStrike(n, p)
  {
    var d1 := D1(n, p);
    var d2 := D2(n, p);
    assert n.exp(DiscountExponent(p)) > 0.0 && n.cdf(-d2) <= 1.0 && n.cdf(-d1) >= 0.0;
    p.k * n.exp(DiscountExponent(p)) * n.cdf(-d2) - p.s * n.cdf(-d1)
  }

  /** Put-call parity: a call plus the discounted strike is worth a put plus
      the underlying, for every valid input. */
  lemma PutCallParity(n: Primitives, p: Params)
    requires n.Valid() && p.Valid()
    ensures CallPrice(n, p) + DiscountedStrike(n, p) == PutPrice(n, p) + p.s
  {
    var d1, d2 := D1(n, p), D2(n, p);
    CdfReflect(n, d1);
    CdfReflect(n, d2);
    ParityAlgebra(p.s, DiscountedStrike(n, p), n.cdf(d1), n.cdf(-d1), n.cdf(d2), n.cdf(-d2));
  }

  /** At the money with a zero rate the call and the put cost the same. */
  lemma AtTheMoneyZeroRate(n: Primitives, p: Params)
    requires n.Valid() && p.Valid()
    requires p.s == p.k && p.r == 0.0
    ensures CallPrice(n, p) == PutPrice(n, p)
  {
    PutCallParity(n, p);
  }

  /** At the money with a positive rate the call is strictly dearer than the
      put, since the strike is discounted below the spot. */
  lemma AtTheMoneyPositiveRate(n: Primitives, p: Params)
    requires n.Valid() && p.Valid()
    requires p.s == p.k && p.r > 0.0
    ensures CallPrice(n, p) > PutPrice(n, p)
  {
    PutCallParity(n, p);
  }
}
