/**
 The sensitivities of the Black-Scholes-Merton prices ("Greeks"), as computed
 by `src/greeks.py` on top of the package copy of d1 and d2. Each is in units
 per year, per unit of volatility and per unit of rate, as the code returns
 them.
 */
module Greeks {
  import opened Numerics
  import opened Market
  import opened BlackScholes
  import opened Arith

  /** The call delta Phi(d1) is a probability. */
  function DeltaCall(n: Primitives, p: Params): (g: real)
    requires n.Valid() && p.Valid()
    ensures 0.0 <= g <= 1.0
  {
    n.cdf(D1(n, p))
  }

  /** The put delta Phi(d1) - 1 lies in [-1, 0]. */
  function DeltaPut(n: Primitives, p: Params): (g: real)
    requires n.Valid() && p.Valid()
    ensures -1.0 <= g <= 0.0
  {
    n.cdf(D1(n, p)) - 1.0
  }

  /** Gamma, shared by calls and puts, is strictly positive. */
  function Gamma(n: Primitives, p: Params): (g: real)
    requires n.Valid() && p.Valid()
    ensures g > 0.0
  {
    SqrtPositive(n, p.t);
    PositiveProduct3(p.s, p.sigma, n.sqrt(p.t));
    n.pdf(D1(n, p)) / (p.s * p.sigma * n.sqrt(p.t))
  }

  /** Call theta: time decay, negative whenever the rate is not negative. */
  function ThetaCall(n: Primitives, p: Params): (g: real)
    requires n.Valid() && p.Valid()
    ensures p.r >= 0.0 ==> g < 0.0
  {
    var d1 := D1(n, p);
    var d2 := D2(n, p);
    DecayTermNegative(n, p);
    DiscountFactorBounds(n, p);
    assert p.r >= 0.0 ==> p.r * p.k * n.exp(DiscountExponent(p)) * n.cdf(d2) >= 0.0;
    var term1 := -p.s * n.pdf(d1) * p.sigma / (2.0 * n.sqrt(p.t));
    var term2 := -p.r * p.k * n.exp(DiscountExponent(p)) * n.cdf(d2);
    term1 + term2
  }

  /** Put theta: negative whenever the rate is not positive. */
  function ThetaPut(n: Primitives, p: Params): (g: real)
    requires n.Valid() && p.Valid()
    ensures p.r <= 0.0 ==> g < 0.0
  {
    var d1 := D1(n, p);
    var d2 := D2(n, p);
    DecayTermNegative(n, p);
    DiscountFactorBounds(n, p);
    assert p.r <= 0.0 ==> p.r * p.k * n.exp(DiscountExponent(p)) * n.cdf(-d2) <= 0.0;
    var term1 := -p.s * n.pdf(d1) * p.sigma / (2.0 * n.sqrt(p.t));
    var term2 := p.r * p.k * n.exp(DiscountExponent(p)) * n.cdf(-d2);
    term1 + term2
  }

  /** Vega, shared by calls and puts, is strictly positive. */
  function Vega(n: Primitives, p: Params): (g: real)
    requires n.Valid() && p.Valid()
    ensures g > 0.0
  {
    SqrtPositive(n, p.t);
    PositiveProduct3(p.s, n.sqrt(p.t), n.pdf(D1(n, p)));
    p.s * n.sqrt(p.t) * n.pdf(D1(n, p))
  }

  /** Call rho is never negative. */
  function RhoCall(n: Primitives, p: Params): (g: real)
    requires n.Valid() && p.Valid()
    ensures g >= 0.0
  {
    NonNegativeProduct4(p.k, p.t, n.exp(DiscountExponent(p)), n.cdf(D2(n, p)));
    p.k * p.t * n.exp(DiscountExponent(p)) * n.cdf(D2(n, p))
  }

  /** Put rho is never positive. */
  function RhoPut(n: Primitives, p: Params): (g: real)
    requires n.Valid() && p.Valid()
    ensures g <= 0.0
  {
    NonNegativeProduct4(p.k, p.t, n.exp(DiscountExponent(p)), n.cdf(-D2(n, p)));
    -p.k * p.t * n.exp(DiscountExponent(p)) * n.cdf(-D2(n, p))
  }

  /** The first theta term, common to calls and puts, is strictly negative. */
  lemma DecayTermNegative(n: Primitives, p: Params)
    requires n.Valid() && p.Valid()
    ensures n.sqrt(p.t) > 0.0
    ensures -p.s * n.pdf(D1(n, p)) * p.sigma / (2.0 * n.sqrt(p.t)) < 0.0
  {
    SqrtPositive(n, p.t);
    PositiveProduct3(p.s, n.pdf(D1(n, p)), p.sigma);
    var num := p.s * n.pdf(D1(n, p)) * p.sigma;
    assert -p.s * n.pdf(D1(n, p)) * p.sigma == -num;
    assert num / (2.0 * n.sqrt(p.t)) > 0.0;
  }

  /** The put delta is the call delta shifted down by one, and equals
      -Phi(-d1). */
  lemma DeltaPutFromCall(n: Primitives, p: Params)
    requires n.Valid() && p.Valid()
    ensures DeltaPut(n, p) == DeltaCall(n, p) - 1.0
    ensures DeltaPut(n, p) == -n.cdf(-D1(n, p))
  {
    CdfReflect(n, D1(n, p));
  }

  /** Call and put theta share their decay term; they differ by the carry
      of the discounted strike, -r K e^(-rT). */
  lemma ThetaDifference(n: Primitives, p: Params)
    requires n.Valid() && p.Valid()
    ensures ThetaCall(n, p) - ThetaPut(n, p) == -p.r * DiscountedStrike(n, p)
  {
    var d2 := D2(n, p);
    CdfReflect(n, d2);
    ThetaTerms(n, p);
    ThetaCarryAlgebra(DecayTerm(n, p), p.r, p.k, n.exp(DiscountExponent(p)), n.cdf(d2), n.cdf(-d2));
  }

  /** Call and put rho differ by T times the discounted strike. */
  lemma RhoDifference(n: Primitives, p: Params)
    requires n.Valid() && p.Valid()
    ensures RhoCall(n, p) - RhoPut(n, p) == p.t * DiscountedStrike(n, p)
  {
    var d2 := D2(n, p);
    CdfReflect(n, d2);
    RhoAlgebra(p.k, p.t, n.exp(DiscountExponent(p)), n.cdf(d2), n.cdf(-d2));
  }

  /** Vega and gamma are two scalings of the same density value:
      vega = gamma * S^2 * sigma * T. */
  lemma VegaFromGamma(n: Primitives, p: Params)
    requires n.Valid() && p.Valid()
    ensures Vega(n, p) == Gamma(n, p) * p.s * p.s * p.sigma * p.t
  {
    SqrtPositive(n, p.t);
    GammaScaling(p.s, p.sigma, n.sqrt(p.t), p.t, n.pdf(D1(n, p)));
  }

  /** The call price is the spot times the call delta minus the call rho
      per year of expiry. */
  lemma CallPriceFromDeltaAndRho(n: Primitives, p: Params)
    requires n.Valid() && p.Valid()
    ensures CallPrice(n, p) == p.s * DeltaCall(n, p) - RhoCall(n, p) / p.t
  {
    CallAlgebra(p.s, n.cdf(D1(n, p)), p.k, p.t, n.exp(DiscountExponent(p)), n.cdf(D2(n, p)));
  }

  /** The put price is the spot times the put delta minus the put rho per
      year of expiry. */
  lemma PutPriceFromDeltaAndRho(n: Primitives, p: Params)
    requires n.Valid() && p.Valid()
    ensures PutPrice(n, p) == p.s * DeltaPut(n, p) - RhoPut(n, p) / p.t
  {
    var d1 := D1(n, p);
    CdfReflect(n, d1);
    PutAlgebra(p.s, n.cdf(d1), n.cdf(-d1), p.k, p.t, n.exp(DiscountExponent(p)), n.cdf(-D2(n, p)));
  }

  /** Call theta decomposes into the volatility decay -sigma vega / (2T) and
      the rate carry -r rho / T. */
  lemma ThetaCallFromVegaAndRho(n: Primitives, p: Params)
    requires n.Valid() && p.Valid()
    ensures ThetaCall(n, p) == -p.sigma * Vega(n, p) / (2.0 * p.t) - p.r * RhoCall(n, p) / p.t
  {
    ThetaTerms(n, p);
    DecayFromVegaTerm(n, p);
    RhoTerms(n, p);
    CallCarryFromRho(p.r, p.k, p.t, n.exp(DiscountExponent(p)), n.cdf(D2(n, p)), RhoCall(n, p));
  }

  /** Put theta decomposes the same way, with the put rho. */
  lemma ThetaPutFromVegaAndRho(n: Primitives, p: Params)
    requires n.Valid() && p.Valid()
    ensures ThetaPut(n, p) == -p.sigma * Vega(n, p) / (2.0 * p.t) - p.r * RhoPut(n, p) / p.t
  {
    ThetaTerms(n, p);
    DecayFromVegaTerm(n, p);
    RhoTerms(n, p);
    PutCarryFromRho(p.r, p.k, p.t, n.exp(DiscountExponent(p)), n.cdf(-D2(n, p)), RhoPut(n, p));
  }

  /** The decay term is vega scaled by -sigma / (2T). */
  lemma DecayFromVegaTerm(n: Primitives, p: Params)
    requires n.Valid() && p.Valid()
    ensures DecayTerm(n, p) == -p.sigma * Vega(n, p) / (2.0 * p.t)
  {
    SqrtPositive(n, p.t);
    assert DecayTerm(n, p) == -p.s * n.pdf(D1(n, p)) * p.sigma / (2.0 * n.sqrt(p.t));
    VegaTerm(n, p);
    DecayFromVega(p.s, n.pdf(D1(n, p)), p.sigma, n.sqrt(p.t), p.t, Vega(n, p));
  }

  /** The decay term -S phi(d1) sigma / (2 sqrt(T)) that opens both thetas. */
  function DecayTerm(n: Primitives, p: Params): real
    requires n.Valid() && p.Valid()
  {
    SqrtPositive(n, p.t);
    -p.s * n.pdf(D1(n, p)) * p.sigma / (2.0 * n.sqrt(p.t))
  }

  /** Both thetas are the decay term plus a carry term. */
  lemma ThetaTerms(n: Primitives, p: Params)
    requires n.Valid() && p.Valid()
    ensures n.sqrt(p.t) > 0.0
    ensures DecayTerm(n, p) == -p.s * n.pdf(D1(n, p)) * p.sigma / (2.0 * n.sqrt(p.t))
    ensures ThetaCall(n, p) == DecayTerm(n, p) + -p.r * p.k * n.exp(DiscountExponent(p)) * n.cdf(D2(n, p))
    ensures ThetaPut(n, p) == DecayTerm(n, p) + p.r * p.k * n.exp(DiscountExponent(p)) * n.cdf(-D2(n, p))
  {
    SqrtPositive(n, p.t);
  }

  /** Vega written out over the primitives: an unfolding step for the
      solver, like `RhoTerms`. */
  lemma VegaTerm(n: Primitives, p: Params)
    requires n.Valid() && p.Valid()
    ensures Vega(n, p) == p.s * n.sqrt(p.t) * n.pdf(D1(n, p))
  {
  }

  /** The two rhos written out over the primitives: an unfolding step for
      the solver. */
  lemma RhoTerms(n: Primitives, p: Params)
    requires n.Valid() && p.Valid()
    ensures RhoCall(n, p) == p.k * p.t * n.exp(DiscountExponent(p)) * n.cdf(D2(n, p))
    ensures RhoPut(n, p) == -p.k * p.t * n.exp(DiscountExponent(p)) * n.cdf(-D2(n, p))
  {
  }
}
