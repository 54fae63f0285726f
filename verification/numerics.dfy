/**
 The numerical primitives the pricing formulas are built on: the standard
 normal cumulative distribution function and density, and the elementary
 functions exp, ln and sqrt. Their numerical implementations live in an
 external library, so the model receives them as function values and only
 relies on the handful of exact facts collected in `Primitives.Valid`.
 */
module Numerics {

  /** The primitives as used by the pricing code: `cdf` is the standard normal
      cumulative distribution function, `pdf` its density. */
  datatype Primitives = Primitives(
    cdf: real -> real,
    pdf: real -> real,
    exp: real -> real,
    ln: real -> real,
    sqrt: real -> real)
  {
    /** Facts that hold of the mathematical functions. `ln` is left unconstrained:
        no property of the pricing layer depends on it. The second conjunct is
        the symmetry of the distribution, cdf(-x) = 1 - cdf(x); it is written
        with `Mirror(x)` for -x only to control when the solver instantiates
        it, and proofs use it in its plain form through `CdfReflect`. */
    ghost predicate Valid() {
      && (forall x :: 0.0 <= cdf(x) <= 1.0)
      && (forall x {:trigger Mirror(x)} :: cdf(x) + cdf(Mirror(x)) == 1.0)
      && (forall x :: pdf(x) > 0.0)
      && (forall x :: exp(x) > 0.0)
      && exp(0.0) == 1.0
      && (forall x :: x < 0.0 ==> exp(x) < 1.0)
      && (forall x :: x >= 0.0 ==> sqrt(x) >= 0.0 && sqrt(x) * sqrt(x) == x)
    }
  }

  /** The reflection x |-> -x. It is a solver device with no meaning of its
      own: naming it keeps the symmetry fact about `cdf` from being used
      anywhere but in `CdfReflect`. */
  function Mirror(x: real): real {
    -x
  }

  /** The square root of a positive number is positive, so it may divide. */
  lemma SqrtPositive(n: Primitives, x: real)
    requires n.Valid()
    requires x > 0.0
    ensures n.sqrt(x) > 0.0
    ensures n.sqrt(x) * n.sqrt(x) == x
  {
    assert n.sqrt(x) >= 0.0 && n.sqrt(x) * n.sqrt(x) == x;
  }

  /** The mass on the left of `-x` is the mass on the right of `x`. */
  lemma CdfReflect(n: Primitives, x: real)
    requires n.Valid()
    ensures n.cdf(-x) == 1.0 - n.cdf(x)
  {
    assert n.cdf(x) + n.cdf(Mirror(x)) == 1.0;
  }
}
