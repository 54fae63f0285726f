/**
 Identities of real arithmetic behind the pricing lemmas, stated over plain
 variables: the solver proves each one in isolation, and the lemmas about
 prices and Greeks only instantiate them with the values of the primitives.
 */
module Arith {

  lemma PositiveProduct2(a: real, b: real)
    requires a > 0.0 && b > 0.0
    ensures a * b > 0.0
  {
  }

  lemma PositiveProduct3(a: real, b: real, c: real)
    requires a > 0.0 && b > 0.0 && c > 0.0
    ensures a * b * c > 0.0
  {
    assert a * b > 0.0;
  }

  lemma NonNegativeProduct4(a: real, b: real, c: real, d: real)
    requires a >= 0.0 && b >= 0.0 && c >= 0.0 && d >= 0.0
    ensures a * b * c * d >= 0.0
  {
    assert a * b >= 0.0;
    assert a * b * c >= 0.0;
  }

  /** The square of a times a square root of t is a^2 t. */
  lemma ScaledRootSquare(a: real, rt: real, t: real)
    requires rt * rt == t
    ensures (a * rt) * (a * rt) == a * a * t
  {
    assert (a * rt) * (a * rt) == a * a * (rt * rt);
  }

  /** A quotient by a positive number undoes the division and keeps the
      sign of the numerator. */
  lemma QuotientByPositive(x: real, y: real)
    requires y > 0.0
    ensures (x / y) * y == x
    ensures x / y > 0.0 <==> x > 0.0
  {
    DivCancel(x, y);
    if x / y > 0.0 {
      assert (x / y) * y > 0.0;
    }
  }

  /** Division is the inverse of multiplication. */
  lemma DivIntro(x: real, y: real, z: real)
    requires y != 0.0 && x == z * y
    ensures x / y == z
  {
  }

  lemma DivCancel(x: real, y: real)
    requires y != 0.0
    ensures (x / y) * y == x
  {
  }

  /** Dividing k t e c by t leaves k e c. */
  lemma CancelTime(k: real, t: real, e: real, c: real)
    requires t != 0.0
    ensures k * t * e * c / t == k * e * c
    ensures -k * t * e * c / t == -(k * e * c)
  {
    assert k * t * e * c == (k * e * c) * t;
    DivIntro(k * t * e * c, t, k * e * c);
    assert -k * t * e * c == -(k * e * c) * t;
    DivIntro(-k * t * e * c, t, -(k * e * c));
  }

  /** r times a quotient by t is the quotient of r times the numerator. */
  lemma MulDiv(r: real, b: real, t: real)
    requires t != 0.0
    ensures r * b / t == r * (b / t)
  {
    DivCancel(b, t);
    assert r * (b / t) * t == r * b;
    DivIntro(r * b, t, r * (b / t));
  }

  /** With rt * rt == t and v == s rt f, -sigma v / (2t) equals
      -s f sigma / (2 rt). */
  lemma DecayFromVega(s: real, f: real, sigma: real, rt: real, t: real, v: real)
    requires t > 0.0 && rt > 0.0 && rt * rt == t && v == s * rt * f
    ensures -sigma * v / (2.0 * t) == -s * f * sigma / (2.0 * rt)
  {
    var x := s * f * sigma;
    var z := -x / (2.0 * rt);
    DivCancel(-x, 2.0 * rt);
    assert z * (2.0 * rt) == -x;
    assert z * (2.0 * t) == z * (2.0 * rt) * rt;
    assert -sigma * v == -x * rt;
    DivIntro(-sigma * v, 2.0 * t, z);
    assert -s * f * sigma == -x;
  }

  /** The rate carry of a call theta, -r k e c, is -r rho / t for the call
      rho k t e c. */
  lemma CallCarryFromRho(r: real, k: real, t: real, e: real, c: real, rho: real)
    requires t != 0.0 && rho == k * t * e * c
    ensures -r * k * e * c == -(r * rho / t)
  {
    CancelTime(k, t, e, c);
    MulDiv(r, rho, t);
  }

  /** The rate carry of a put theta, r k e c, is -r rho / t for the put rho
      -k t e c. */
  lemma PutCarryFromRho(r: real, k: real, t: real, e: real, c: real, rho: real)
    requires t != 0.0 && rho == -k * t * e * c
    ensures r * k * e * c == -(r * rho / t)
  {
    CancelTime(k, t, e, c);
    MulDiv(r, rho, t);
  }

  /** The algebra of put-call parity: with complementary weights,
      (s c1 - kd c2) + kd == (kd c2' - s c1') + s. */
  lemma ParityAlgebra(s: real, kd: real, c1: real, c1': real, c2: real, c2': real)
    requires c1 + c1' == 1.0 && c2 + c2' == 1.0
    ensures (s * c1 - kd * c2) + kd == (kd * c2' - s * c1') + s
  {
    assert s * c1' == s - s * c1;
    assert kd * c2' == kd - kd * c2;
  }

  /** The theta carry terms -r k e c and r k e c' differ by -r k e when c
      and c' are complementary. */
  lemma ThetaCarryAlgebra(a: real, r: real, k: real, e: real, c: real, c': real)
    requires c + c' == 1.0
    ensures (a + -r * k * e * c) - (a + r * k * e * c') == -r * (k * e)
  {
    assert -r * k * e * c - r * k * e * c' == -(r * k * e) * (c + c');
  }

  /** The rho terms k t e c and -k t e c' differ by t k e when c and c' are
      complementary. */
  lemma RhoAlgebra(k: real, t: real, e: real, c: real, c': real)
    requires c + c' == 1.0
    ensures k * t * e * c - -k * t * e * c' == t * (k * e)
  {
    assert k * t * e * c - -k * t * e * c' == (k * t * e) * (c + c');
  }

  /** f / (s sigma rt) times s^2 sigma t is s rt f when rt * rt == t. */
  lemma GammaScaling(s: real, sigma: real, rt: real, t: real, f: real)
    requires s > 0.0 && sigma > 0.0 && rt > 0.0 && rt * rt == t
    ensures s * rt * f == f / (s * sigma * rt) * s * s * sigma * t
  {
    var den := s * sigma * rt;
    var g := f / den;
    DivCancel(f, den);
    assert g * den == f;
    calc {
      g * s * s * sigma * t;
      g * s * s * sigma * (rt * rt);
      (g * den) * (s * rt);
      f * (s * rt);
    }
  }

  /** s c1 - k e c2 is s c1 minus (k t e c2) / t. */
  lemma CallAlgebra(s: real, c1: real, k: real, t: real, e: real, c2: real)
    requires t != 0.0
    ensures s * c1 - k * e * c2 == s * c1 - k * t * e * c2 / t
  {
    CancelTime(k, t, e, c2);
  }

  /** k e c2' - s c1' is s (c1 - 1) minus (-k t e c2') / t when c1 and c1'
      are complementary. */
  lemma PutAlgebra(s: real, c1: real, c1': real, k: real, t: real, e: real, c2': real)
    requires t != 0.0 && c1 + c1' == 1.0
    ensures k * e * c2' - s * c1' == s * (c1 - 1.0) - -k * t * e * c2' / t
  {
    CancelTime(k, t, e, c2');
    assert s * c1' == -(s * (c1 - 1.0));
  }
}
