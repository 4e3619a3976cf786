/** Facts about real multiplication and division, stated once so that the
    call sites where the solver needs them can name the instance they use. */
module RealArith {

  lemma SquareNonNegative(a: real)
    ensures a * a >= 0.0
  {
    if a < 0.0 {
      var b := -a;
      assert b * b > 0.0 * b;
      assert a * a == b * b;
    }
  }

  lemma ReciprocalPositive(a: real)
    requires a > 0.0
    ensures 1.0 / a > 0.0
  {
  }

  lemma ReciprocalAtMostOne(a: real)
    requires a >= 1.0
    ensures 1.0 / a <= 1.0
  {
  }

  lemma ReciprocalDecreasing(a: real, b: real)
    requires 0.0 < a < b
    ensures 1.0 / b < 1.0 / a
  {
    assert (1.0 / b) * b == 1.0;
    assert (1.0 / a) * a == 1.0;
  }

  lemma ProductNonNegative(a: real, b: real)
    requires a >= 0.0 && b >= 0.0
    ensures a * b >= 0.0
  {
  }

  lemma ProductPositive(a: real, b: real)
    requires a > 0.0 && b > 0.0
    ensures a * b > 0.0
  {
  }

  lemma ScaledZero(a: real, s: real)
    requires s == 0.0
    ensures -a * s == 0.0
  {
  }

  lemma QuotientNonNegative(a: real, b: real)
    requires a >= 0.0 && b > 0.0
    ensures a / b >= 0.0
  {
  }

  lemma ZeroQuotient(b: real)
    requires b > 0.0
    ensures 0.0 / b == 0.0
  {
  }
}
