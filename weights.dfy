/** The adaptive weights: `exp(-alpha * |d|^2)` for a displacement `d`, and
    its gated form that is zero once the squared displacement exceeds the
    fixed threshold 0.002. The exponential is the parameter `exp`, of
    which only `ExpLaws` is assumed. */
module AdaptiveWeights {
  import opened Linalg
  import opened RealArith

  /** The squared-displacement gate of the reference rigidity loss. */
  const GateThreshold: real := 0.002

  /** The facts about the exponential that the losses rely on: it is 1 at 0,
      positive everywhere and strictly increasing. */
  ghost predicate ExpLaws(exp: real -> real) {
    && exp(0.0) == 1.0
    && (forall x :: exp(x) > 0.0)
    && (forall x, y :: x < y ==> exp(x) < exp(y))
  }

  /** The laws can be met: 1/(1-x) below zero and 1+x above it is one
      function satisfying them. */
  lemma ExpLawsSatisfiable()
    ensures ExpLaws(x => if x <= 0.0 then 1.0 / (1.0 - x) else 1.0 + x)
  {
    var e: real -> real := x => if x <= 0.0 then 1.0 / (1.0 - x) else 1.0 + x;
    forall x ensures e(x) > 0.0 {
      if x <= 0.0 {
        ReciprocalPositive(1.0 - x);
      }
    }
    forall x, y | x < y ensures e(x) < e(y) {
      if y <= 0.0 {
        ReciprocalDecreasing(1.0 - y, 1.0 - x);
      } else if x <= 0.0 {
        ReciprocalAtMostOne(1.0 - x);
      }
    }
  }

  /** Below 0 the exponential stays under its value at 0. */
  lemma ExpAtMostOne(exp: real -> real, x: real)
    requires ExpLaws(exp) && x <= 0.0
    ensures exp(x) <= 1.0
  {
    if x < 0.0 {
      assert exp(x) < exp(0.0);
    }
  }

  /** The weight of a point displaced by `d`, `exp(-alpha * |d|^2)`:
      positive, and at most 1 when `alpha` is not negative. */
  function PointWeight(exp: real -> real, alpha: real, d: Vec3): (w: real)
    requires ExpLaws(exp)
    ensures w > 0.0
    ensures alpha >= 0.0 ==> w <= 1.0
  {
    var e := -alpha * SqNorm(d);
    if alpha >= 0.0 then
      ProductNonNegative(alpha, SqNorm(d));
      ExpAtMostOne(exp, e);
      exp(e)
    else
      exp(e)
  }

  /** A point that did not move has weight exactly 1, whatever `alpha`. */
  lemma PointWeightAtRest(exp: real -> real, alpha: real)
    requires ExpLaws(exp)
    ensures PointWeight(exp, alpha, Zero) == 1.0
  {
    ScaledZero(alpha, SqNorm(Zero));
  }

  /** With a positive `alpha` the weight strictly decreases as the squared
      displacement grows. */
  lemma PointWeightDecreasing(exp: real -> real, alpha: real, near: Vec3, far: Vec3)
    requires ExpLaws(exp) && alpha > 0.0 && SqNorm(near) < SqNorm(far)
    ensures PointWeight(exp, alpha, far) < PointWeight(exp, alpha, near)
  {
    ProductPositive(alpha, SqNorm(far) - SqNorm(near));
    assert -alpha * SqNorm(far) < -alpha * SqNorm(near);
  }

  /** The gated edge weight: zero exactly when the squared displacement
      exceeds the threshold, and otherwise the ungated point weight. */
  function GatedEdgeWeight(exp: real -> real, alpha: real, d: Vec3): (w: real)
    requires ExpLaws(exp)
    ensures w >= 0.0
    ensures w == 0.0 <==> SqNorm(d) > GateThreshold
    ensures SqNorm(d) <= GateThreshold ==> w == PointWeight(exp, alpha, d)
    ensures alpha >= 0.0 ==> w <= 1.0
  {
    if SqNorm(d) > GateThreshold then 0.0 else PointWeight(exp, alpha, d)
  }
}
