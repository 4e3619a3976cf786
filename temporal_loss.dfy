/** The temporal attribute-consistency loss `E_temp`: a motion-weighted,
    lambda-weighted sum of the mean squared changes in opacity, scaling and
    the two feature tensors between two snapshots, over their aligned
    points. */
module TemporalLoss {
  import opened RealArith
  import opened Linalg
  import opened Seqs
  import opened Snapshots
  import opened AdaptiveWeights

  datatype Option<T> = None | Some(value: T)

  /** Multipliers of the drift terms; `features` scales both feature terms. */
  datatype Lambdas = Lambdas(opacity: real, scaling: real, features: real)

  /** The multipliers in force: the caller's, or 1.0, 0.1 and 0.1 when the
      caller passes none. */
  function ChosenLambdas(lambdas: Option<Lambdas>): (l: Lambdas)
    ensures lambdas.None? ==> l == Lambdas(1.0, 0.1, 0.1)
    ensures lambdas.Some? ==> l == lambdas.value
  {
    match lambdas
    case None => Lambdas(1.0, 0.1, 0.1)
    case Some(given) => given
  }

  /** A floating-point scalar that may be NaN, as `mean` of an empty tensor is. */
  datatype Scalar = Finite(value: real) | NaN

  /** The mean of `count` elements whose total is `total`: NaN when there
      are none. */
  function Mean(total: real, count: nat): (m: Scalar)
    ensures m.Finite? <==> count > 0
  {
    if count == 0 then NaN else Finite(total / count as real)
  }

  lemma MeanNonNegative(total: real, count: nat)
    requires total >= 0.0 && count > 0
    ensures Mean(total, count).value >= 0.0
  {
    QuotientNonNegative(total, count as real);
  }

  lemma MeanOfZero(count: nat)
    requires count > 0
    ensures Mean(0.0, count) == Finite(0.0)
  {
    ZeroQuotient(count as real);
  }

  /** The per-point weights `exp(-alpha * |xc[i] - xp[i]|^2)`: all positive. */
  function PointWeights(exp: real -> real, alpha: real, xc: seq<Vec3>, xp: seq<Vec3>): (w: seq<real>)
    requires ExpLaws(exp) && |xc| == |xp|
    ensures |w| == |xc|
    ensures forall i :: 0 <= i < |w| ==> w[i] > 0.0
  {
    seq(|xc|, i requires 0 <= i < |xc| => PointWeight(exp, alpha, Sub(xc[i], xp[i])))
  }

  /** A point whose position did not change gets weight exactly 1. */
  lemma PointWeightsAtRest(exp: real -> real, alpha: real, xc: seq<Vec3>, xp: seq<Vec3>, i: nat)
    requires ExpLaws(exp) && |xc| == |xp| && i < |xc| && xc[i] == xp[i]
    ensures PointWeights(exp, alpha, xc, xp)[i] == 1.0
  {
    assert Sub(xc[i], xp[i]) == Zero;
    PointWeightAtRest(exp, alpha);
  }

  function SquaredDiff(a: real, b: real): (r: real)
    ensures r >= 0.0
  {
    SquareNonNegative(a - b);
    (a - b) * (a - b)
  }

  /** The squared differences of two equally long rows, summed. */
  function RowSquaredDiff(a: seq<real>, b: seq<real>): (r: real)
    requires |a| == |b|
    ensures r >= 0.0
  {
    var d := seq(|a|, k requires 0 <= k < |a| => SquaredDiff(a[k], b[k]));
    SumNonNegative(d);
    Sum(d)
  }

  lemma RowSquaredDiffSame(a: seq<real>)
    ensures RowSquaredDiff(a, a) == 0.0
  {
    forall k | 0 <= k < |a| {
      SquaredDiffSame(a[k]);
    }
    SumOfZeros(seq(|a|, k requires 0 <= k < |a| => SquaredDiff(a[k], a[k])));
  }

  /** The number of elements in a list of rows. */
  function ElementCount(rows: seq<seq<real>>): nat {
    if rows == [] then 0 else ElementCount(rows[..|rows| - 1]) + |rows[|rows| - 1]|
  }

  /** Rows of one width hold some element exactly when there is a row and
      the width is not zero. */
  lemma {:induction false} ElementCountPositive(rows: seq<seq<real>>, width: nat)
    requires forall i :: 0 <= i < |rows| ==> |rows[i]| == width
    ensures ElementCount(rows) > 0 <==> |rows| > 0 && width > 0
  {
    if rows != [] {
      ElementCountPositive(rows[..|rows| - 1], width);
    }
  }

  /** The two snapshots' feature rows agree in width over the aligned points,
      so that the elementwise differences are defined. */
  predicate FeatureShapesAgree(curr: Snapshot, prev: Snapshot)
    requires curr.Valid() && prev.Valid()
  {
    forall i :: 0 <= i < AlignedCount(curr, prev) ==>
      && |curr.featuresDc[i]| == |prev.featuresDc[i]|
      && |curr.featuresRest[i]| == |prev.featuresRest[i]|
  }

  /** Per-point squared changes over the first `n` points, one sequence per
      attribute; each entry is the sum over that point's elements. */
  function OpacityChange(curr: Snapshot, prev: Snapshot, n: nat): (d: seq<real>)
    requires curr.Valid() && prev.Valid() && n <= AlignedCount(curr, prev)
    ensures |d| == n && forall i :: 0 <= i < n ==> d[i] >= 0.0
  {
    seq(n, i requires 0 <= i < n => SquaredDiff(curr.opacity[i], prev.opacity[i]))
  }

  function ScalingChange(curr: Snapshot, prev: Snapshot, n: nat): (d: seq<real>)
    requires curr.Valid() && prev.Valid() && n <= AlignedCount(curr, prev)
    ensures |d| == n && forall i :: 0 <= i < n ==> d[i] >= 0.0
  {
    seq(n, i requires 0 <= i < n => SqNorm(Sub(curr.scaling[i], prev.scaling[i])))
  }

  function FeatureChange(curr: seq<seq<real>>, prev: seq<seq<real>>, n: nat): (d: seq<real>)
    requires n <= |curr| && n <= |prev|
    requires forall i :: 0 <= i < n ==> |curr[i]| == |prev[i]|
    ensures |d| == n && forall i :: 0 <= i < n ==> d[i] >= 0.0
  {
    seq(n, i requires 0 <= i < n => RowSquaredDiff(curr[i], prev[i]))
  }

  /** The four weighted mean drifts of `E_temp`, before the lambdas. */
  datatype Drift = Drift(opacity: Scalar, scaling: Scalar, featuresDc: Scalar, featuresRest: Scalar)

  function AttributeDrift(exp: real -> real, curr: Snapshot, prev: Snapshot, alpha: real): Drift
    requires ExpLaws(exp) && curr.Valid() && prev.Valid() && FeatureShapesAgree(curr, prev)
  {
    var n := AlignedCount(curr, prev);
    var w := PointWeights(exp, alpha, curr.xyz[..n], prev.xyz[..n]);
    Drift(
      Mean(WeightedSum(w, OpacityChange(curr, prev, n)), n),
      Mean(WeightedSum(w, ScalingChange(curr, prev, n)), 3 * n),
      Mean(WeightedSum(w, FeatureChange(curr.featuresDc, prev.featuresDc, n)), ElementCount(curr.featuresDc[..n])),
      Mean(WeightedSum(w, FeatureChange(curr.featuresRest, prev.featuresRest, n)), ElementCount(curr.featuresRest[..n])))
  }

  /** The lambda-weighted total; NaN as soon as one mean is. */
  function Combine(l: Lambdas, d: Drift): (r: Scalar)
    ensures r.Finite? <==> d.opacity.Finite? && d.scaling.Finite? && d.featuresDc.Finite? && d.featuresRest.Finite?
  {
    if d.opacity.Finite? && d.scaling.Finite? && d.featuresDc.Finite? && d.featuresRest.Finite? then
      Finite(l.opacity * d.opacity.value + l.scaling * d.scaling.value
        + l.features * d.featuresDc.value + l.features * d.featuresRest.value)
    else
      NaN
  }

  lemma CombineOfZeros(l: Lambdas)
    ensures Combine(l, Drift(Finite(0.0), Finite(0.0), Finite(0.0), Finite(0.0))) == Finite(0.0)
  {
    var p, q, r := l.opacity * 0.0, l.scaling * 0.0, l.features * 0.0;
    assert p == 0.0 && q == 0.0 && r == 0.0;
  }

  /** The two feature terms enter the total symmetrically. */
  lemma CombineFeatureSymmetric(l: Lambdas, d: Drift)
    ensures Combine(l, d.(featuresDc := d.featuresRest, featuresRest := d.featuresDc)) == Combine(l, d)
  {
    if d.opacity.Finite? && d.scaling.Finite? && d.featuresDc.Finite? && d.featuresRest.Finite? {
      var a, b := l.features * d.featuresDc.value, l.features * d.featuresRest.value;
      var base := l.opacity * d.opacity.value + l.scaling * d.scaling.value;
      assert base + b + a == base + a + b;
    }
  }

  /** `E_temp(curr, prev, alpha, lambdas)`. */
  function ETemp(exp: real -> real, curr: Snapshot, prev: Snapshot, alpha: real, lambdas: Option<Lambdas>): Scalar
    requires ExpLaws(exp) && curr.Valid() && prev.Valid() && FeatureShapesAgree(curr, prev)
  {
    Combine(ChosenLambdas(lambdas), AttributeDrift(exp, curr, prev, alpha))
  }

  /** The loss is a number exactly when there is an aligned point and
      neither feature tensor has zero width; otherwise a mean is taken over
      no elements and the result is NaN. */
  lemma ETempDefined(exp: real -> real, curr: Snapshot, prev: Snapshot, alpha: real, lambdas: Option<Lambdas>)
    requires ExpLaws(exp) && curr.Valid() && prev.Valid() && FeatureShapesAgree(curr, prev)
    ensures ETemp(exp, curr, prev, alpha, lambdas).Finite?
      <==> AlignedCount(curr, prev) > 0 && |curr.featuresDc[0]| > 0 && |curr.featuresRest[0]| > 0
  {
    var n := AlignedCount(curr, prev);
    if n > 0 {
      ElementCountPositive(curr.featuresDc[..n], |curr.featuresDc[0]|);
      ElementCountPositive(curr.featuresRest[..n], |curr.featuresRest[0]|);
    }
  }

  predicate NonNegativeLambdas(l: Lambdas) {
    l.opacity >= 0.0 && l.scaling >= 0.0 && l.features >= 0.0
  }

  /** With multipliers that are not negative (the defaults are not), a
      defined loss is never negative: the weights are positive and every
      change is a square. */
  lemma ETempNonNegative(exp: real -> real, curr: Snapshot, prev: Snapshot, alpha: real, lambdas: Option<Lambdas>)
    requires ExpLaws(exp) && curr.Valid() && prev.Valid() && FeatureShapesAgree(curr, prev)
    requires lambdas.Some? ==> NonNegativeLambdas(lambdas.value)
    requires ETemp(exp, curr, prev, alpha, lambdas).Finite?
    ensures ETemp(exp, curr, prev, alpha, lambdas).value >= 0.0
  {
    var n := AlignedCount(curr, prev);
    var w := PointWeights(exp, alpha, curr.xyz[..n], prev.xyz[..n]);
    var l := ChosenLambdas(lambdas);
    var d := AttributeDrift(exp, curr, prev, alpha);
    WeightedSumNonNegative(w, OpacityChange(curr, prev, n));
    WeightedSumNonNegative(w, ScalingChange(curr, prev, n));
    WeightedSumNonNegative(w, FeatureChange(curr.featuresDc, prev.featuresDc, n));
    WeightedSumNonNegative(w, FeatureChange(curr.featuresRest, prev.featuresRest, n));
    MeanNonNegative(WeightedSum(w, OpacityChange(curr, prev, n)), n);
    MeanNonNegative(WeightedSum(w, ScalingChange(curr, prev, n)), 3 * n);
    MeanNonNegative(WeightedSum(w, FeatureChange(curr.featuresDc, prev.featuresDc, n)), ElementCount(curr.featuresDc[..n]));
    MeanNonNegative(WeightedSum(w, FeatureChange(curr.featuresRest, prev.featuresRest, n)), ElementCount(curr.featuresRest[..n]));
    ProductNonNegative(l.opacity, d.opacity.value);
    ProductNonNegative(l.scaling, d.scaling.value);
    ProductNonNegative(l.features, d.featuresDc.value);
    ProductNonNegative(l.features, d.featuresRest.value);
  }

  /** Opacity, scaling and both feature tensors are the same over the first
      `n` points. */
  predicate AttributesAgree(curr: Snapshot, prev: Snapshot, n: nat)
    requires curr.Valid() && prev.Valid() && n <= AlignedCount(curr, prev)
  {
    forall i :: 0 <= i < n ==>
      && curr.opacity[i] == prev.opacity[i]
      && curr.scaling[i] == prev.scaling[i]
      && curr.featuresDc[i] == prev.featuresDc[i]
      && curr.featuresRest[i] == prev.featuresRest[i]
  }

  lemma SquaredDiffSame(a: real)
    ensures SquaredDiff(a, a) == 0.0
  {
    ScaledZero(-(a - a), a - a);
  }

  lemma ChangesZeroWhenAttributesAgree(curr: Snapshot, prev: Snapshot, n: nat)
    requires curr.Valid() && prev.Valid() && n <= AlignedCount(curr, prev)
    requires AttributesAgree(curr, prev, n)
    ensures forall i :: 0 <= i < n ==> OpacityChange(curr, prev, n)[i] == 0.0
    ensures forall i :: 0 <= i < n ==> ScalingChange(curr, prev, n)[i] == 0.0
    ensures forall i :: 0 <= i < n ==> FeatureChange(curr.featuresDc, prev.featuresDc, n)[i] == 0.0
    ensures forall i :: 0 <= i < n ==> FeatureChange(curr.featuresRest, prev.featuresRest, n)[i] == 0.0
  {
    forall i | 0 <= i < n ensures OpacityChange(curr, prev, n)[i] == 0.0 {
      SquaredDiffSame(curr.opacity[i]);
    }
    forall i | 0 <= i < n ensures ScalingChange(curr, prev, n)[i] == 0.0 {
      assert Sub(curr.scaling[i], prev.scaling[i]) == Zero;
      SqNormOfZero();
    }
    forall i | 0 <= i < n ensures FeatureChange(curr.featuresDc, prev.featuresDc, n)[i] == 0.0 {
      RowSquaredDiffSame(curr.featuresDc[i]);
    }
    forall i | 0 <= i < n ensures FeatureChange(curr.featuresRest, prev.featuresRest, n)[i] == 0.0 {
      RowSquaredDiffSame(curr.featuresRest[i]);
    }
  }

  /** Each of the four drifts is zero when nothing changed and there is an
      element to average over. */
  lemma DriftZeroWhenAttributesAgree(exp: real -> real, curr: Snapshot, prev: Snapshot, alpha: real)
    requires ExpLaws(exp) && curr.Valid() && prev.Valid() && FeatureShapesAgree(curr, prev)
    requires AttributesAgree(curr, prev, AlignedCount(curr, prev))
    requires var n := AlignedCount(curr, prev);
      n > 0 && ElementCount(curr.featuresDc[..n]) > 0 && ElementCount(curr.featuresRest[..n]) > 0
    ensures AttributeDrift(exp, curr, prev, alpha) == Drift(Finite(0.0), Finite(0.0), Finite(0.0), Finite(0.0))
  {
    var n := AlignedCount(curr, prev);
    var w := PointWeights(exp, alpha, curr.xyz[..n], prev.xyz[..n]);
    ChangesZeroWhenAttributesAgree(curr, prev, n);
    WeightedSumOfZeros(w, OpacityChange(curr, prev, n));
    WeightedSumOfZeros(w, ScalingChange(curr, prev, n));
    WeightedSumOfZeros(w, FeatureChange(curr.featuresDc, prev.featuresDc, n));
    WeightedSumOfZeros(w, FeatureChange(curr.featuresRest, prev.featuresRest, n));
    MeanOfZero(n);
    MeanOfZero(3 * n);
    MeanOfZero(ElementCount(curr.featuresDc[..n]));
    MeanOfZero(ElementCount(curr.featuresRest[..n]));
  }

  /** When the attributes did not change over the aligned points, a defined
      loss is exactly 0, however the positions moved. */
  lemma ETempZeroWhenAttributesAgree(exp: real -> real, curr: Snapshot, prev: Snapshot, alpha: real, lambdas: Option<Lambdas>)
    requires ExpLaws(exp) && curr.Valid() && prev.Valid() && FeatureShapesAgree(curr, prev)
    requires AttributesAgree(curr, prev, AlignedCount(curr, prev))
    requires ETemp(exp, curr, prev, alpha, lambdas).Finite?
    ensures ETemp(exp, curr, prev, alpha, lambdas) == Finite(0.0)
  {
    var n := AlignedCount(curr, prev);
    var d := AttributeDrift(exp, curr, prev, alpha);
    assert d.opacity.Finite? && d.featuresDc.Finite? && d.featuresRest.Finite?;
    assert n > 0 && ElementCount(curr.featuresDc[..n]) > 0 && ElementCount(curr.featuresRest[..n]) > 0;
    DriftZeroWhenAttributesAgree(exp, curr, prev, alpha);
    CombineOfZeros(ChosenLambdas(lambdas));
  }

  /** Two identical snapshots with at least one point and non-empty
      feature rows have zero temporal loss. */
  lemma ETempIdentical(exp: real -> real, s: Snapshot, alpha: real, lambdas: Option<Lambdas>)
    requires ExpLaws(exp) && s.Valid()
    requires s.Count() > 0 && |s.featuresDc[0]| > 0 && |s.featuresRest[0]| > 0
    ensures FeatureShapesAgree(s, s)
    ensures ETemp(exp, s, s, alpha, lambdas) == Finite(0.0)
  {
    ETempDefined(exp, s, s, alpha, lambdas);
    ETempZeroWhenAttributesAgree(exp, s, s, alpha, lambdas);
  }

  /** Only the first `min(N_prev, N_curr)` points of either snapshot are
      read: cutting both down to that many changes nothing, and the
      difference in sizes is never an error. */
  lemma ETempReadsAlignedPrefix(exp: real -> real, curr: Snapshot, prev: Snapshot, alpha: real, lambdas: Option<Lambdas>)
    requires ExpLaws(exp) && curr.Valid() && prev.Valid() && FeatureShapesAgree(curr, prev)
    ensures var n := AlignedCount(curr, prev);
      && FeatureShapesAgree(curr.Prefix(n), prev.Prefix(n))
      && ETemp(exp, curr.Prefix(n), prev.Prefix(n), alpha, lambdas) == ETemp(exp, curr, prev, alpha, lambdas)
  {
    var n := AlignedCount(curr, prev);
    var c, p := curr.Prefix(n), prev.Prefix(n);
    assert AlignedCount(c, p) == n;
    assert c.xyz[..n] == curr.xyz[..n];
    assert p.xyz[..n] == prev.xyz[..n];
    assert c.featuresDc[..n] == curr.featuresDc[..n];
    assert c.featuresRest[..n] == curr.featuresRest[..n];
    assert OpacityChange(c, p, n) == OpacityChange(curr, prev, n);
    assert ScalingChange(c, p, n) == ScalingChange(curr, prev, n);
    assert FeatureChange(c.featuresDc, p.featuresDc, n) == FeatureChange(curr.featuresDc, prev.featuresDc, n);
    assert FeatureChange(c.featuresRest, p.featuresRest, n) == FeatureChange(curr.featuresRest, prev.featuresRest, n);
  }

  /** The snapshot with its two feature tensors exchanged. */
  function SwapFeatures(s: Snapshot): (t: Snapshot)
    requires s.Valid()
    ensures t.Valid()
  {
    s.(featuresDc := s.featuresRest, featuresRest := s.featuresDc)
  }

  /** One multiplier scales both feature terms, so exchanging the low- and
      high-order feature tensors in both snapshots leaves the loss as it was. */
  lemma ETempFeatureTermsInterchangeable(exp: real -> real, curr: Snapshot, prev: Snapshot, alpha: real, lambdas: Option<Lambdas>)
    requires ExpLaws(exp) && curr.Valid() && prev.Valid() && FeatureShapesAgree(curr, prev)
    ensures FeatureShapesAgree(SwapFeatures(curr), SwapFeatures(prev))
    ensures ETemp(exp, SwapFeatures(curr), SwapFeatures(prev), alpha, lambdas) == ETemp(exp, curr, prev, alpha, lambdas)
  {
    var c, p := SwapFeatures(curr), SwapFeatures(prev);
    var d, e := AttributeDrift(exp, curr, prev, alpha), AttributeDrift(exp, c, p, alpha);
    assert AlignedCount(c, p) == AlignedCount(curr, prev);
    assert e == d.(featuresDc := d.featuresRest, featuresRest := d.featuresDc);
    CombineFeatureSymmetric(ChosenLambdas(lambdas), d);
  }
}
