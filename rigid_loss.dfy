/** The local-rigidity losses `E_smooth` and `E_smooth_optimized`. For each
    directed edge (i, j) of a neighbour graph, the previous-frame edge vector
    is turned by point i's rotation increment and compared with the
    current-frame edge vector; the squared mismatches are weighted by point
    i's displacement and averaged over the edges. The reference form gates
    the weight, the optimised form does not and gathers the rotation
    increments through the deduplicated source indices. */
module RigidLoss {
  import opened RealArith
  import opened Linalg
  import opened Seqs
  import opened Snapshots
  import opened AdaptiveWeights
  import opened UniqueIndex

  /** The ways the tensor operations fail: an edge index past the end of a
      tensor, or two batched operands of different lengths. */
  datatype LossError = IndexOutOfRange | ShapeMismatch

  datatype Result<T> = Success(value: T) | Failure(error: LossError)

  /** `max(count, 1)`, the divisor that keeps an empty edge list from
      dividing by zero. */
  function EdgeDivisor(count: nat): (m: real)
    ensures m >= 1.0 && m >= count as real
  {
    if count > 1 then count as real else 1.0
  }

  /** Elementwise `a - b` of two equally long vector lists. */
  function Diffs(a: seq<Vec3>, b: seq<Vec3>): (d: seq<Vec3>)
    requires |a| == |b|
    ensures |d| == |a|
  {
    seq(|a|, k requires 0 <= k < |a| => Sub(a[k], b[k]))
  }

  /** The per-point rotation increments `R(qc[i]) * R(qp[i])^T`. */
  function RotationDeltas(build: Quat -> Mat3, qc: seq<Quat>, qp: seq<Quat>): (deltas: seq<Mat3>)
    requires |qc| == |qp|
    ensures |deltas| == |qc|
  {
    seq(|qc|, i requires 0 <= i < |qc| => RotationDelta(build, qc[i], qp[i]))
  }

  /** Per edge, `|rot[k] * prevEdges[k] - currEdges[k]|^2`. */
  function RigidResiduals(rot: seq<Mat3>, prevEdges: seq<Vec3>, currEdges: seq<Vec3>): (res: seq<real>)
    requires |rot| == |prevEdges| == |currEdges|
    ensures |res| == |rot|
  {
    seq(|rot|, k requires 0 <= k < |rot| => SqNorm(Sub(MatVec(rot[k], prevEdges[k]), currEdges[k])))
  }

  /** The rotation increments gathered once per distinct source index and
      re-expanded to one per edge through the inverse map: the same
      per-edge rotations as the direct gather. */
  function RegatheredRotations(rotDelta: seq<Mat3>, ii: seq<nat>): (rot: seq<Mat3>)
    requires InRange(ii, |rotDelta|)
    ensures rot == Gather(rotDelta, ii)
  {
    var unique := SortedUnique(ii);
    RegatherEqualsGather(rotDelta, ii);
    Gather(Gather(rotDelta, unique), InverseIndices(ii, unique))
  }

  /** `E_smooth(curr, prev, indices_i, indices_j, alpha)`: both snapshots
      cut to their aligned points, gated weights, direct gather of the
      rotation increments. */
  function ESmooth(exp: real -> real, build: Quat -> Mat3, curr: Snapshot, prev: Snapshot,
                   ii: seq<nat>, jj: seq<nat>, alpha: real): (r: Result<real>)
    requires ExpLaws(exp) && curr.Valid() && prev.Valid() && |ii| == |jj|
    ensures r.Failure? <==> !(InRange(ii, AlignedCount(curr, prev)) && InRange(jj, AlignedCount(curr, prev)))
    ensures r.Failure? ==> r.error == IndexOutOfRange
  {
    var n := AlignedCount(curr, prev);
    if !(InRange(ii, n) && InRange(jj, n)) then
      Failure(IndexOutOfRange)
    else
      var xc, xp := curr.xyz[..n], prev.xyz[..n];
      var rotDelta := RotationDeltas(build, curr.rotation[..n], prev.rotation[..n]);
      var posDiff := Diffs(Gather(xc, ii), Gather(xp, ii));
      var w := seq(|ii|, k requires 0 <= k < |ii| => GatedEdgeWeight(exp, alpha, posDiff[k]));
      var prevEdges := Diffs(Gather(xp, jj), Gather(xp, ii));
      var currEdges := Diffs(Gather(xc, jj), Gather(xc, ii));
      var res := RigidResiduals(Gather(rotDelta, ii), prevEdges, currEdges);
      Success(WeightedSum(w, res) / EdgeDivisor(|ii|))
  }

  /** `E_smooth_optimized(curr, prev, indices_i, indices_j, alpha)`: no
      truncation (the batched product of the two snapshots' rotations needs
      equal point counts), ungated weights, and the rotation increments
      gathered through the sorted distinct source indices and re-expanded
      through the inverse map. */
  function ESmoothOptimized(exp: real -> real, build: Quat -> Mat3, curr: Snapshot, prev: Snapshot,
                            ii: seq<nat>, jj: seq<nat>, alpha: real): (r: Result<real>)
    requires ExpLaws(exp) && curr.Valid() && prev.Valid() && |ii| == |jj|
    ensures r == Failure(ShapeMismatch) <==> curr.Count() != prev.Count()
    ensures r == Failure(IndexOutOfRange)
      <==> curr.Count() == prev.Count() && !(InRange(ii, curr.Count()) && InRange(jj, curr.Count()))
  {
    if curr.Count() != prev.Count() then
      Failure(ShapeMismatch)
    else if !(InRange(ii, curr.Count()) && InRange(jj, curr.Count())) then
      Failure(IndexOutOfRange)
    else
      var rotDelta := RotationDeltas(build, curr.rotation, prev.rotation);
      var posDiff := Diffs(Gather(curr.xyz, ii), Gather(prev.xyz, ii));
      var w := seq(|ii|, k requires 0 <= k < |ii| => PointWeight(exp, alpha, posDiff[k]));
      var prevEdges := Diffs(Gather(prev.xyz, jj), Gather(prev.xyz, ii));
      var currEdges := Diffs(Gather(curr.xyz, jj), Gather(curr.xyz, ii));
      var res := RigidResiduals(RegatheredRotations(rotDelta, ii), prevEdges, currEdges);
      Success(WeightedSum(w, res) / EdgeDivisor(|ii|))
  }

  /** The displacement of point `i` between the two frames. */
  function Displacement(curr: Snapshot, prev: Snapshot, i: nat): Vec3
    requires curr.Valid() && prev.Valid() && i < AlignedCount(curr, prev)
  {
    Sub(curr.xyz[i], prev.xyz[i])
  }

  /** The rigidity residual of edge (i, j), stated directly on the two
      snapshots: `|dR_i * (p_prev[j] - p_prev[i]) - (p_curr[j] - p_curr[i])|^2`
      with `dR_i = R(q_curr[i]) * R(q_prev[i])^T`. */
  function EdgeResidual(build: Quat -> Mat3, curr: Snapshot, prev: Snapshot, i: nat, j: nat): (r: real)
    requires curr.Valid() && prev.Valid() && i < AlignedCount(curr, prev) && j < AlignedCount(curr, prev)
    ensures r >= 0.0
  {
    var rotDelta := RotationDelta(build, curr.rotation[i], prev.rotation[i]);
    SqNorm(Sub(MatVec(rotDelta, Sub(prev.xyz[j], prev.xyz[i])), Sub(curr.xyz[j], curr.xyz[i])))
  }

  /** The weight of an edge rooted at a point displaced by `d`, with the
      gate switched on or off. */
  function EdgeWeight(exp: real -> real, alpha: real, d: Vec3, gated: bool): (w: real)
    requires ExpLaws(exp)
    ensures w >= 0.0
  {
    if gated then GatedEdgeWeight(exp, alpha, d) else PointWeight(exp, alpha, d)
  }

  /** Each edge's weight, from the displacement of its source point. */
  function ReferenceWeights(exp: real -> real, curr: Snapshot, prev: Snapshot, ii: seq<nat>, alpha: real, gated: bool): (w: seq<real>)
    requires ExpLaws(exp) && curr.Valid() && prev.Valid() && InRange(ii, AlignedCount(curr, prev))
    ensures |w| == |ii|
  {
    seq(|ii|, k requires 0 <= k < |ii| => EdgeWeight(exp, alpha, Displacement(curr, prev, ii[k]), gated))
  }

  /** Each edge's residual. */
  function ReferenceResiduals(build: Quat -> Mat3, curr: Snapshot, prev: Snapshot, ii: seq<nat>, jj: seq<nat>): (res: seq<real>)
    requires curr.Valid() && prev.Valid() && |ii| == |jj|
    requires InRange(ii, AlignedCount(curr, prev)) && InRange(jj, AlignedCount(curr, prev))
    ensures |res| == |ii|
  {
    seq(|ii|, k requires 0 <= k < |ii| => EdgeResidual(build, curr, prev, ii[k], jj[k]))
  }

  /** The reference form of both losses: the weighted residuals summed and
      divided by `max(count, 1)`. */
  function ReferenceLoss(exp: real -> real, build: Quat -> Mat3, curr: Snapshot, prev: Snapshot,
                         ii: seq<nat>, jj: seq<nat>, alpha: real, gated: bool): real
    requires ExpLaws(exp) && curr.Valid() && prev.Valid() && |ii| == |jj|
    requires InRange(ii, AlignedCount(curr, prev)) && InRange(jj, AlignedCount(curr, prev))
  {
    WeightedSum(ReferenceWeights(exp, curr, prev, ii, alpha, gated), ReferenceResiduals(build, curr, prev, ii, jj))
      / EdgeDivisor(|ii|)
  }

  /** `E_smooth` is the gated reference loss. */
  lemma ESmoothMatchesReference(exp: real -> real, build: Quat -> Mat3, curr: Snapshot, prev: Snapshot,
                                ii: seq<nat>, jj: seq<nat>, alpha: real)
    requires ExpLaws(exp) && curr.Valid() && prev.Valid() && |ii| == |jj|
    requires InRange(ii, AlignedCount(curr, prev)) && InRange(jj, AlignedCount(curr, prev))
    ensures ESmooth(exp, build, curr, prev, ii, jj, alpha) == Success(ReferenceLoss(exp, build, curr, prev, ii, jj, alpha, true))
  {
    var n := AlignedCount(curr, prev);
    var xc, xp := curr.xyz[..n], prev.xyz[..n];
    var rotDelta := RotationDeltas(build, curr.rotation[..n], prev.rotation[..n]);
    var posDiff := Diffs(Gather(xc, ii), Gather(xp, ii));
    var w := seq(|ii|, k requires 0 <= k < |ii| => GatedEdgeWeight(exp, alpha, posDiff[k]));
    var prevEdges := Diffs(Gather(xp, jj), Gather(xp, ii));
    var currEdges := Diffs(Gather(xc, jj), Gather(xc, ii));
    var res := RigidResiduals(Gather(rotDelta, ii), prevEdges, currEdges);
    assert w == ReferenceWeights(exp, curr, prev, ii, alpha, true);
    assert res == ReferenceResiduals(build, curr, prev, ii, jj);
  }

  /** `E_smooth_optimized` is the ungated reference loss: re-expanding the
      deduplicated gather changes no edge's rotation. */
  lemma ESmoothOptimizedMatchesReference(exp: real -> real, build: Quat -> Mat3, curr: Snapshot, prev: Snapshot,
                                         ii: seq<nat>, jj: seq<nat>, alpha: real)
    requires ExpLaws(exp) && curr.Valid() && prev.Valid() && |ii| == |jj|
    requires curr.Count() == prev.Count() && InRange(ii, curr.Count()) && InRange(jj, curr.Count())
    ensures ESmoothOptimized(exp, build, curr, prev, ii, jj, alpha) == Success(ReferenceLoss(exp, build, curr, prev, ii, jj, alpha, false))
  {
    var rotDelta := RotationDeltas(build, curr.rotation, prev.rotation);
    var posDiff := Diffs(Gather(curr.xyz, ii), Gather(prev.xyz, ii));
    var w := seq(|ii|, k requires 0 <= k < |ii| => PointWeight(exp, alpha, posDiff[k]));
    var prevEdges := Diffs(Gather(prev.xyz, jj), Gather(prev.xyz, ii));
    var currEdges := Diffs(Gather(curr.xyz, jj), Gather(curr.xyz, ii));
    var res := RigidResiduals(RegatheredRotations(rotDelta, ii), prevEdges, currEdges);
    assert w == ReferenceWeights(exp, curr, prev, ii, alpha, false);
    assert res == ReferenceResiduals(build, curr, prev, ii, jj);
  }

  /** An edge whose source point moved by more than the gate threshold
      contributes nothing to `E_smooth`, whatever its residual. */
  lemma GatedEdgeSilenced(exp: real -> real, build: Quat -> Mat3, curr: Snapshot, prev: Snapshot,
                          ii: seq<nat>, jj: seq<nat>, alpha: real, k: nat)
    requires ExpLaws(exp) && curr.Valid() && prev.Valid() && |ii| == |jj|
    requires InRange(ii, AlignedCount(curr, prev)) && InRange(jj, AlignedCount(curr, prev))
    requires k < |ii| && SqNorm(Displacement(curr, prev, ii[k])) > GateThreshold
    ensures ReferenceWeights(exp, curr, prev, ii, alpha, true)[k] == 0.0
    ensures ReferenceWeights(exp, curr, prev, ii, alpha, true)[k] * ReferenceResiduals(build, curr, prev, ii, jj)[k] == 0.0
  {
    var w := ReferenceWeights(exp, curr, prev, ii, alpha, true);
    assert w[k] == GatedEdgeWeight(exp, alpha, Displacement(curr, prev, ii[k]));
    ScaledZero(-ReferenceResiduals(build, curr, prev, ii, jj)[k], w[k]);
  }

  /** Without the gate no weight vanishes: an edge of `E_smooth_optimized`
      contributes nothing exactly when its residual is zero. */
  lemma UngatedEdgeVanishesIffRigid(exp: real -> real, build: Quat -> Mat3, curr: Snapshot, prev: Snapshot,
                                    ii: seq<nat>, jj: seq<nat>, alpha: real, k: nat)
    requires ExpLaws(exp) && curr.Valid() && prev.Valid() && |ii| == |jj|
    requires InRange(ii, AlignedCount(curr, prev)) && InRange(jj, AlignedCount(curr, prev)) && k < |ii|
    ensures ReferenceWeights(exp, curr, prev, ii, alpha, false)[k] > 0.0
    ensures ReferenceWeights(exp, curr, prev, ii, alpha, false)[k] * ReferenceResiduals(build, curr, prev, ii, jj)[k] == 0.0
            <==> ReferenceResiduals(build, curr, prev, ii, jj)[k] == 0.0
  {
    var w := ReferenceWeights(exp, curr, prev, ii, alpha, false)[k];
    var res := ReferenceResiduals(build, curr, prev, ii, jj)[k];
    assert w == PointWeight(exp, alpha, Displacement(curr, prev, ii[k]));
    if res == 0.0 {
      ScaledZero(-w, res);
    } else {
      ProductPositive(w, res);
    }
  }

  /** Within the gate the two weightings agree. */
  lemma WeightsAgreeWithinGate(exp: real -> real, curr: Snapshot, prev: Snapshot, ii: seq<nat>, alpha: real)
    requires ExpLaws(exp) && curr.Valid() && prev.Valid() && InRange(ii, AlignedCount(curr, prev))
    requires forall k :: 0 <= k < |ii| ==> SqNorm(Displacement(curr, prev, ii[k])) <= GateThreshold
    ensures ReferenceWeights(exp, curr, prev, ii, alpha, true) == ReferenceWeights(exp, curr, prev, ii, alpha, false)
  {
    var gated := ReferenceWeights(exp, curr, prev, ii, alpha, true);
    var plain := ReferenceWeights(exp, curr, prev, ii, alpha, false);
    forall k | 0 <= k < |ii|
      ensures gated[k] == plain[k]
    {
      assert gated[k] == GatedEdgeWeight(exp, alpha, Displacement(curr, prev, ii[k]));
    }
  }

  /** A snapshot compared with itself is perfectly rigid: every residual is
      zero, provided the builder returns rotations. */
  lemma ResidualsOfIdenticalSnapshots(build: Quat -> Mat3, s: Snapshot, ii: seq<nat>, jj: seq<nat>)
    requires IsRotationBuilder(build) && s.Valid() && |ii| == |jj|
    requires InRange(ii, AlignedCount(s, s)) && InRange(jj, AlignedCount(s, s))
    ensures forall k :: 0 <= k < |ii| ==> ReferenceResiduals(build, s, s, ii, jj)[k] == 0.0
  {
    var res := ReferenceResiduals(build, s, s, ii, jj);
    forall k | 0 <= k < |ii|
      ensures res[k] == 0.0
    {
      EdgeResidualOfIdentical(build, s, ii[k], jj[k]);
    }
  }

  lemma EdgeResidualOfIdentical(build: Quat -> Mat3, s: Snapshot, i: nat, j: nat)
    requires IsRotationBuilder(build) && s.Valid() && i < s.Count() && j < s.Count()
    ensures EdgeResidual(build, s, s, i, j) == 0.0
  {
    var e := Sub(s.xyz[j], s.xyz[i]);
    RotationDeltaUnchanged(build, s.rotation[i], e);
    assert Sub(e, e) == Zero;
    SqNormOfZero();
  }

  /** `E_smooth` is never negative. */
  lemma ESmoothNonNegative(exp: real -> real, build: Quat -> Mat3, curr: Snapshot, prev: Snapshot,
                           ii: seq<nat>, jj: seq<nat>, alpha: real)
    requires ExpLaws(exp) && curr.Valid() && prev.Valid() && |ii| == |jj|
    requires ESmooth(exp, build, curr, prev, ii, jj, alpha).Success?
    ensures ESmooth(exp, build, curr, prev, ii, jj, alpha).value >= 0.0
  {
    ESmoothMatchesReference(exp, build, curr, prev, ii, jj, alpha);
    ReferenceLossNonNegative(exp, build, curr, prev, ii, jj, alpha, true);
  }

  /** `E_smooth_optimized` is never negative. */
  lemma ESmoothOptimizedNonNegative(exp: real -> real, build: Quat -> Mat3, curr: Snapshot, prev: Snapshot,
                                    ii: seq<nat>, jj: seq<nat>, alpha: real)
    requires ExpLaws(exp) && curr.Valid() && prev.Valid() && |ii| == |jj|
    requires ESmoothOptimized(exp, build, curr, prev, ii, jj, alpha).Success?
    ensures ESmoothOptimized(exp, build, curr, prev, ii, jj, alpha).value >= 0.0
  {
    ESmoothOptimizedMatchesReference(exp, build, curr, prev, ii, jj, alpha);
    ReferenceLossNonNegative(exp, build, curr, prev, ii, jj, alpha, false);
  }

  lemma ReferenceLossNonNegative(exp: real -> real, build: Quat -> Mat3, curr: Snapshot, prev: Snapshot,
                                 ii: seq<nat>, jj: seq<nat>, alpha: real, gated: bool)
    requires ExpLaws(exp) && curr.Valid() && prev.Valid() && |ii| == |jj|
    requires InRange(ii, AlignedCount(curr, prev)) && InRange(jj, AlignedCount(curr, prev))
    ensures ReferenceLoss(exp, build, curr, prev, ii, jj, alpha, gated) >= 0.0
  {
    var w := ReferenceWeights(exp, curr, prev, ii, alpha, gated);
    var res := ReferenceResiduals(build, curr, prev, ii, jj);
    WeightedSumNonNegative(w, res);
    QuotientNonNegative(WeightedSum(w, res), EdgeDivisor(|ii|));
  }

  /** The reference loss of a snapshot against itself is zero. */
  lemma ReferenceLossOfIdentical(exp: real -> real, build: Quat -> Mat3, s: Snapshot,
                                 ii: seq<nat>, jj: seq<nat>, alpha: real, gated: bool)
    requires ExpLaws(exp) && IsRotationBuilder(build) && s.Valid() && |ii| == |jj|
    requires InRange(ii, AlignedCount(s, s)) && InRange(jj, AlignedCount(s, s))
    ensures ReferenceLoss(exp, build, s, s, ii, jj, alpha, gated) == 0.0
  {
    var w := ReferenceWeights(exp, s, s, ii, alpha, gated);
    var res := ReferenceResiduals(build, s, s, ii, jj);
    ResidualsOfIdenticalSnapshots(build, s, ii, jj);
    WeightedSumOfZeros(w, res);
    ZeroQuotient(EdgeDivisor(|ii|));
  }

  /** A frame that did not move has no rigidity loss. */
  lemma ESmoothIdentical(exp: real -> real, build: Quat -> Mat3, s: Snapshot, ii: seq<nat>, jj: seq<nat>, alpha: real)
    requires ExpLaws(exp) && IsRotationBuilder(build) && s.Valid() && |ii| == |jj|
    requires InRange(ii, s.Count()) && InRange(jj, s.Count())
    ensures ESmooth(exp, build, s, s, ii, jj, alpha) == Success(0.0)
  {
    ESmoothMatchesReference(exp, build, s, s, ii, jj, alpha);
    ReferenceLossOfIdentical(exp, build, s, ii, jj, alpha, true);
  }

  /** The same for the optimised form. */
  lemma ESmoothOptimizedIdentical(exp: real -> real, build: Quat -> Mat3, s: Snapshot, ii: seq<nat>, jj: seq<nat>, alpha: real)
    requires ExpLaws(exp) && IsRotationBuilder(build) && s.Valid() && |ii| == |jj|
    requires InRange(ii, s.Count()) && InRange(jj, s.Count())
    ensures ESmoothOptimized(exp, build, s, s, ii, jj, alpha) == Success(0.0)
  {
    ESmoothOptimizedMatchesReference(exp, build, s, s, ii, jj, alpha);
    ReferenceLossOfIdentical(exp, build, s, ii, jj, alpha, false);
  }

  /** An empty edge list gives zero, not a division by zero. */
  lemma NoEdgesNoLoss(exp: real -> real, build: Quat -> Mat3, curr: Snapshot, prev: Snapshot, alpha: real)
    requires ExpLaws(exp) && curr.Valid() && prev.Valid()
    ensures ESmooth(exp, build, curr, prev, [], [], alpha) == Success(0.0)
    ensures curr.Count() == prev.Count() ==> ESmoothOptimized(exp, build, curr, prev, [], [], alpha) == Success(0.0)
  {
    ESmoothMatchesReference(exp, build, curr, prev, [], [], alpha);
    if curr.Count() == prev.Count() {
      ESmoothOptimizedMatchesReference(exp, build, curr, prev, [], [], alpha);
    }
  }

  /** On snapshots of equal size whose edge sources all stay within the
      gate, the optimised form computes the same loss as `E_smooth`. */
  lemma ESmoothAgreesWithOptimized(exp: real -> real, build: Quat -> Mat3, curr: Snapshot, prev: Snapshot,
                                   ii: seq<nat>, jj: seq<nat>, alpha: real)
    requires ExpLaws(exp) && curr.Valid() && prev.Valid() && |ii| == |jj|
    requires curr.Count() == prev.Count() && InRange(ii, curr.Count()) && InRange(jj, curr.Count())
    requires forall k :: 0 <= k < |ii| ==> SqNorm(Sub(curr.xyz[ii[k]], prev.xyz[ii[k]])) <= GateThreshold
    ensures ESmooth(exp, build, curr, prev, ii, jj, alpha) == ESmoothOptimized(exp, build, curr, prev, ii, jj, alpha)
  {
    ESmoothMatchesReference(exp, build, curr, prev, ii, jj, alpha);
    ESmoothOptimizedMatchesReference(exp, build, curr, prev, ii, jj, alpha);
    WeightsAgreeWithinGate(exp, curr, prev, ii, alpha);
  }
}
