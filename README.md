# Temporal-consistency and local-rigidity losses of a 4D Gaussian model

This project models the regularisation losses in `utils/loss_4d_utils.py`.
A dynamic scene is a sequence of frames. Each frame is a snapshot of a
Gaussian point cloud: positions, orientation quaternions, opacities,
scalings, low-order colour features (`features_dc`) and high-order colour
features (`features_rest`). Three losses compare a frame with the frame
before it:

- `E_temp` is the motion-weighted mean squared change of opacity, scaling
  and both feature tensors. Each point's weight is
  `exp(-alpha * |p_curr - p_prev|^2)`, so points that moved count less. Only
  the first `min(N_prev, N_curr)` points take part.
- `E_smooth` works on a neighbour graph given by the edge lists `indices_i`
  and `indices_j`. For each edge (i, j), it turns the previous-frame edge
  vector by point i's rotation increment `R(q_curr[i]) R(q_prev[i])^T`. It
  compares the result with the current-frame edge vector. The squared
  mismatches are weighted and divided by `max(#edges, 1)`. An edge whose
  source point moved by more than `0.002` (squared) gets weight 0.
- `E_smooth_optimized` is the same loss with three differences: it does not
  truncate to the aligned points, it does not gate the weight, and it
  gathers the rotation increments once per distinct source index
  (`torch.unique` with its inverse map) and re-expands them to one per edge.

Modules:

| file | module | content |
|---|---|---|
| `linalg.dfy` | `Linalg` | vectors, quaternions, 3x3 matrices; the rotation builder as a parameter |
| `seqs.dfy` | `Seqs` | gather by index, sums, weighted sums |
| `unique_index.dfy` | `UniqueIndex` | sorted distinct values and the inverse map, as `torch.unique(..., return_inverse=True)` returns them |
| `snapshot.dfy` | `Snapshots` | the per-frame point attributes and the aligned count |
| `weights.dfy` | `AdaptiveWeights` | the motion weight and its gated form |
| `temporal_loss.dfy` | `TemporalLoss` | `E_temp` |
| `rigid_loss.dfy` | `RigidLoss` | `E_smooth`, `E_smooth_optimized`, and a per-edge reference definition both are proved equal to |
| `arith.dfy` | `RealArith` | small facts about real products and quotients |

Two functions from outside the file are passed in as parameters:

- `exp: real -> real` stands for `torch.exp`. Its laws (`ExpLaws`) are
  assumed: `exp(0) = 1`, it is positive, and it is strictly increasing.
  `AdaptiveWeights.ExpLawsSatisfiable` shows a function that has these laws.
- `build: Quat -> Mat3` stands for `build_rotation`. `utils/general_utils.py`
  is not part of this model. Most lemmas take it as an arbitrary function.
  The lemmas about unchanged frames assume `IsRotationBuilder`, which says
  every matrix it returns is orthonormal.
  `Linalg.ConstantIdentityIsRotationBuilder` shows such a builder exists.

Failures are modelled as values:

- `E_smooth` fails with `IndexOutOfRange` when an edge index is not below the
  aligned count.
- `E_smooth_optimized` fails with `ShapeMismatch` when the two frames hold
  different numbers of points, because the batched product of their rotations
  (line 106) needs equal batch sizes. Otherwise it fails with
  `IndexOutOfRange` when an edge index is not below that count.
- In `E_temp`, a mean over zero elements is NaN (`Scalar.NaN`). This happens
  with no aligned point, or with a feature tensor of width 0.

Two behaviours of the code differ from what a reader of the losses might
expect. The model follows the code in both:

- An empty range does not give 0 in `E_temp`. The code's `mean()` of an
  empty tensor is NaN, so `E_temp` is NaN there.
  `TemporalLoss.ETempDefined` states exactly when the result is a number.
- `E_smooth_optimized` does not have the aligned-prefix behaviour of the
  other two losses. It does not truncate, so frames of different sizes make
  it fail.

## Model

| member | source | states |
|---|---|---|
| TemporalLoss.ChosenLambdas | utils/loss_4d_utils.py:15-16 | with no multipliers given, opacity 1.0, scaling 0.1 and features 0.1; otherwise the caller's |
| Snapshots.AlignedCount | utils/loss_4d_utils.py:19 | the aligned count is at most both frames' point counts and equals one of them (their minimum) |
| Snapshots.Snapshot.Prefix | utils/loss_4d_utils.py:21-28 | cutting a frame to its first n points keeps it well formed, with n points, each unchanged |
| AdaptiveWeights.PointWeight | utils/loss_4d_utils.py:21-22 | the motion weight is strictly positive, and at most 1 for a non-negative alpha |
| AdaptiveWeights.PointWeightAtRest | utils/loss_4d_utils.py:21-22 | a point that did not move has weight exactly 1 |
| AdaptiveWeights.PointWeightDecreasing | utils/loss_4d_utils.py:21-22 | for alpha > 0, a larger displacement gives a strictly smaller weight |
| TemporalLoss.PointWeights | utils/loss_4d_utils.py:19-22 | one weight per aligned point, every one positive |
| TemporalLoss.PointWeightsAtRest | utils/loss_4d_utils.py:21-22 | an aligned point whose position is unchanged gets weight 1 |
| TemporalLoss.Mean | utils/loss_4d_utils.py:30-33 | a mean is a number exactly when there is an element to average over, and NaN otherwise |
| TemporalLoss.MeanNonNegative | utils/loss_4d_utils.py:30-33 | the mean of a non-negative total over some elements is non-negative |
| TemporalLoss.MeanOfZero | utils/loss_4d_utils.py:30-33 | a zero total over some elements has mean 0 |
| TemporalLoss.SquaredDiff | utils/loss_4d_utils.py:25 | a squared change is never negative |
| TemporalLoss.SquaredDiffSame | utils/loss_4d_utils.py:25 | an unchanged value has squared change 0 |
| TemporalLoss.RowSquaredDiff | utils/loss_4d_utils.py:27-28 | the summed squared change of a feature row is never negative |
| TemporalLoss.RowSquaredDiffSame | utils/loss_4d_utils.py:27-28 | an unchanged feature row has summed squared change 0 |
| TemporalLoss.ElementCountPositive | utils/loss_4d_utils.py:27-33 | a feature tensor of uniform width has an element exactly when it has a row and the width is not 0 |
| TemporalLoss.OpacityChange | utils/loss_4d_utils.py:25 | one non-negative opacity change per aligned point |
| TemporalLoss.ScalingChange | utils/loss_4d_utils.py:26 | one non-negative scaling change per aligned point |
| TemporalLoss.FeatureChange | utils/loss_4d_utils.py:27-28 | one non-negative feature change per aligned point |
| TemporalLoss.Combine | utils/loss_4d_utils.py:30-33 | the lambda-weighted total is a number exactly when all four means are |
| TemporalLoss.CombineOfZeros | utils/loss_4d_utils.py:30-33 | four zero means give a zero total whatever the multipliers |
| TemporalLoss.CombineFeatureSymmetric | utils/loss_4d_utils.py:32-33 | the two feature means share one multiplier, so exchanging them leaves the total unchanged |
| TemporalLoss.ETempDefined | utils/loss_4d_utils.py:4-34 | E_temp is a number exactly when there is an aligned point and both feature tensors have non-zero width |
| TemporalLoss.ETempNonNegative | utils/loss_4d_utils.py:4-34 | with non-negative multipliers (the defaults are), a defined E_temp is never negative |
| TemporalLoss.ChangesZeroWhenAttributesAgree | utils/loss_4d_utils.py:25-28 | when no attribute changed, every per-point change of all four attributes is 0 |
| TemporalLoss.DriftZeroWhenAttributesAgree | utils/loss_4d_utils.py:21-33 | when no attribute changed, each of the four weighted means is 0 |
| TemporalLoss.ETempZeroWhenAttributesAgree | utils/loss_4d_utils.py:4-34 | when opacity, scaling and features did not change, a defined E_temp is 0, however far the points moved |
| TemporalLoss.ETempIdentical | utils/loss_4d_utils.py:4-34 | a frame compared with itself has E_temp 0 |
| TemporalLoss.ETempReadsAlignedPrefix | utils/loss_4d_utils.py:19-28 | only the first min(N_prev, N_curr) points are read: cutting both frames to them leaves E_temp unchanged, and a size difference is never an error |
| TemporalLoss.SwapFeatures | utils/loss_4d_utils.py:27-28 | exchanging the two feature tensors keeps a frame well formed |
| TemporalLoss.ETempFeatureTermsInterchangeable | utils/loss_4d_utils.py:27-33 | exchanging features_dc and features_rest in both frames leaves E_temp unchanged |
| Linalg.SqNorm | utils/loss_4d_utils.py:22 | a squared norm is never negative |
| Linalg.RotationDeltaUnchanged | utils/loss_4d_utils.py:46 | for a rotation builder, an unchanged orientation has rotation increment the identity, which moves no vector |
| AdaptiveWeights.GatedEdgeWeight | utils/loss_4d_utils.py:67-72 | the gated weight is 0 exactly when the squared displacement exceeds 0.002; otherwise it is the motion weight |
| UniqueIndex.Insert | utils/loss_4d_utils.py:121 | inserting into a strictly increasing sequence keeps it strictly increasing and adds exactly the new value |
| UniqueIndex.SortedUnique | utils/loss_4d_utils.py:121 | the distinct indices come out strictly increasing and hold exactly the values of the input |
| UniqueIndex.IndexOf | utils/loss_4d_utils.py:121 | the position of a value among the distinct indices holds that value |
| UniqueIndex.InverseIndices | utils/loss_4d_utils.py:121 | the inverse map has one entry per edge, each in range, and each points back at that edge's index |
| UniqueIndex.UniqueInverse | utils/loss_4d_utils.py:121 | the distinct indices are sorted and complete, and the inverse map sends each edge to the one position holding its index |
| UniqueIndex.UniqueInRange | utils/loss_4d_utils.py:121-122 | indices in range stay in range after de-duplication |
| UniqueIndex.RegatherEqualsGather | utils/loss_4d_utils.py:121-125 | gathering by the distinct indices and then by the inverse map equals gathering by the original indices |
| RigidLoss.EdgeDivisor | utils/loss_4d_utils.py:91 | the divisor is at least 1 and at least the edge count |
| RigidLoss.RegatheredRotations | utils/loss_4d_utils.py:121-125 | the re-expanded rotation increments are exactly the per-edge increments of the direct gather |
| RigidLoss.ESmooth | utils/loss_4d_utils.py:36-91 | fails exactly when an edge index is not below the aligned count, and then with IndexOutOfRange |
| RigidLoss.ESmoothOptimized | utils/loss_4d_utils.py:93-141 | fails with ShapeMismatch exactly when the point counts differ, and with IndexOutOfRange exactly when they agree and an edge index is out of range |
| RigidLoss.EdgeResidual | utils/loss_4d_utils.py:74-87 | an edge's rigidity residual is never negative |
| RigidLoss.EdgeWeight | utils/loss_4d_utils.py:67-72 | an edge weight, gated or not, is never negative |
| RigidLoss.ESmoothMatchesReference | utils/loss_4d_utils.py:36-91 | on valid edges E_smooth is the gated per-edge weights times the per-edge residuals, summed and divided by max(#edges, 1) |
| RigidLoss.ESmoothOptimizedMatchesReference | utils/loss_4d_utils.py:93-141 | on valid edges of equally sized frames, E_smooth_optimized is the same reference sum with ungated weights |
| RigidLoss.GatedEdgeSilenced | utils/loss_4d_utils.py:67-72 | an edge whose source moved by more than 0.002 (squared) has weight 0 and contributes 0, whatever its residual |
| RigidLoss.UngatedEdgeVanishesIffRigid | utils/loss_4d_utils.py:112-138 | without the gate every weight is positive, so an edge contributes 0 exactly when its residual is 0 |
| RigidLoss.WeightsAgreeWithinGate | utils/loss_4d_utils.py:67-72 | when no edge source moved beyond the gate, the gated and ungated weights coincide |
| RigidLoss.EdgeResidualOfIdentical | utils/loss_4d_utils.py:74-87 | for a rotation builder, an edge of a frame compared with itself has residual 0 |
| RigidLoss.ResidualsOfIdenticalSnapshots | utils/loss_4d_utils.py:74-87 | for a rotation builder, every residual of a frame compared with itself is 0 |
| RigidLoss.ReferenceLossNonNegative | utils/loss_4d_utils.py:84-91 | the reference loss is never negative, gated or not |
| RigidLoss.ReferenceLossOfIdentical | utils/loss_4d_utils.py:84-91 | the reference loss of a frame compared with itself is 0 |
| RigidLoss.ESmoothNonNegative | utils/loss_4d_utils.py:36-91 | a successful E_smooth is never negative |
| RigidLoss.ESmoothOptimizedNonNegative | utils/loss_4d_utils.py:93-141 | a successful E_smooth_optimized is never negative |
| RigidLoss.ESmoothIdentical | utils/loss_4d_utils.py:36-91 | a frame compared with itself has E_smooth exactly 0 |
| RigidLoss.ESmoothOptimizedIdentical | utils/loss_4d_utils.py:93-141 | a frame compared with itself has E_smooth_optimized exactly 0 |
| RigidLoss.NoEdgesNoLoss | utils/loss_4d_utils.py:84-91 | an empty edge list gives 0 for E_smooth, and for E_smooth_optimized on equally sized frames, not a division by zero |
| RigidLoss.ESmoothAgreesWithOptimized | utils/loss_4d_utils.py:93-141 | on equally sized frames with no edge source beyond the gate, the two forms give the same result |

## Left out

- Floating point: all quantities are exact reals. Rounding, overflow and
  infinities are not modelled. NaN is modelled only where the code produces
  it from an empty mean.
- Gradients: `.detach()` on the positions (line 21) only affects
  differentiation. The model has no autograd, so the stop-gradient is not
  represented.
- `torch.exp` and `build_rotation`: passed in as parameters with the laws
  stated above. `build_rotation` lives in `utils/general_utils.py`, which is
  not part of this model.
- Negative edge indices: the indices are `nat`, so PyTorch's wrap-around of
  negative indices is not modelled.
- Broadcasting corner cases are excluded by `requires`:
  - `indices_i` and `indices_j` have equal lengths. With other lengths the
    code does one of two things, and neither is modelled:
    - If `indices_j` has length 1 and `indices_i` is longer, the edge
      differences (lines 76-77 and 116-117) broadcast. The loss is then
      computed with every edge ending at `indices_j[0]`.
    - If `indices_i` has length 1 and `indices_j` is longer, the batched
      product (line 80, and line 128 in the optimised form) gets batch
      sizes 1 and m, and the call fails. Unequal lengths longer than 1 fail
      already in the edge differences.
  - In `E_temp`, the two frames' feature rows have equal widths
    (`FeatureShapesAgree`).
- The default `alpha = 10.0` (lines 4, 36 and 93) is not modelled as a
  default. `alpha` is always passed explicitly to `ETemp`, `ESmooth` and
  `ESmoothOptimized`. Every lemma holds for every `alpha`, 10.0 included;
  the lemmas that bound or order the weights ask only `alpha >= 0` or
  `alpha > 0`, which 10.0 meets.
- Tensor layout: opacity is a column of N values, and scaling is N rows of
  three values. Feature tensors are flattened to one row per point, because
  the means only count the elements.
- Dictionary lookups: a missing key (`KeyError`) is not modelled. The
  `features` key named in `E_temp`'s docstring is not read. The code reads
  `features_dc` and `features_rest`, and so does the model.
- Commented-out diagnostics (lines 50-64 and 90) are not modelled.
- TemporalLoss.ETemp and TemporalLoss.AttributeDrift: they have no
  contracts of their own. Their meaning is stated by the lemmas about them
  listed above.
