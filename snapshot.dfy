/** The per-timestep attribute snapshot and the alignment of two of them. */
module Snapshots {
  import opened Linalg

  /** One timestep's point attributes, keyed as the source's dictionaries
      are (`xyz`, `rotation`, `opacity`, `scaling`, `features_dc`,
      `features_rest`). Opacity is N x 1, so one real per point; the
      feature tensors (N x 1 x C and N x K x C) keep each point's
      coefficients flattened into one row. */
  datatype Snapshot = Snapshot(
    xyz: seq<Vec3>,
    rotation: seq<Quat>,
    opacity: seq<real>,
    scaling: seq<Vec3>,
    featuresDc: seq<seq<real>>,
    featuresRest: seq<seq<real>>)
  {
    function Count(): nat {
      |xyz|
    }

    /** The snapshot is a set of tensors with a common leading dimension,
        and each feature tensor's rows have one width. */
    predicate Valid() {
      && |rotation| == |xyz|
      && |opacity| == |xyz|
      && |scaling| == |xyz|
      && |featuresDc| == |xyz|
      && |featuresRest| == |xyz|
      && UniformWidth(featuresDc)
      && UniformWidth(featuresRest)
    }

    /** The first `n` points of every attribute (`t[:n]` on each tensor). */
    function Prefix(n: nat): (p: Snapshot)
      requires Valid() && n <= Count()
      ensures p.Valid() && p.Count() == n
      ensures forall i :: 0 <= i < n ==>
        && p.xyz[i] == xyz[i] && p.rotation[i] == rotation[i]
        && p.opacity[i] == opacity[i] && p.scaling[i] == scaling[i]
        && p.featuresDc[i] == featuresDc[i] && p.featuresRest[i] == featuresRest[i]
    {
      Snapshot(xyz[..n], rotation[..n], opacity[..n], scaling[..n], featuresDc[..n], featuresRest[..n])
    }
  }

  predicate UniformWidth(rows: seq<seq<real>>) {
    forall a, b :: 0 <= a < |rows| && 0 <= b < |rows| ==> |rows[a]| == |rows[b]|
  }

  /** `min(N_prev, N_curr)`: the number of points that take part when two
      snapshots of different sizes are compared position by position. */
  function AlignedCount(curr: Snapshot, prev: Snapshot): (n: nat)
    ensures n <= curr.Count() && n <= prev.Count()
    ensures n == curr.Count() || n == prev.Count()
  {
    if prev.Count() <= curr.Count() then prev.Count() else curr.Count()
  }
}
