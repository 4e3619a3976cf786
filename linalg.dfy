/** Three-vectors, orientation quaternions and 3x3 matrices over the reals,
    with the handful of operations the rigidity losses apply to them
    (difference, squared norm, matrix-vector and matrix-matrix product,
    transpose). The external rotation builder is a parameter of type
    `Quat -> Mat3`; `IsRotationBuilder` is what the losses assume of it. */
module Linalg {
  import opened RealArith

  datatype Vec3 = Vec3(x: real, y: real, z: real)

  /** A per-point orientation quaternion, as stored; not necessarily normalised. */
  datatype Quat = Quat(r: real, i: real, j: real, k: real)

  /** A 3x3 matrix given by its three rows. */
  datatype Mat3 = Mat3(row0: Vec3, row1: Vec3, row2: Vec3)

  const Zero: Vec3 := Vec3(0.0, 0.0, 0.0)

  const Identity: Mat3 := Mat3(Vec3(1.0, 0.0, 0.0), Vec3(0.0, 1.0, 0.0), Vec3(0.0, 0.0, 1.0))

  function Sub(a: Vec3, b: Vec3): Vec3 {
    Vec3(a.x - b.x, a.y - b.y, a.z - b.z)
  }

  function Dot(a: Vec3, b: Vec3): real {
    a.x * b.x + a.y * b.y + a.z * b.z
  }

  /** The sum of the squared components: never negative. */
  function SqNorm(v: Vec3): (r: real)
    ensures r >= 0.0
  {
    SquareNonNegative(v.x);
    SquareNonNegative(v.y);
    SquareNonNegative(v.z);
    Dot(v, v)
  }

  lemma SqNormOfZero()
    ensures SqNorm(Zero) == 0.0
  {
  }

  function Transpose(m: Mat3): Mat3 {
    Mat3(Vec3(m.row0.x, m.row1.x, m.row2.x),
         Vec3(m.row0.y, m.row1.y, m.row2.y),
         Vec3(m.row0.z, m.row1.z, m.row2.z))
  }

  function MatVec(m: Mat3, v: Vec3): Vec3 {
    Vec3(Dot(m.row0, v), Dot(m.row1, v), Dot(m.row2, v))
  }

  /** Entry (r, c) of the product is row r of `a` against column c of `b`,
      that is row c of `b`'s transpose. */
  function MatMul(a: Mat3, b: Mat3): Mat3 {
    var bt := Transpose(b);
    Mat3(Vec3(Dot(a.row0, bt.row0), Dot(a.row0, bt.row1), Dot(a.row0, bt.row2)),
         Vec3(Dot(a.row1, bt.row0), Dot(a.row1, bt.row1), Dot(a.row1, bt.row2)),
         Vec3(Dot(a.row2, bt.row0), Dot(a.row2, bt.row1), Dot(a.row2, bt.row2)))
  }

  /** The identity leaves every vector where it is. */
  lemma MatVecIdentity(v: Vec3)
    ensures MatVec(Identity, v) == v
  {
  }

  /** A matrix whose rows are orthonormal: M times its transpose is the identity. */
  predicate Orthonormal(m: Mat3) {
    MatMul(m, Transpose(m)) == Identity
  }

  lemma IdentityOrthonormal()
    ensures Orthonormal(Identity)
  {
    var t := Transpose(Identity);
    assert t == Identity;
  }

  /** What the losses assume of the external quaternion-to-matrix builder:
      every matrix it returns is orthonormal. */
  ghost predicate IsRotationBuilder(build: Quat -> Mat3) {
    forall q :: Orthonormal(build(q))
  }

  /** The assumption can be met: the builder that returns the identity for
      every quaternion satisfies it. */
  lemma ConstantIdentityIsRotationBuilder()
    ensures IsRotationBuilder(q => Identity)
  {
    IdentityOrthonormal();
  }

  /** The rotation increment of one point, R(q_curr) * R(q_prev)^T. */
  function RotationDelta(build: Quat -> Mat3, qCurr: Quat, qPrev: Quat): Mat3 {
    MatMul(build(qCurr), Transpose(build(qPrev)))
  }

  /** A point whose orientation did not change has rotated by nothing, so
      its increment maps every vector to itself. */
  lemma RotationDeltaUnchanged(build: Quat -> Mat3, q: Quat, v: Vec3)
    requires IsRotationBuilder(build)
    ensures RotationDelta(build, q, q) == Identity
    ensures MatVec(RotationDelta(build, q, q), v) == v
  {
    assert Orthonormal(build(q));
    MatVecIdentity(v);
  }
}
