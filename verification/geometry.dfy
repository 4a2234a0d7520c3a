/**
 Three-component vectors and 3x3 matrices over the reals, with the small set
 of vector operations the segmentation model uses: addition, negation,
 scaling, matrix-vector product, and the centroid of a point sequence.
 */
module Geometry {

  /** A point or direction in 3D. */
  datatype Vec3 = Vec3(x: real, y: real, z: real)

  /** A 3x3 matrix given by its rows. */
  datatype Mat3 = Mat3(r0: Vec3, r1: Vec3, r2: Vec3)

  const Origin: Vec3 := Vec3(0.0, 0.0, 0.0)

  function Add(u: Vec3, v: Vec3): Vec3 {
    Vec3(u.x + v.x, u.y + v.y, u.z + v.z)
  }

  function Sub(u: Vec3, v: Vec3): Vec3 {
    Vec3(u.x - v.x, u.y - v.y, u.z - v.z)
  }

  /** Component-wise negation, as the plane-normal flip does it. */
  function Neg(v: Vec3): Vec3 {
    Vec3(-v.x, -v.y, -v.z)
  }

  function ScaleBy(k: real, v: Vec3): Vec3 {
    Vec3(k * v.x, k * v.y, k * v.z)
  }

  function Dot(u: Vec3, v: Vec3): real {
    u.x * v.x + u.y * v.y + u.z * v.z
  }

  function MatVec(m: Mat3, v: Vec3): Vec3 {
    Vec3(Dot(m.r0, v), Dot(m.r1, v), Dot(m.r2, v))
  }

  function Transpose(m: Mat3): Mat3 {
    Mat3(Vec3(m.r0.x, m.r1.x, m.r2.x), Vec3(m.r0.y, m.r1.y, m.r2.y), Vec3(m.r0.z, m.r1.z, m.r2.z))
  }

  /** Moving a matrix across a dot product transposes it. */
  lemma DotTranspose(m: Mat3, u: Vec3, v: Vec3)
    ensures Dot(u, MatVec(m, v)) == Dot(MatVec(Transpose(m), u), v)
  {
    assert Dot(u, MatVec(m, v))
        == u.x * (m.r0.x * v.x) + u.x * (m.r0.y * v.y) + u.x * (m.r0.z * v.z)
         + u.y * (m.r1.x * v.x) + u.y * (m.r1.y * v.y) + u.y * (m.r1.z * v.z)
         + u.z * (m.r2.x * v.x) + u.z * (m.r2.y * v.y) + u.z * (m.r2.z * v.z);
  }

  /** Sum of a sequence of points, folded from the left. */
  function Sum(ps: seq<Vec3>): Vec3
    decreases |ps|
  {
    if |ps| == 0 then Origin else Add(Sum(ps[..|ps| - 1]), ps[|ps| - 1])
  }

  /** Arithmetic mean of a non-empty sequence of points. */
  function Centroid(ps: seq<Vec3>): Vec3
    requires |ps| > 0
  {
    ScaleBy(1.0 / |ps| as real, Sum(ps))
  }

  /** Every point shifted by `offset` after being multiplied by `m`. */
  function TransformAll(m: Mat3, ps: seq<Vec3>, offset: Vec3): (r: seq<Vec3>)
    ensures |r| == |ps|
    ensures forall i :: 0 <= i < |ps| ==> r[i] == Add(MatVec(m, ps[i]), offset)
  {
    seq(|ps|, i requires 0 <= i < |ps| => Add(MatVec(m, ps[i]), offset))
  }

  lemma MatVecAdd(m: Mat3, u: Vec3, v: Vec3)
    ensures MatVec(m, Add(u, v)) == Add(MatVec(m, u), MatVec(m, v))
  {
    assert Dot(m.r0, Add(u, v)) == Dot(m.r0, u) + Dot(m.r0, v);
    assert Dot(m.r1, Add(u, v)) == Dot(m.r1, u) + Dot(m.r1, v);
    assert Dot(m.r2, Add(u, v)) == Dot(m.r2, u) + Dot(m.r2, v);
  }

  lemma MatVecScale(m: Mat3, k: real, v: Vec3)
    ensures MatVec(m, ScaleBy(k, v)) == ScaleBy(k, MatVec(m, v))
  {
    assert Dot(m.r0, ScaleBy(k, v)) == k * Dot(m.r0, v);
    assert Dot(m.r1, ScaleBy(k, v)) == k * Dot(m.r1, v);
    assert Dot(m.r2, ScaleBy(k, v)) == k * Dot(m.r2, v);
  }

  /** Summing a transformed sequence is transforming the sum, plus one offset per point. */
  lemma {:induction false} SumTransformAll(m: Mat3, ps: seq<Vec3>, offset: Vec3)
    ensures Sum(TransformAll(m, ps, offset))
         == Add(MatVec(m, Sum(ps)), ScaleBy(|ps| as real, offset))
    decreases |ps|
  {
    if |ps| == 0 {
      assert MatVec(m, Origin) == Origin;
    } else {
      var n := |ps| - 1;
      var t := TransformAll(m, ps, offset);
      assert t[..n] == TransformAll(m, ps[..n], offset);
      var s := Sum(ps[..n]);
      SumTransformAll(m, ps[..n], offset);
      assert Sum(t) == Add(Add(MatVec(m, s), ScaleBy(n as real, offset)), Add(MatVec(m, ps[n]), offset));
      MatVecAdd(m, s, ps[n]);
      ScaleSucc(n as real, offset);
    }
  }

  lemma ScaleSucc(k: real, v: Vec3)
    ensures ScaleBy(k + 1.0, v) == Add(ScaleBy(k, v), v)
  {
  }

  lemma ScaleAdd(k: real, u: Vec3, v: Vec3)
    ensures ScaleBy(k, Add(u, v)) == Add(ScaleBy(k, u), ScaleBy(k, v))
  {
  }

  lemma ScaleInverse(k: real, v: Vec3)
    requires k != 0.0
    ensures ScaleBy(1.0 / k, ScaleBy(k, v)) == v
  {
    assert (1.0 / k) * (k * v.x) == v.x;
    assert (1.0 / k) * (k * v.y) == v.y;
    assert (1.0 / k) * (k * v.z) == v.z;
  }

  /** The centroid of the transformed points is the transformed centroid. */
  lemma CentroidTransformAll(m: Mat3, ps: seq<Vec3>, offset: Vec3)
    requires |ps| > 0
    ensures Centroid(TransformAll(m, ps, offset)) == Add(MatVec(m, Centroid(ps)), offset)
  {
    var n := |ps| as real;
    var s := Sum(ps);
    SumTransformAll(m, ps, offset);
    ScaleAdd(1.0 / n, MatVec(m, s), ScaleBy(n, offset));
    MatVecScale(m, 1.0 / n, s);
    ScaleInverse(n, offset);
  }
}
