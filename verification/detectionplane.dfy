/**
 The detection plane: a normal and a point on the plane, set up from the
 bounding box, together with the square surface element that shows the plane.
 The rotation that aligns the square with the plane is supplied as a matrix.
 */
module DetectionPlane {
  import opened Geometry
  import opened BoundingBox

  datatype Plane = Plane(normal: Vec3, point: Vec3)

  /** The normal every new detection plane starts with. */
  const InitialNormal: Vec3 := Vec3(1.0, 0.0, 0.0)

  /** The face normal of the square before it is rotated. */
  const ElementNormal: Vec3 := Vec3(0.0, 0.0, 1.0)

  /**
   The initial plane: normal along x, passing through the centroid of the
   bounding box corners, which is the centre of the shifted box.
   */
  function CreatePlane(d: Dims, s: Vec3): (p: Plane)
    ensures p.normal == Vec3(1.0, 0.0, 0.0)
    ensures p.point == Vec3(s.x * d.a as real / 2.0 - 0.5,
                            s.y * d.b as real / 2.0 - 0.5,
                            s.z * d.c as real / 2.0 - 0.5)
  {
    CornerCentroid(d, s);
    Plane(InitialNormal, Centroid(NodePositions(d, s)))
  }

  /** The largest of the three pixel sizes. */
  function MaxDim(d: Dims): (m: nat)
    ensures m >= d.a && m >= d.b && m >= d.c
    ensures m == d.a || m == d.b || m == d.c
  {
    if d.a >= d.b && d.a >= d.c then d.a else if d.b >= d.c then d.b else d.c
  }

  /**
   The unrotated square in the z = 0 plane, corners listed as
   (-h,-h), (h,-h), (-h,h), (h,h) with h half the largest pixel size.
   */
  function DefaultSquare(d: Dims): (r: seq<Vec3>)
    ensures |r| == 4
    ensures forall i :: 0 <= i < 4 ==> r[i].z == 0.0
    ensures Sub(r[1], r[0]) == Vec3(MaxDim(d) as real, 0.0, 0.0)
    ensures Sub(r[2], r[0]) == Vec3(0.0, MaxDim(d) as real, 0.0)
    ensures r[3] == Add(r[1], Sub(r[2], r[0]))
    ensures Centroid(r) == Origin
  {
    var h := MaxDim(d) as real / 2.0;
    var t := [Vec3(-h, -h, 0.0), Vec3(h, -h, 0.0), Vec3(-h, h, 0.0), Vec3(h, h, 0.0)];
    assert Sum(t[..1]) == Vec3(-h, -h, 0.0) by { assert t[..1][..0] == []; }
    assert Sum(t[..2]) == Vec3(0.0, -2.0 * h, 0.0) by { assert t[..2][..1] == t[..1]; }
    assert Sum(t[..3]) == Vec3(-h, -h, 0.0) by { assert t[..3][..2] == t[..2]; }
    assert Sum(t) == Origin by { assert t[..3] == t[..4][..3]; assert t[..4] == t; }
    t
  }

  /**
   The detection surface: every corner of the default square multiplied by the
   rotation `rot` and moved to the plane's point. Whatever the rotation, the
   surface stays centred on the plane's point.
   */
  function DetectionSurface(d: Dims, p: Plane, rot: Mat3): (r: seq<Vec3>)
    ensures |r| == 4
    ensures Centroid(r) == p.point
  {
    var sq := DefaultSquare(d);
    CentroidTransformAll(rot, sq, p.point);
    assert MatVec(rot, Origin) == Origin;
    TransformAll(rot, sq, p.point)
  }

  /** With the identity rotation the surface is the default square moved to the plane's point. */
  lemma IdentitySurface(d: Dims, p: Plane)
    ensures forall i :: 0 <= i < 4 ==>
      DetectionSurface(d, p, Mat3(Vec3(1.0, 0.0, 0.0), Vec3(0.0, 1.0, 0.0), Vec3(0.0, 0.0, 1.0)))[i]
        == Add(DefaultSquare(d)[i], p.point)
  {
  }

  /**
   When the rotation carries the square's face normal onto the plane normal in
   the sense that its transpose maps the plane normal back to (0, 0, 1), as any
   rotation taking (0, 0, 1) to the normal does, every surface corner lies in
   the detection plane.
   */
  lemma SurfaceInPlane(d: Dims, p: Plane, rot: Mat3)
    requires MatVec(Transpose(rot), p.normal) == ElementNormal
    ensures forall i :: 0 <= i < 4 ==> Dot(p.normal, Sub(DetectionSurface(d, p, rot)[i], p.point)) == 0.0
  {
    var sq := DefaultSquare(d);
    var r := DetectionSurface(d, p, rot);
    forall i | 0 <= i < 4
      ensures Dot(p.normal, Sub(r[i], p.point)) == 0.0
    {
      assert Sub(r[i], p.point) == MatVec(rot, sq[i]);
      DotTranspose(rot, p.normal, sq[i]);
    }
  }

  /** Flips the plane's normal; the point on the plane stays where it is. */
  function Reverse(p: Plane): (q: Plane)
    ensures q.normal.x == -p.normal.x && q.normal.y == -p.normal.y && q.normal.z == -p.normal.z
    ensures q.point == p.point
  {
    Plane(Neg(p.normal), p.point)
  }

  /** Flipping twice restores the original plane. */
  lemma ReverseInvolution(p: Plane)
    ensures Reverse(Reverse(p)) == p
  {
  }
}
