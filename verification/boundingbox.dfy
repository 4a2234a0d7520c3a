/**
 The bounding hexahedron of the image volume. Its eight corner positions are a
 function of the volume size in pixels and the per-axis scale, shifted by half
 a pixel so that pixel centres fall on integer coordinates.
 */
module BoundingBox {
  import opened Geometry

  /** Volume size in pixels along the three axes, fixed when the image is read. */
  datatype Dims = Dims(a: nat, b: nat, c: nat)

  /** The half-pixel shift applied to every coordinate. */
  const Shift: real := 0.5

  const CornerCount: nat := 8

  /** Bit `k` (0, 1 or 2) of a corner index. */
  function Bit(i: nat, k: nat): (r: nat)
    requires k < 3
    ensures r == 0 || r == 1
  {
    if k == 0 then i % 2 else if k == 1 then (i / 2) % 2 else (i / 4) % 2
  }

  /**
   Reference definition of corner `i`: each axis is at its low end (-0.5) or its
   high end (scale * size - 0.5) according to one bit of the index.
   */
  function CornerByBits(d: Dims, s: Vec3, i: nat): Vec3
    requires i < CornerCount
  {
    Vec3(Bit(i, 0) as real * s.x * d.a as real - Shift,
         Bit(i, 1) as real * s.y * d.b as real - Shift,
         Bit(i, 2) as real * s.z * d.c as real - Shift)
  }

  /**
   The corner table in the order the hexahedron's nodes are created: x varies
   fastest, then y, then z. Corner 0 does not depend on the scale, and the far
   corner lies one scaled volume extent beyond it.
   */
  function NodePositions(d: Dims, s: Vec3): (r: seq<Vec3>)
    ensures |r| == CornerCount
    ensures forall i :: 0 <= i < CornerCount ==> r[i] == CornerByBits(d, s, i)
    ensures r[0] == Vec3(-0.5, -0.5, -0.5)
    ensures Sub(r[7], r[0]) == Vec3(s.x * d.a as real, s.y * d.b as real, s.z * d.c as real)
  {
    var hx := s.x * d.a as real - Shift;
    var hy := s.y * d.b as real - Shift;
    var hz := s.z * d.c as real - Shift;
    var lo := -Shift;
    var t := [ Vec3(lo, lo, lo), Vec3(hx, lo, lo), Vec3(lo, hy, lo), Vec3(hx, hy, lo),
               Vec3(lo, lo, hz), Vec3(hx, lo, hz), Vec3(lo, hy, hz), Vec3(hx, hy, hz) ];
    assert t[0] == CornerByBits(d, s, 0);
    assert t[1] == CornerByBits(d, s, 1);
    assert t[2] == CornerByBits(d, s, 2);
    assert t[3] == CornerByBits(d, s, 3);
    assert t[4] == CornerByBits(d, s, 4);
    assert t[5] == CornerByBits(d, s, 5);
    assert t[6] == CornerByBits(d, s, 6);
    assert t[7] == CornerByBits(d, s, 7);
    t
  }

  /** Along each axis every corner sits at one of the box's two ends. */
  lemma AxisAligned(d: Dims, s: Vec3)
    ensures forall i :: 0 <= i < CornerCount ==>
      var p := NodePositions(d, s)[i];
      && (p.x == -Shift || p.x == s.x * d.a as real - Shift)
      && (p.y == -Shift || p.y == s.y * d.b as real - Shift)
      && (p.z == -Shift || p.z == s.z * d.c as real - Shift)
  {
    var t := NodePositions(d, s);
    forall i | 0 <= i < CornerCount
      ensures && (t[i].x == -Shift || t[i].x == s.x * d.a as real - Shift)
              && (t[i].y == -Shift || t[i].y == s.y * d.b as real - Shift)
              && (t[i].z == -Shift || t[i].z == s.z * d.c as real - Shift)
    {
      assert t[i] == CornerByBits(d, s, i);
      BitScaled(Bit(i, 0), s.x * d.a as real);
      BitScaled(Bit(i, 1), s.y * d.b as real);
      BitScaled(Bit(i, 2), s.z * d.c as real);
    }
  }

  /** Corners whose indices share a bit share the coordinate on that bit's axis. */
  lemma SharedBitsShareCoordinate(d: Dims, s: Vec3)
    ensures forall i, j :: 0 <= i < CornerCount && 0 <= j < CornerCount ==>
      && (Bit(i, 0) == Bit(j, 0) ==> NodePositions(d, s)[i].x == NodePositions(d, s)[j].x)
      && (Bit(i, 1) == Bit(j, 1) ==> NodePositions(d, s)[i].y == NodePositions(d, s)[j].y)
      && (Bit(i, 2) == Bit(j, 2) ==> NodePositions(d, s)[i].z == NodePositions(d, s)[j].z)
  {
    var t := NodePositions(d, s);
    forall i, j | 0 <= i < CornerCount && 0 <= j < CornerCount
      ensures && (Bit(i, 0) == Bit(j, 0) ==> t[i].x == t[j].x)
              && (Bit(i, 1) == Bit(j, 1) ==> t[i].y == t[j].y)
              && (Bit(i, 2) == Bit(j, 2) ==> t[i].z == t[j].z)
    {
      assert t[i] == CornerByBits(d, s, i);
      assert t[j] == CornerByBits(d, s, j);
    }
  }

  lemma BitScaled(b: nat, e: real)
    requires b == 0 || b == 1
    ensures b as real * e == 0.0 || b as real * e == e
  {
  }

  /** The centroid of the eight corners is the centre of the shifted box. */
  lemma CornerCentroid(d: Dims, s: Vec3)
    ensures Centroid(NodePositions(d, s))
         == Vec3(s.x * d.a as real / 2.0 - Shift,
                 s.y * d.b as real / 2.0 - Shift,
                 s.z * d.c as real / 2.0 - Shift)
  {
    var t := NodePositions(d, s);
    var hx := s.x * d.a as real - Shift;
    var hy := s.y * d.b as real - Shift;
    var hz := s.z * d.c as real - Shift;
    var lo := -Shift;
    assert Sum(t[..1]) == Vec3(lo, lo, lo) by { assert t[..1][..0] == []; }
    assert Sum(t[..2]) == Vec3(lo + hx, 2.0 * lo, 2.0 * lo) by { assert t[..2][..1] == t[..1]; }
    assert Sum(t[..3]) == Vec3(2.0 * lo + hx, 2.0 * lo + hy, 3.0 * lo) by { assert t[..3][..2] == t[..2]; }
    assert Sum(t[..4]) == Vec3(2.0 * lo + 2.0 * hx, 2.0 * lo + 2.0 * hy, 4.0 * lo) by { assert t[..4][..3] == t[..3]; }
    assert Sum(t[..5]) == Vec3(3.0 * lo + 2.0 * hx, 3.0 * lo + 2.0 * hy, 4.0 * lo + hz) by { assert t[..5][..4] == t[..4]; }
    assert Sum(t[..6]) == Vec3(3.0 * lo + 3.0 * hx, 4.0 * lo + 2.0 * hy, 4.0 * lo + 2.0 * hz) by { assert t[..6][..5] == t[..5]; }
    assert Sum(t[..7]) == Vec3(4.0 * lo + 3.0 * hx, 4.0 * lo + 3.0 * hy, 4.0 * lo + 3.0 * hz) by { assert t[..7][..6] == t[..6]; }
    assert Sum(t) == Vec3(4.0 * lo + 4.0 * hx, 4.0 * lo + 4.0 * hy, 4.0 * lo + 4.0 * hz) by { assert t[..7] == t[..8][..7]; assert t[..8] == t; }
  }

  /** A 100 x 80 x 60 volume at unit scale spans (-0.5, -0.5, -0.5) to (99.5, 79.5, 59.5). */
  lemma UnitScaleExample()
    ensures NodePositions(Dims(100, 80, 60), Vec3(1.0, 1.0, 1.0))[0] == Vec3(-0.5, -0.5, -0.5)
    ensures NodePositions(Dims(100, 80, 60), Vec3(1.0, 1.0, 1.0))[7] == Vec3(99.5, 79.5, 59.5)
  {
  }
}
