/**
 The state held by the auto-segmentation model and its transitions. The Zinc
 regions, fields and scenes are replaced by one immutable record: the pixel
 sizes, the scale, the bounding mesh nodes by identifier, the detection plane
 and its surface, the value image, the output point set and the histogram.
 */
module SegmentationModel {
  import opened Results
  import opened Geometry
  import opened BoundingBox
  import opened DetectionPlane
  import opened Grayscale
  import opened Histogram

  /** Visibility flags of the three graphics the point sampler can see. */
  datatype Visibility = Visibility(imagePlane: bool, segmentation: bool, pointCloud: bool)

  datatype Model = Model(
    dims: Dims,
    scale: Vec3,
    nodes: map<int, Vec3>,   // bounding mesh nodes, keyed by node identifier
    plane: Plane,
    surface: seq<Vec3>,      // detection surface corner positions
    image: Image,            // the value image the contours are drawn from
    points: seq<Vec3>,       // output point set
    histogram: seq<real>)

  /**
   Conversion of the currently visible graphics into points, supplied by the
   visualisation library: it sees the visibility flags, the model as it is at
   the moment of sampling, and the requested point density.
   */
  type Sampler = (Visibility, Model, real) -> seq<Vec3>

  const UnitScale: Vec3 := Vec3(1.0, 1.0, 1.0)

  const DefaultPointDensity: real := 100.0

  /** The identifiers the hexahedron's eight nodes are created with. */
  predicate IsNodeId(n: int) {
    1 <= n <= CornerCount
  }

  const NodeIds: set<int> := set n | 1 <= n <= CornerCount

  /** Node n holds corner n - 1 of the table for the current size and scale. */
  predicate NodesMatch(nodes: map<int, Vec3>, d: Dims, s: Vec3) {
    forall n :: n in nodes ==> IsNodeId(n) && nodes[n] == NodePositions(d, s)[n - 1]
  }

  /** The state invariant: all eight nodes are present and sit on the corner table. */
  predicate Valid(m: Model) {
    && m.nodes.Keys == NodeIds
    && NodesMatch(m.nodes, m.dims, m.scale)
  }

  /** The mesh nodes as the hexahedron is created: identifier n at corner n - 1. */
  function InitialNodes(d: Dims, s: Vec3): (r: map<int, Vec3>)
    ensures r.Keys == NodeIds
    ensures NodesMatch(r, d, s)
  {
    map n | n in NodeIds :: NodePositions(d, s)[n - 1]
  }

  /**
   Building the model from an image already read and its size in pixels: unit
   scale, the value image, the bounding mesh, the histogram, then the detection
   plane and its surface rotated by `rot`. The histogram's division fails, and
   with it the construction, when the second or third pixel size is zero.
   */
  function NewModel(source: Image, d: Dims, rot: Mat3): (r: Result<Model>)
    requires WellFormed(source)
    ensures r.Failure? <==> d.b == 0 || d.c == 0
    ensures r.Success? ==> Valid(r.value)
    ensures r.Success? ==> r.value.dims == d && r.value.scale == UnitScale
    ensures r.Success? ==> r.value.plane.normal == Vec3(1.0, 0.0, 0.0)
    ensures r.Success? ==> r.value.plane.point
                           == Vec3(d.a as real / 2.0 - 0.5, d.b as real / 2.0 - 0.5, d.c as real / 2.0 - 0.5)
    ensures r.Success? ==> |r.value.surface| == 4 && Centroid(r.value.surface) == r.value.plane.point
    ensures r.Success? ==> r.value.image == ValueImage(source)
    ensures r.Success? ==> r.value.points == []
    ensures r.Success? ==> |r.value.histogram| == BinCount
    ensures r.Success? ==> forall i :: 0 <= i < BinCount ==> r.value.histogram[i] == 0.0
  {
    var nodes := InitialNodes(d, UnitScale);
    match HistoData(d)
    case Failure(e) => Failure(e)
    case Success(bins) =>
      var plane := CreatePlane(d, UnitScale);
      Success(Model(d, UnitScale, nodes, plane, DetectionSurface(d, plane, rot),
                    ValueImage(source), [], bins))
  }

  /**
   Walks the mesh nodes in the iterator's order and assigns node n the entry
   n - 1 of the table, as the node iterator loop does. The order lists every
   node; whatever the order, each node ends at its own table entry.
   */
  method UpdateMeshNodes(nodes: map<int, Vec3>, order: seq<int>, table: seq<Vec3>)
    returns (r: map<int, Vec3>)
    requires forall n :: n in nodes ==> 1 <= n <= |table|
    requires forall k :: 0 <= k < |order| ==> order[k] in nodes
    requires forall n :: n in nodes ==> n in order
    ensures r.Keys == nodes.Keys
    ensures forall n :: n in r ==> r[n] == table[n - 1]
  {
    r := nodes;
    var i := 0;
    while i < |order|
      invariant 0 <= i <= |order|
      invariant r.Keys == nodes.Keys
      invariant forall k :: 0 <= k < i ==> r[order[k]] == table[order[k] - 1]
    {
      var n := order[i];
      r := r[n := table[n - 1]];
      i := i + 1;
    }
  }

  /**
   Stores a new scale and moves every mesh node to its corner for that scale.
   The pixel sizes, the node identifiers and everything else are left alone;
   in particular the detection plane is not moved. The node map is the one
   `UpdateMeshNodes` returns for the table `NodePositions(m.dims, s)`: both
   contracts fix the same keys and the same value at every key.
   */
  function SetScale(m: Model, s: Vec3): (r: Model)
    requires m.nodes.Keys <= NodeIds
    ensures GetScale(r) == s
    ensures r.dims == m.dims
    ensures r.nodes.Keys == m.nodes.Keys
    ensures NodesMatch(r.nodes, r.dims, s)
    ensures r.(scale := m.scale, nodes := m.nodes) == m
  {
    var table := NodePositions(m.dims, s);
    m.(scale := s, nodes := map n | n in m.nodes :: table[n - 1])
  }

  function GetScale(m: Model): Vec3 {
    m.scale
  }

  /** Rescaling keeps the state invariant. */
  lemma SetScaleValid(m: Model, s: Vec3)
    requires Valid(m)
    ensures Valid(SetScale(m, s))
  {
  }

  /** Setting a scale twice leaves the same nodes as setting it once. */
  lemma SetScaleIdempotent(m: Model, s: Vec3)
    requires m.nodes.Keys <= NodeIds
    ensures SetScale(SetScale(m, s), s) == SetScale(m, s)
  {
  }

  /** Only the last scale set matters. */
  lemma SetScaleLastWins(m: Model, s1: Vec3, s2: Vec3)
    requires m.nodes.Keys <= NodeIds
    ensures SetScale(SetScale(m, s1), s2) == SetScale(m, s2)
  {
  }

  /** In a valid model node n sits at the corner selected by the bits of n - 1. */
  lemma NodeCorner(m: Model, n: int)
    requires Valid(m) && IsNodeId(n)
    ensures m.nodes[n] == CornerByBits(m.dims, m.scale, n - 1)
  {
  }

  /** Flips the detection plane's normal; the surface element and all else stay. */
  function ReverseVisibilityFieldDirection(m: Model): (r: Model)
    ensures r.plane.normal == Neg(m.plane.normal)
    ensures r.plane.point == m.plane.point
    ensures r.(plane := m.plane) == m
  {
    m.(plane := Reverse(m.plane))
  }

  /** Flipping the direction twice gives back the model. */
  lemma ReverseTwice(m: Model)
    ensures ReverseVisibilityFieldDirection(ReverseVisibilityFieldDirection(m)) == m
  {
    ReverseInvolution(m.plane);
  }

  /**
   Empties the output point set, then fills it with what the sampler returns.
   The sampler therefore never sees earlier output points, and nothing other
   than the point set changes.
   */
  function GeneratePoints(m: Model, vis: Visibility, density: real, sample: Sampler): (r: Model)
    ensures r.points == sample(vis, m.(points := []), density)
    ensures r.(points := m.points) == m
  {
    var cleared := m.(points := []);
    cleared.(points := sample(vis, cleared, density))
  }

  /** After two generations only the second one's points remain. */
  lemma GenerateTwice(m: Model, v1: Visibility, d1: real, f1: Sampler,
                      v2: Visibility, d2: real, f2: Sampler)
    ensures GeneratePoints(GeneratePoints(m, v1, d1, f1), v2, d2, f2) == GeneratePoints(m, v2, d2, f2)
  {
    var once := GeneratePoints(m, v1, d1, f1);
    assert once.(points := []) == m.(points := []);
  }

  function GetHistogramData(m: Model): seq<real> {
    m.histogram
  }

  /** The requests the model serves after it is built. */
  datatype Request =
    | Rescale(s: Vec3)
    | Flip
    | Generate(vis: Visibility, density: real, sample: Sampler)

  function Apply(m: Model, q: Request): Model
    requires Valid(m)
  {
    match q
    case Rescale(s) => SetScale(m, s)
    case Flip => ReverseVisibilityFieldDirection(m)
    case Generate(vis, density, sample) => GeneratePoints(m, vis, density, sample)
  }

  /**
   Serving a sequence of requests in order; each step keeps the invariant, so
   every later step can be taken.
   */
  function Run(m: Model, qs: seq<Request>): (r: Model)
    requires Valid(m)
    ensures Valid(r)
    ensures r.dims == m.dims
    ensures GetHistogramData(r) == GetHistogramData(m)
    ensures r.image == m.image
    decreases |qs|
  {
    if |qs| == 0 then m
    else
      var next := Apply(m, qs[0]);
      assert Valid(next) by {
        if qs[0].Rescale? { SetScaleValid(m, qs[0].s); }
      }
      Run(next, qs[1..])
  }

  /**
   The histogram is computed once at construction: whatever requests follow,
   reading it back gives the 100 zero bins built then.
   */
  lemma HistogramFixed(source: Image, d: Dims, rot: Mat3, qs: seq<Request>)
    requires WellFormed(source)
    requires d.b != 0 && d.c != 0
    ensures NewModel(source, d, rot).Success?
    ensures |GetHistogramData(Run(NewModel(source, d, rot).value, qs))| == BinCount
    ensures forall i :: 0 <= i < BinCount ==>
      GetHistogramData(Run(NewModel(source, d, rot).value, qs))[i] == 0.0
  {
  }
}
