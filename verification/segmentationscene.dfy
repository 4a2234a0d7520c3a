/**
 The scene parameters the user interface drives: the visibility of the image
 plane, the segmentation contour and the point cloud, the isovalue lists of the
 two contour graphics, and the point glyph size. Point generation hides the
 image plane while the model samples the visible graphics.
 */
module SegmentationScene {
  import opened Geometry
  import opened BoundingBox
  import opened SegmentationModel

  datatype Scene = Scene(
    dims: Dims,
    visible: Visibility,
    isoValues: seq<real>,           // image plane contour isovalues
    segmentationValues: seq<real>,  // segmentation contour isovalues
    glyphSize: real)                // point cloud glyph base size

  /** Largest value of the image plane slider. */
  const IsoSliderMax: int := 99

  /** Largest value of the segmentation threshold slider. */
  const SegmentationSliderMax: int := 10000

  /** The smallest of the three pixel sizes. */
  function MinDim(d: Dims): (m: nat)
    ensures m <= d.a && m <= d.b && m <= d.c
    ensures m == d.a || m == d.b || m == d.c
  {
    if d.a <= d.b && d.a <= d.c then d.a else if d.b <= d.c then d.b else d.c
  }

  /** Glyph size: one hundredth of the smallest pixel size. */
  function PointGlyphSize(d: Dims): (g: real)
    ensures g >= 0.0
    ensures 100.0 * g <= d.a as real && 100.0 * g <= d.b as real && 100.0 * g <= d.c as real
    ensures 100.0 * g == d.a as real || 100.0 * g == d.b as real || 100.0 * g == d.c as real
  {
    MinDim(d) as real / 100.0
  }

  /** Every contour graphic carries exactly one isovalue. */
  predicate SingleIsovalues(sc: Scene) {
    |sc.isoValues| == 1 && |sc.segmentationValues| == 1
  }

  /**
   The scene as the graphics are created for a model with pixel sizes `d`: all
   visible, both isovalue lists holding the single value 0.
   */
  function NewScene(d: Dims): (sc: Scene)
    ensures SingleIsovalues(sc)
    ensures sc.isoValues == [0.0] && sc.segmentationValues == [0.0]
    ensures sc.visible == Visibility(true, true, true)
    ensures 100.0 * sc.glyphSize == MinDim(d) as real
    ensures sc.dims == d
  {
    Scene(d, Visibility(true, true, true), [0.0], [0.0], PointGlyphSize(d))
  }

  /** A check-box state shows its graphic exactly when it is nonzero. */
  function SetImagePlaneVisibility(sc: Scene, state: int): (r: Scene)
    ensures r.visible.imagePlane <==> state != 0
    ensures r.visible.segmentation == sc.visible.segmentation && r.visible.pointCloud == sc.visible.pointCloud
    ensures r.(visible := sc.visible) == sc
  {
    sc.(visible := sc.visible.(imagePlane := state != 0))
  }

  function SetSegmentationVisibility(sc: Scene, state: int): (r: Scene)
    ensures r.visible.segmentation <==> state != 0
    ensures r.visible.imagePlane == sc.visible.imagePlane && r.visible.pointCloud == sc.visible.pointCloud
    ensures r.(visible := sc.visible) == sc
  {
    sc.(visible := sc.visible.(segmentation := state != 0))
  }

  function SetPointCloudVisibility(sc: Scene, state: int): (r: Scene)
    ensures r.visible.pointCloud <==> state != 0
    ensures r.visible.imagePlane == sc.visible.imagePlane && r.visible.segmentation == sc.visible.segmentation
    ensures r.(visible := sc.visible) == sc
  {
    sc.(visible := sc.visible.(pointCloud := state != 0))
  }

  /**
   The image plane slider: the plane's isovalue becomes the slider value as a
   percentage of the third pixel size, so over the slider's range 0..99 it lies
   in [0, 0.99 * dims[2]]. The mapping uses neither the scale nor the half-pixel
   shift of the bounding box (see `SliderPastTopFace`).
   */
  function SetSliderValue(sc: Scene, v: int): (r: Scene)
    ensures |r.isoValues| == 1
    ensures 100.0 * r.isoValues[0] == (v * sc.dims.c) as real
    ensures 0 <= v <= IsoSliderMax ==> 0.0 <= r.isoValues[0] <= 0.99 * sc.dims.c as real
    ensures r.(isoValues := sc.isoValues) == sc
  {
    sc.(isoValues := [(v * sc.dims.c) as real / 100.0])
  }

  /**
   The segmentation slider: the contour threshold is the slider value in units
   of 1/10000, so the slider's range 0..10000 covers [0, 1].
   */
  function SetSegmentationValue(sc: Scene, v: int): (r: Scene)
    ensures |r.segmentationValues| == 1
    ensures 10000.0 * r.segmentationValues[0] == v as real
    ensures 0 <= v <= SegmentationSliderMax ==> 0.0 <= r.segmentationValues[0] <= 1.0
    ensures r.(segmentationValues := sc.segmentationValues) == sc
  {
    sc.(segmentationValues := [v as real / 10000.0])
  }

  /**
   The isovalue is a z coordinate of the bounding box, which spans -0.5 to
   sz * c - 0.5. With c = 10 the top slider value gives 9.9 whatever the scale:
   above the top face at 9.5 at unit scale, and far below the top face at 19.5
   when the z scale is 2.
   */
  lemma SliderPastTopFace(sc: Scene)
    requires sc.dims.c == 10
    ensures SetSliderValue(sc, IsoSliderMax).isoValues[0] == 9.9
    ensures NodePositions(sc.dims, Vec3(1.0, 1.0, 1.0))[7].z == 9.5
    ensures NodePositions(sc.dims, Vec3(1.0, 1.0, 2.0))[7].z == 19.5
  {
  }

  /** A higher slider value never lowers the image plane's isovalue. */
  lemma SliderMonotone(sc: Scene, v: int, w: int)
    requires v <= w
    ensures SetSliderValue(sc, v).isoValues[0] <= SetSliderValue(sc, w).isoValues[0]
  {
    assert v * sc.dims.c <= w * sc.dims.c by {
      MulMonotone(v, w, sc.dims.c);
    }
  }

  lemma MulMonotone(v: int, w: int, c: nat)
    requires v <= w
    ensures v * c <= w * c
  {
  }

  /** A higher slider value never lowers the segmentation threshold. */
  lemma SegmentationMonotone(sc: Scene, v: int, w: int)
    requires v <= w
    ensures SetSegmentationValue(sc, v).segmentationValues[0]
         <= SetSegmentationValue(sc, w).segmentationValues[0]
  {
  }

  /**
   Point generation: hide the image plane, let the model sample, show the image
   plane. The sampler sees the image plane hidden and no earlier points, at the
   default density; afterwards the image plane is visible whatever it was before.
   */
  function GeneratePoints(sc: Scene, m: Model, sample: Sampler): (r: (Scene, Model))
    requires sc.dims == m.dims
    ensures r.0.visible.imagePlane
    ensures r.0.(visible := sc.visible) == sc
    ensures r.0.visible.segmentation == sc.visible.segmentation
    ensures r.0.visible.pointCloud == sc.visible.pointCloud
    ensures r.1.points == sample(Visibility(false, sc.visible.segmentation, sc.visible.pointCloud),
                                 m.(points := []), DefaultPointDensity)
    ensures r.1.(points := m.points) == m
  {
    var hidden := SetImagePlaneVisibility(sc, 0);
    var m' := SegmentationModel.GeneratePoints(m, hidden.visible, DefaultPointDensity, sample);
    (SetImagePlaneVisibility(hidden, 1), m')
  }

  /** The user-interface events that reach the scene. */
  datatype Event =
    | ImagePlaneVisibility(state: int)
    | SegmentationVisibility(state: int)
    | PointCloudVisibility(state: int)
    | Slider(v: int)
    | Segmentation(v: int)

  function Handle(sc: Scene, e: Event): Scene {
    match e
    case ImagePlaneVisibility(state) => SetImagePlaneVisibility(sc, state)
    case SegmentationVisibility(state) => SetSegmentationVisibility(sc, state)
    case PointCloudVisibility(state) => SetPointCloudVisibility(sc, state)
    case Slider(v) => SetSliderValue(sc, v)
    case Segmentation(v) => SetSegmentationValue(sc, v)
  }

  function HandleAll(sc: Scene, es: seq<Event>): Scene
    decreases |es|
  {
    if |es| == 0 then sc else HandleAll(Handle(sc, es[0]), es[1..])
  }

  /**
   Both isovalue lists hold exactly one value from the moment the graphics are
   created, whatever events follow.
   */
  lemma {:induction false} AlwaysSingleIsovalue(sc: Scene, es: seq<Event>)
    requires SingleIsovalues(sc)
    ensures SingleIsovalues(HandleAll(sc, es))
    decreases |es|
  {
    if |es| > 0 {
      AlwaysSingleIsovalue(Handle(sc, es[0]), es[1..]);
    }
  }

  /** In particular a freshly created scene keeps single isovalues. */
  lemma NewSceneSingleIsovalue(d: Dims, es: seq<Event>)
    ensures SingleIsovalues(HandleAll(NewScene(d), es))
  {
    AlwaysSingleIsovalue(NewScene(d), es);
  }

  /** Only the last image plane visibility setting counts. */
  lemma VisibilityLastWins(sc: Scene, s1: int, s2: int)
    ensures SetImagePlaneVisibility(SetImagePlaneVisibility(sc, s1), s2) == SetImagePlaneVisibility(sc, s2)
  {
  }
}
