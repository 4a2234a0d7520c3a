# Auto-segmentation step: geometry and state model

A Dafny model of the geometric and state core of the auto-segmentation
workflow step. The step reads a 3D image and encloses it in one hexahedral
element, the bounding mesh. It reduces a colour image to a grey value image,
places a detection plane with a square surface element through the middle of
the volume, and keeps an intensity histogram. It then turns the visible
graphics into an output point cloud. A scene layer maps user-interface sliders
and check boxes onto contour isovalues and visibility flags.

The Zinc context, regions, fields and graphics are replaced by two immutable
records. `SegmentationModel.Model` holds the pixel sizes, scale, mesh nodes by
identifier, plane, surface, value image, output points and histogram.
`SegmentationScene.Scene` holds the visibility flags, isovalue lists and glyph
size. Every operation is a pure transition on these records. All arithmetic is
over `real`.

Modules:

- `Geometry`: vectors, 3x3 matrices, sums and the centroid of point sequences.
- `BoundingBox`: the pixel sizes and the eight-corner table.
- `DetectionPlane`: the initial plane, the detection square, and the normal flip.
- `Grayscale`: the luminance reduction of three-component images.
- `Histogram`: the histogram as the code computes it.
- `Results`: the success-or-error type for the one division that can raise.
- `SegmentationModel`: the model state and its transitions.
- `SegmentationScene`: the scene parameters and point generation with the image plane hidden.

Notes on behaviour:

- The histogram's sampling loop is disabled in the code, so every bin is `0 / total`.
  The bins therefore sum to 0, not to 1 as a normalised histogram would (`Histogram.HistogramMassZero`).
- The divisor is kept as written: `dim[1] * dim[1] * dim[2]`, with the second pixel size squared.
  Its only observable effect is that model construction fails with a division by zero
  exactly when the second or third pixel size is zero.
- The image plane slider maps value v to the z isovalue v·dims[2]/100. This ignores both the scale set by `set_scale`
  and the half-pixel shift, so at unit scale the top slider value can pass the box's top face, and at larger z scales
  it stops well short of it (`SegmentationScene.SliderPastTopFace`).
- `set_scale` moves the mesh nodes only. The detection plane and its surface keep the
  positions computed for unit scale at construction; `SegmentationModel.SetScale` states this frame.

## Model

| member | source | states |
|---|---|---|
| `BoundingBox.NodePositions` | mapclientplugins/autosegmentationstep/model/autosegmentationmodel.py:165-171 | eight corners. Corner i is (bit0(i)·sx·a − 0.5, bit1(i)·sy·b − 0.5, bit2(i)·sz·c − 0.5). Corner 0 is (−0.5, −0.5, −0.5) for every scale. Corner 7 minus corner 0 is (sx·a, sy·b, sz·c) |
| `BoundingBox.AxisAligned` | mapclientplugins/autosegmentationstep/model/autosegmentationmodel.py:165-171 | each coordinate of each corner is one of only two values, −0.5 or s·dim − 0.5 |
| `BoundingBox.SharedBitsShareCoordinate` | mapclientplugins/autosegmentationstep/model/autosegmentationmodel.py:165-171 | corners whose indices share a bit share the coordinate on that axis, so the corners form an axis-aligned box |
| `BoundingBox.CornerCentroid` | mapclientplugins/autosegmentationstep/model/autosegmentationmodel.py:238-239 | the mean of the eight corners is (sx·a/2 − 0.5, sy·b/2 − 0.5, sz·c/2 − 0.5) |
| `BoundingBox.UnitScaleExample` | mapclientplugins/autosegmentationstep/model/autosegmentationmodel.py:165-171 | a 100×80×60 volume at unit scale spans (−0.5, −0.5, −0.5) to (99.5, 79.5, 59.5) |
| `DetectionPlane.CreatePlane` | mapclientplugins/autosegmentationstep/model/autosegmentationmodel.py:237-244 | the initial plane has normal (1, 0, 0) and passes through the box centre (sx·a/2 − 0.5, sy·b/2 − 0.5, sz·c/2 − 0.5) |
| `DetectionPlane.MaxDim` | mapclientplugins/autosegmentationstep/model/autosegmentationmodel.py:246 | the result is one of the three pixel sizes and at least each of them |
| `DetectionPlane.DefaultSquare` | mapclientplugins/autosegmentationstep/model/autosegmentationmodel.py:246-250 | four corners in z = 0. Corners 0→1 and 0→2 are edges of length m = max(dims) along x and y. Corner 3 completes the square. The centroid is the origin |
| `DetectionPlane.DetectionSurface` | mapclientplugins/autosegmentationstep/model/autosegmentationmodel.py:253-255 | for any rotation matrix, the rotated and translated square is centred on the plane's point |
| `DetectionPlane.SurfaceInPlane` | mapclientplugins/autosegmentationstep/model/autosegmentationmodel.py:250-255 | if the rotation's transpose maps the plane normal to (0, 0, 1), every surface corner lies in the detection plane |
| `DetectionPlane.IdentitySurface` | mapclientplugins/autosegmentationstep/model/autosegmentationmodel.py:255 | with the identity rotation each surface corner is the square corner plus the plane's point |
| `DetectionPlane.Reverse` | mapclientplugins/autosegmentationstep/model/autosegmentationmodel.py:278-281 | each normal component becomes its negation; the point on the plane is unchanged |
| `DetectionPlane.ReverseInvolution` | mapclientplugins/autosegmentationstep/model/autosegmentationmodel.py:278-281 | reversing twice restores the plane |
| `Geometry.CentroidTransformAll` | mapclientplugins/autosegmentationstep/model/autosegmentationmodel.py:255 | the centroid of points transformed by a matrix and an offset is the transformed centroid |
| `Geometry.SumTransformAll` | mapclientplugins/autosegmentationstep/model/autosegmentationmodel.py:255 | the sum of transformed points is the transformed sum plus one offset per point |
| `Grayscale.WeightsConvex` | mapclientplugins/autosegmentationstep/model/autosegmentationmodel.py:206-210 | the luminance weights 0.299, 0.587, 0.114 are non-negative and sum to 1 |
| `Grayscale.LuminanceBetween` | mapclientplugins/autosegmentationstep/model/autosegmentationmodel.py:206-210 | luminance lies within any interval that contains all three components |
| `Grayscale.LuminanceMonotone` | mapclientplugins/autosegmentationstep/model/autosegmentationmodel.py:206-210 | raising any component never lowers the luminance |
| `Grayscale.ValueImage` | mapclientplugins/autosegmentationstep/model/autosegmentationmodel.py:199-214 | a three-component image becomes one component per sample, 0.299·c1 + 0.587·c2 + 0.114·c3, in sample order. Any other component count passes through unchanged. Values in [0, 1] stay in [0, 1] |
| `Grayscale.GreyPreserved` | mapclientplugins/autosegmentationstep/model/autosegmentationmodel.py:206-212 | a grey sample (c, c, c) maps to c |
| `Histogram.Normalise` | mapclientplugins/autosegmentationstep/model/autosegmentationmodel.py:311 | each bin times the divisor gives back its count |
| `Histogram.NormaliseMass` | mapclientplugins/autosegmentationstep/model/autosegmentationmodel.py:311 | the normalised bins sum to the total count divided by the divisor |
| `Histogram.EmptyCounts` | mapclientplugins/autosegmentationstep/model/autosegmentationmodel.py:297-299 | 100 bin counts with total 0 |
| `Histogram.HistoData` | mapclientplugins/autosegmentationstep/model/autosegmentationmodel.py:289-312 | fails with a division by zero exactly when dim[1] or dim[2] is zero. Otherwise returns exactly 100 bins, every one 0 |
| `Histogram.HistogramMassZero` | mapclientplugins/autosegmentationstep/model/autosegmentationmodel.py:297-312 | the bins sum to 0, not 1 |
| `SegmentationModel.InitialNodes` | mapclientplugins/autosegmentationstep/model/autosegmentationmodel.py:154-157 | the mesh has nodes with identifiers 1..8, and node n is at corner n − 1 |
| `SegmentationModel.NewModel` | mapclientplugins/autosegmentationstep/model/autosegmentationmodel.py:21-50 | construction fails exactly when dim[1] or dim[2] is zero. Otherwise: the invariant holds and the scale is unit. The plane has normal (1,0,0) through the box centre, and the surface is centred on it. The value image is derived from the source, the point set is empty, and there are 100 zero bins |
| `SegmentationModel.UpdateMeshNodes` | mapclientplugins/autosegmentationstep/model/autosegmentationmodel.py:173-184 | visiting the nodes in iterator order, every node n ends at table entry n − 1, and the set of nodes is unchanged |
| `SegmentationModel.SetScale` | mapclientplugins/autosegmentationstep/model/autosegmentationmodel.py:102-107 | `GetScale` returns the new scale. The pixel sizes and node identifiers are unchanged, and node n holds corner n − 1 for the new scale. No other field changes |
| `SegmentationModel.SetScaleValid` | mapclientplugins/autosegmentationstep/model/autosegmentationmodel.py:102-104 | rescaling keeps the state invariant |
| `SegmentationModel.SetScaleIdempotent` | mapclientplugins/autosegmentationstep/model/autosegmentationmodel.py:102-104 | setting a scale twice gives the same state as setting it once |
| `SegmentationModel.SetScaleLastWins` | mapclientplugins/autosegmentationstep/model/autosegmentationmodel.py:102-104 | after two rescales only the second scale matters |
| `SegmentationModel.NodeCorner` | mapclientplugins/autosegmentationstep/model/autosegmentationmodel.py:181-183 | in a valid model node n sits at the corner chosen by the bits of n − 1 |
| `SegmentationModel.ReverseVisibilityFieldDirection` | mapclientplugins/autosegmentationstep/model/autosegmentationmodel.py:278-281 | the plane normal is negated; the point on the plane and every other field are unchanged |
| `SegmentationModel.ReverseTwice` | mapclientplugins/autosegmentationstep/model/autosegmentationmodel.py:278-281 | reversing the direction twice gives back the model |
| `SegmentationModel.GeneratePoints` | mapclientplugins/autosegmentationstep/model/autosegmentationmodel.py:317-320 | the sampler is given the model with its point set already emptied. Its output becomes the point set, and nothing else changes |
| `SegmentationModel.GenerateTwice` | mapclientplugins/autosegmentationstep/model/autosegmentationmodel.py:317-320 | after two generations the state is what the second generation alone produces |
| `SegmentationModel.Run` | mapclientplugins/autosegmentationstep/model/autosegmentationmodel.py:102-104 | any sequence of rescales, flips and generations keeps the invariant, the pixel sizes, the value image and the histogram |
| `SegmentationModel.HistogramFixed` | mapclientplugins/autosegmentationstep/model/autosegmentationmodel.py:314-315 | after construction and any later requests, the histogram read back is the 100 zero bins computed at construction |
| `SegmentationScene.MinDim` | mapclientplugins/autosegmentationstep/scene/autosegmentationscene.py:89 | the result is one of the three pixel sizes and at most each of them |
| `SegmentationScene.PointGlyphSize` | mapclientplugins/autosegmentationstep/scene/autosegmentationscene.py:89 | 100 times the glyph size is the smallest pixel size |
| `SegmentationScene.NewScene` | mapclientplugins/autosegmentationstep/scene/autosegmentationscene.py:20-24 | the scene keeps the model's pixel sizes, both isovalue lists are [0.0], all graphics are visible, and the glyph size is min(dims)/100 |
| `SegmentationScene.SetImagePlaneVisibility` | mapclientplugins/autosegmentationstep/scene/autosegmentationscene.py:94-95 | the image plane is visible iff the state is nonzero; nothing else changes |
| `SegmentationScene.SetSegmentationVisibility` | mapclientplugins/autosegmentationstep/scene/autosegmentationscene.py:97-98 | the segmentation contour is visible iff the state is nonzero; nothing else changes |
| `SegmentationScene.SetPointCloudVisibility` | mapclientplugins/autosegmentationstep/scene/autosegmentationscene.py:100-101 | the point cloud is visible iff the state is nonzero; nothing else changes |
| `SegmentationScene.VisibilityLastWins` | mapclientplugins/autosegmentationstep/scene/autosegmentationscene.py:94-95 | only the last image plane visibility setting counts |
| `SegmentationScene.SetSliderValue` | mapclientplugins/autosegmentationstep/scene/autosegmentationscene.py:103-104 | the isovalue list is a single value v with 100·v = slider·dims[2]. For slider values 0..99 it lies in [0, 0.99·dims[2]] |
| `SegmentationScene.SliderPastTopFace` | mapclientplugins/autosegmentationstep/scene/autosegmentationscene.py:103-104 | with dims[2] = 10, slider 99 gives 9.9 at any scale: above the top face 9.5 at unit scale, and far below the top face 19.5 at z scale 2 |
| `SegmentationScene.SliderMonotone` | mapclientplugins/autosegmentationstep/scene/autosegmentationscene.py:103-104 | a higher slider value never lowers the image plane isovalue |
| `SegmentationScene.SetSegmentationValue` | mapclientplugins/autosegmentationstep/scene/autosegmentationscene.py:106-107 | the threshold list is a single value t with 10000·t = slider. For slider values 0..10000 it lies in [0, 1] |
| `SegmentationScene.SegmentationMonotone` | mapclientplugins/autosegmentationstep/scene/autosegmentationscene.py:106-107 | a higher slider value never lowers the threshold |
| `SegmentationScene.GeneratePoints` | mapclientplugins/autosegmentationstep/scene/autosegmentationscene.py:109-112 | for a scene built from the model's pixel sizes, the sampler is called with the image plane hidden, the other flags unchanged, no earlier points and density 100. Afterwards the image plane is visible whatever it was before, and nothing else in the scene changes |
| `SegmentationScene.AlwaysSingleIsovalue` | mapclientplugins/autosegmentationstep/scene/autosegmentationscene.py:94-107 | any sequence of visibility and slider events keeps both isovalue lists at exactly one value |
| `SegmentationScene.NewSceneSingleIsovalue` | mapclientplugins/autosegmentationstep/scene/autosegmentationscene.py:56 | a new scene followed by any events has single-value isovalue lists |

## Left out

- Image loading (`_initialise_image_field`) is file I/O. The model takes the image as read: its component count and samples.
- `calculate_centroid`, `angle`, `cross`, `axis_angle_to_rotation_matrix` and `matrix_vector_mult` come from `cmlibs.maths`, which is not part of this model.
  - The centroid is modelled as the arithmetic mean and is defined only for a non-empty sequence. The model only applies it to the eight corners and the four square corners.
  - The rotation that aligns the square with the plane, including the parallel and anti-parallel normal cases, is a matrix parameter.
- `create_cube_element` is not part of this model. It is assumed to create the eight nodes with identifiers 1..8, in the order of the corner table.
- `SegmentationModel.UpdateMeshNodes` and `SegmentationModel.SetScale` require every identifier to be in 1..8. The code would raise for an identifier above 8, wrap around (Python negative indexing) for identifiers −7..0 and raise below that; none of these can arise from the mesh built here.
- `ZincPlane`, `create_field_visibility_for_plane` and `convertToPointCloud` belong to the visualisation library. Point sampling is a function parameter that sees the visibility flags, the model and the density. Only the clear-before-fill and hide-sample-show orderings are modelled.
- `SegmentationScene.GeneratePoints` does not restore visibility if sampling fails. The code has no guard for that either, and the sampler here is total.
- Graphics are assumed to start visible. This is the visualisation library's default, and the code does not set it.
- Regions, scenes, materials, glyph shapes, tessellations and change scopes are library state.
  - `clear_segmentation_mesh`, `plane_nodes_coordinates` and the tessellation-division accessors are not modelled.
  - The outline, surface and contour graphics are represented only by their visibility flags and isovalue lists.
- The commented-out per-voxel histogram loop is not live code and is not modelled.
- Floating point: all arithmetic is over `real`, so IEEE rounding is not modelled.
  For example, 0.299 + 0.587 + 0.114 is exactly 1 here.
- The slider mapping is not related to the rescaled box. The code's `set_slider_value` ignores `set_scale`, and the model keeps it as written.
- The Qt form layout is not modelled. Only its slider maxima, 99 and 10000, appear as the ranges in the slider contracts.
