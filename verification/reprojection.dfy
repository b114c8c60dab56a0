/** The reprojection layer (repro_layer_2.py, lines 14-116): a cube of world
    points centred on a given 3D position is projected into twelve cameras,
    and each 2D heatmap is read at the projected pixel; the 3D volume holds,
    per keypoint and grid cell, the mean of the twelve readings. */
module Reprojection {
  import opened Wrappers
  import opened Geometry
  import opened RealSums
  import Projection
  import SamplingGrid

  /** `do_something` and its caller hard-code twelve cameras (lines 80, 85). */
  const UsedCameras: nat := 12

  /** The state `__init__` builds: the grid size R, the spacing, the stored
      offset grid (lines 39-45) and one projection per camera (lines 47-51). */
  datatype Layer = Layer(size: nat, spacing: int, grid: Cube<Vec3>, cameras: seq<Projection.Camera>)

  predicate ValidLayer(layer: Layer) {
    IsCube(layer.grid, layer.size)
  }

  /** `__init__` (lines 29-45): R is `int(ROI_CUBE_SIZE / GRID_SPACING)`, and
      for an even R the stored grid is the centred lattice in wrap-around
      order, scaled by the spacing. */
  function NewLayer(cubeSize: int, spacing: int, cameras: seq<Projection.Camera>): (r: Result<Layer, SamplingGrid.GridError>)
    ensures r.Failure? <==> SamplingGrid.GridSize(cubeSize, spacing).Failure?
    ensures r.Success? ==> ValidLayer(r.value) && r.value.cameras == cameras && r.value.spacing == spacing
    ensures r.Success? ==> r.value.size == SamplingGrid.GridSize(cubeSize, spacing).value
    ensures r.Success? && r.value.size % 2 == 0 ==>
      forall a, b, c :: 0 <= a < r.value.size && 0 <= b < r.value.size && 0 <= c < r.value.size ==>
        r.value.grid[a][b][c] ==
          Scale(SamplingGrid.Index(SamplingGrid.Centred(r.value.size, a), SamplingGrid.Centred(r.value.size, b), SamplingGrid.Centred(r.value.size, c)),
                spacing as real)
  {
    match SamplingGrid.GridSize(cubeSize, spacing)
    case Failure(e) => Failure(e)
    case Success(size) =>
      var layer := Layer(size, spacing, SamplingGrid.Grid(size, spacing), cameras);
      if size % 2 == 0 then
        SamplingGrid.EvenGridLayout(size, spacing);
        Success(layer)
      else Success(layer)
  }

  // ---------------------------------------------------------------------------
  // do_something (lines 79-91)

  datatype ForwardError =
    | TooFewCameras        // `self.cameraMatrices[i]` for i up to 11 (line 86)
    | TooManyCameras       // `test[self.ii, ...]` with ii past 11 (line 100)
    | MissingHeatmapCamera // `heatmaps[:, self.ii, ...]` past the heatmaps' camera axis
    | BadPixelIndex        // an undefined or too large flattened index (line 100)

  /** One camera's cube of flattened heatmap indices (line 90): defined, and
      inside the 640 x 512 heatmap, unless the projected pixel is NaN. */
  function IndexCube(cam: Projection.Camera, grid: Cube<Vec3>, size: nat): (q: Cube<Option<int>>)
    requires IsCube(grid, size)
    ensures IsCube(q, size)
    ensures forall a, b, d :: 0 <= a < size && 0 <= b < size && 0 <= d < size ==>
      q[a][b][d] == Projection.PixelIndex(cam, grid[a][b][d])
  {
    MapCube(grid, size, v => Projection.PixelIndex(cam, v))
  }

  /** Twelve index cubes, one per camera (`res`, line 80). */
  predicate IsVolume(vol: seq<Cube<Option<int>>>, size: nat) {
    |vol| == UsedCameras && forall c :: 0 <= c < UsedCameras ==> IsCube(vol[c], size)
  }

  /** `do_something(grid)`: the index cubes of the first twelve cameras; a
      layer with fewer cameras fails at `self.cameraMatrices[i]`. */
  function DoSomething(cameras: seq<Projection.Camera>, grid: Cube<Vec3>, size: nat): (r: Result<seq<Cube<Option<int>>>, ForwardError>)
    requires IsCube(grid, size)
    ensures r.Failure? <==> |cameras| < UsedCameras
    ensures r.Failure? ==> r.error == TooFewCameras
    ensures r.Success? ==> IsVolume(r.value, size)
    ensures r.Success? ==> forall c :: 0 <= c < UsedCameras ==> r.value[c] == IndexCube(cameras[c], grid, size)
  {
    if |cameras| < UsedCameras then Failure(TooFewCameras)
    else Success(seq(UsedCameras, c requires 0 <= c < UsedCameras => IndexCube(cameras[c], grid, size)))
  }

  // ---------------------------------------------------------------------------
  // Heatmaps and forward (lines 94-116)

  /** The 2D heatmaps of a batch as a tensor of shape
      `[batch, cameras, keypoints, pixels]`, the two pixel axes already
      flattened (`flatten(2)`, line 96): `at(b, c, k, i)` is the value at that
      position. */
  datatype Heatmaps = Heatmaps(batch: nat, cameras: nat, keypoints: nat, pixels: nat,
                               at: (int, int, int, int) -> real)

  /** Every index of the volume is defined and inside the flattened heatmap. */
  predicate Readable(vol: seq<Cube<Option<int>>>, size: nat, pixels: nat)
    requires IsVolume(vol, size)
  {
    forall c, a, b, d :: 0 <= c < UsedCameras && 0 <= a < size && 0 <= b < size && 0 <= d < size ==>
      vol[c][a][b][d].Some? && 0 <= vol[c][a][b][d].value < pixels
  }

  /** The twelve readings `heatmaps[kp, c, test[c, a, b, d]]` of one cell. */
  function Samples(vol: seq<Cube<Option<int>>>, size: nat, hm: Heatmaps, batch: int, kp: int, a: int, b: int, d: int): (s: seq<real>)
    requires IsVolume(vol, size) && Readable(vol, size, hm.pixels)
    requires 0 <= a < size && 0 <= b < size && 0 <= d < size
    ensures |s| == UsedCameras
  {
    seq(UsedCameras, c requires 0 <= c < UsedCameras => hm.at(batch, c, kp, vol[c][a][b][d].value))
  }

  /** One keypoint's cube of camera means, `outs[kp]` of line 100. */
  function KeypointCube(vol: seq<Cube<Option<int>>>, size: nat, hm: Heatmaps, batch: int, kp: int): (q: Cube<real>)
    requires IsVolume(vol, size) && Readable(vol, size, hm.pixels)
    ensures IsCube(q, size)
    ensures forall a, b, d :: 0 <= a < size && 0 <= b < size && 0 <= d < size ==>
      q[a][b][d] == Mean(Samples(vol, size, hm, batch, kp, a, b, d))
  {
    BuildCube(size, (a, b, d) =>
      if 0 <= a < size && 0 <= b < size && 0 <= d < size
      then Mean(Samples(vol, size, hm, batch, kp, a, b, d)) else 0.0)
  }

  /** `heatmaps3D` (lines 109-114): per batch item and keypoint, the cube of
      camera means. */
  function Volume(vol: seq<Cube<Option<int>>>, size: nat, hm: Heatmaps): (v: seq<seq<Cube<real>>>)
    requires IsVolume(vol, size) && Readable(vol, size, hm.pixels)
    ensures |v| == hm.batch
    ensures forall b :: 0 <= b < hm.batch ==> |v[b]| == hm.keypoints
    ensures forall b, kp :: 0 <= b < hm.batch && 0 <= kp < hm.keypoints ==>
      v[b][kp] == KeypointCube(vol, size, hm, b, kp)
  {
    seq(hm.batch, batch requires 0 <= batch < hm.batch =>
      seq(hm.keypoints, kp requires 0 <= kp < hm.keypoints => KeypointCube(vol, size, hm, batch, kp)))
  }

  /** The index volume forward reads: `do_something` on the stored grid moved
      to the centre (line 108). */
  function IndexVolume(layer: Layer, center: Vec3): (r: Result<seq<Cube<Option<int>>>, ForwardError>)
    requires ValidLayer(layer)
    ensures r.Success? ==> IsVolume(r.value, layer.size)
  {
    DoSomething(layer.cameras, SamplingGrid.Recenter(layer.grid, layer.size, center), layer.size)
  }

  /** `forward(heatmaps, center)` with `_get_heatmap_value`: an empty batch
      yields an empty volume before anything is indexed. Otherwise
      `do_something` needs twelve cameras; an empty grid (R = 0) then gathers
      nothing, so no index is checked. A non-empty grid needs exactly twelve
      layer cameras, since `test[ii, ...]` reads one index cube per layer
      camera. With no keypoints the gather of line 100 produces an empty
      tensor and reads no heatmap, so neither the heatmap camera count nor
      the pixel indices are checked, provided the camera and pixel axes it
      indexes are not empty: an index into an axis of size 0 raises whatever
      the output size. Otherwise forward needs heatmaps for at least twelve
      cameras and readable indices. The result is the volume of
      camera means, of shape [batch][keypoints][R][R][R]. */
  function Forward(layer: Layer, hm: Heatmaps, center: Vec3): (r: Result<seq<seq<Cube<real>>>, ForwardError>)
    requires ValidLayer(layer)
    ensures r.Success? <==>
      hm.batch == 0 ||
      (|layer.cameras| >= UsedCameras && layer.size == 0) ||
      (|layer.cameras| == UsedCameras && hm.keypoints == 0 && hm.cameras > 0 && hm.pixels > 0) ||
      (|layer.cameras| == UsedCameras && hm.cameras >= UsedCameras &&
       Readable(IndexVolume(layer, center).value, layer.size, hm.pixels))
    ensures r.Failure? ==> (r.error == TooFewCameras <==> |layer.cameras| < UsedCameras)
    ensures r.Failure? ==> (r.error == TooManyCameras <==> |layer.cameras| > UsedCameras)
    ensures r.Failure? && |layer.cameras| == UsedCameras ==> (r.error == MissingHeatmapCamera <==> hm.cameras < UsedCameras)
    ensures r.Success? ==> |r.value| == hm.batch
    ensures r.Success? ==> forall b :: 0 <= b < hm.batch ==> |r.value[b]| == hm.keypoints
    ensures r.Success? ==> forall b, kp :: 0 <= b < hm.batch && 0 <= kp < hm.keypoints ==>
      IsCube(r.value[b][kp], layer.size)
    ensures r.Success? && hm.batch > 0 && Readable(IndexVolume(layer, center).value, layer.size, hm.pixels) ==>
      r.value == Volume(IndexVolume(layer, center).value, layer.size, hm)
  {
    if hm.batch == 0 then Success([])
    else
      match IndexVolume(layer, center)
      case Failure(e) => Failure(e)
      case Success(vol) =>
        if layer.size == 0 then Success(Volume(vol, layer.size, hm))
        else if |layer.cameras| > UsedCameras then Failure(TooManyCameras)
        else if hm.keypoints == 0 && hm.cameras > 0 && hm.pixels > 0 then Success(seq(hm.batch, _ => []))
        else if hm.cameras < UsedCameras then Failure(MissingHeatmapCamera)
        else if !Readable(vol, layer.size, hm.pixels) then Failure(BadPixelIndex)
        else Success(Volume(vol, layer.size, hm))
  }

  // ---------------------------------------------------------------------------
  // Properties of forward

  /** The world point cell (a, b, d) samples: the stored offset plus the centre. */
  function Point(layer: Layer, center: Vec3, a: int, b: int, d: int): Vec3
    requires ValidLayer(layer) && 0 <= a < layer.size && 0 <= b < layer.size && 0 <= d < layer.size
  {
    Add(layer.grid[a][b][d], center)
  }

  /** Camera `c` reads cell (a, b, d) at the heatmap index of the world point
      that cell samples: stored offset plus centre. */
  lemma IndexVolumeCells(layer: Layer, center: Vec3, c: int, a: int, b: int, d: int)
    requires ValidLayer(layer) && |layer.cameras| >= UsedCameras && 0 <= c < UsedCameras
    requires 0 <= a < layer.size && 0 <= b < layer.size && 0 <= d < layer.size
    ensures IndexVolume(layer, center).value[c][a][b][d] == Projection.PixelIndex(layer.cameras[c], Point(layer, center, a, b, d))
    ensures IndexVolume(layer, center).value[c][a][b][d].Some? ==>
      0 <= IndexVolume(layer, center).value[c][a][b][d].value < Projection.HeatmapWidth * Projection.HeatmapHeight
  {
    var grid := SamplingGrid.Recenter(layer.grid, layer.size, center);
    assert Sub(grid[a][b][d], center) == layer.grid[a][b][d];
    assert grid[a][b][d] == Point(layer, center, a, b, d);
  }

  /** The heatmap value camera `c` reads at a defined index. */
  function ReadAt(hm: Heatmaps, batch: int, c: int, kp: int, index: Option<int>): real {
    if index.Some? then hm.at(batch, c, kp, index.value) else 0.0
  }

  /** What the twelve cameras read for cell (a, b, d), computed straight
      from the projections of the cell's world point. */
  function PixelReads(layer: Layer, hm: Heatmaps, center: Vec3, batch: int, kp: int, a: int, b: int, d: int): (s: seq<real>)
    requires ValidLayer(layer) && |layer.cameras| >= UsedCameras
    requires 0 <= a < layer.size && 0 <= b < layer.size && 0 <= d < layer.size
    ensures |s| == UsedCameras
  {
    seq(UsedCameras, c requires 0 <= c < UsedCameras =>
      ReadAt(hm, batch, c, kp, Projection.PixelIndex(layer.cameras[c], Point(layer, center, a, b, d))))
  }

  /** The samples taken through the index volume are the direct reads. */
  lemma SamplesArePixelReads(layer: Layer, hm: Heatmaps, center: Vec3, batch: int, kp: int, a: int, b: int, d: int)
    requires ValidLayer(layer) && |layer.cameras| >= UsedCameras
    requires Readable(IndexVolume(layer, center).value, layer.size, hm.pixels)
    requires 0 <= a < layer.size && 0 <= b < layer.size && 0 <= d < layer.size
    ensures Samples(IndexVolume(layer, center).value, layer.size, hm, batch, kp, a, b, d) ==
            PixelReads(layer, hm, center, batch, kp, a, b, d)
  {
    var s := Samples(IndexVolume(layer, center).value, layer.size, hm, batch, kp, a, b, d);
    var t := PixelReads(layer, hm, center, batch, kp, a, b, d);
    forall c | 0 <= c < UsedCameras
      ensures s[c] == t[c]
    {
      IndexVolumeCells(layer, center, c, a, b, d);
    }
  }

  /** End to end: each volume cell is the mean, over the twelve cameras, of the
      camera's heatmap at the projection of the world point the cell samples. */
  lemma ForwardCell(layer: Layer, hm: Heatmaps, center: Vec3, batch: int, kp: int, a: int, b: int, d: int)
    requires ValidLayer(layer) && |layer.cameras| == UsedCameras && hm.cameras >= UsedCameras
    requires Readable(IndexVolume(layer, center).value, layer.size, hm.pixels)
    requires 0 <= batch < hm.batch && 0 <= kp < hm.keypoints
    requires 0 <= a < layer.size && 0 <= b < layer.size && 0 <= d < layer.size
    ensures Forward(layer, hm, center).Success?
    ensures Forward(layer, hm, center).value[batch][kp] == KeypointCube(IndexVolume(layer, center).value, layer.size, hm, batch, kp)
    ensures Forward(layer, hm, center).value[batch][kp][a][b][d] == Mean(PixelReads(layer, hm, center, batch, kp, a, b, d))
  {
    SamplesArePixelReads(layer, hm, center, batch, kp, a, b, d);
  }

  /** Every defined index of the volume lies inside the 640 x 512 heatmap. */
  lemma IndexVolumeBound(layer: Layer, center: Vec3)
    requires ValidLayer(layer) && |layer.cameras| >= UsedCameras
    ensures var vol := IndexVolume(layer, center).value;
      forall c, a, b, d :: 0 <= c < UsedCameras && 0 <= a < layer.size && 0 <= b < layer.size && 0 <= d < layer.size ==>
        vol[c][a][b][d].Some? ==> 0 <= vol[c][a][b][d].value < Projection.HeatmapWidth * Projection.HeatmapHeight
  {
    forall c, a, b, d | 0 <= c < UsedCameras && 0 <= a < layer.size && 0 <= b < layer.size && 0 <= d < layer.size
    {
      IndexVolumeCells(layer, center, c, a, b, d);
    }
  }

  /** With full-resolution heatmaps (at least 640 x 512 pixels) no defined
      index is out of range: readability asks only that no pixel be NaN. */
  lemma FullHeatmapsReadable(layer: Layer, center: Vec3, pixels: nat)
    requires ValidLayer(layer) && |layer.cameras| >= UsedCameras
    requires pixels >= Projection.HeatmapWidth * Projection.HeatmapHeight
    ensures var vol := IndexVolume(layer, center).value;
      Readable(vol, layer.size, pixels) <==>
        forall c, a, b, d :: 0 <= c < UsedCameras && 0 <= a < layer.size && 0 <= b < layer.size && 0 <= d < layer.size ==>
          vol[c][a][b][d].Some?
  {
    IndexVolumeBound(layer, center);
  }

  /** A mean never leaves the range of what it averages: heatmap values in
      [lo, hi] give volume values in [lo, hi]. */
  lemma ForwardBounds(layer: Layer, hm: Heatmaps, center: Vec3, lo: real, hi: real)
    requires ValidLayer(layer)
    requires forall b, c, k, i :: 0 <= b < hm.batch && 0 <= c < hm.cameras && 0 <= k < hm.keypoints && 0 <= i < hm.pixels ==>
      lo <= hm.at(b, c, k, i) <= hi
    requires Forward(layer, hm, center).Success?
    ensures forall batch, kp, a, b, d ::
      0 <= batch < hm.batch && 0 <= kp < hm.keypoints &&
      0 <= a < layer.size && 0 <= b < layer.size && 0 <= d < layer.size ==>
        lo <= Forward(layer, hm, center).value[batch][kp][a][b][d] <= hi
  {
    if hm.batch > 0 && layer.size > 0 && hm.keypoints > 0 {
      ForwardSucceeded(layer, hm, center);
      VolumeBounds(IndexVolume(layer, center).value, layer.size, hm, lo, hi);
    }
  }

  /** An empty grid (R = 0, a cube smaller than the spacing) gathers nothing:
      with at least twelve cameras, however many more and whatever the
      heatmaps, forward returns one empty cube per batch item and keypoint. */
  lemma EmptyGridForward(layer: Layer, hm: Heatmaps, center: Vec3)
    requires ValidLayer(layer) && layer.size == 0 && |layer.cameras| >= UsedCameras
    ensures Forward(layer, hm, center).Success?
    ensures var v := Forward(layer, hm, center).value;
      |v| == hm.batch &&
      forall b, kp :: 0 <= b < hm.batch && 0 <= kp < hm.keypoints ==> |v[b]| == hm.keypoints && v[b][kp] == []
  {
  }

  /** With no keypoints the gather reads no heatmap: with exactly twelve
      layer cameras and non-empty camera and pixel axes, forward returns one
      empty entry per batch item, however few heatmap cameras there are and
      whatever the pixel indices. */
  lemma NoKeypointsForward(layer: Layer, hm: Heatmaps, center: Vec3)
    requires ValidLayer(layer) && |layer.cameras| == UsedCameras && hm.keypoints == 0
    requires hm.cameras > 0 && hm.pixels > 0
    ensures Forward(layer, hm, center).Success?
    ensures var v := Forward(layer, hm, center).value;
      |v| == hm.batch && forall b :: 0 <= b < hm.batch ==> v[b] == []
  {
  }

  /** An empty camera or pixel axis is indexed even when there are no
      keypoints: with a non-empty batch and grid, forward then fails, for
      want of heatmap cameras or with an unreadable index. */
  lemma EmptyAxisRaises(layer: Layer, hm: Heatmaps, center: Vec3)
    requires ValidLayer(layer) && |layer.cameras| == UsedCameras
    requires hm.batch > 0 && layer.size > 0 && (hm.cameras == 0 || hm.pixels == 0)
    ensures Forward(layer, hm, center).Failure?
    ensures Forward(layer, hm, center).error ==
      (if hm.cameras < UsedCameras then MissingHeatmapCamera else BadPixelIndex)
  {
    if hm.cameras >= UsedCameras {
      var vol: seq<Cube<Option<int>>> := IndexVolume(layer, center).value;
      assert !Readable(vol, layer.size, hm.pixels) by {
        assert !(vol[0][0][0][0].Some? && 0 <= vol[0][0][0][0].value < hm.pixels);
      }
    }
  }

  /** What a successful forward on a non-empty batch, grid and keypoint set
      implies. */
  lemma ForwardSucceeded(layer: Layer, hm: Heatmaps, center: Vec3)
    requires ValidLayer(layer) && Forward(layer, hm, center).Success? && hm.batch > 0 && layer.size > 0 && hm.keypoints > 0
    ensures |layer.cameras| == UsedCameras && hm.cameras >= UsedCameras
    ensures Readable(IndexVolume(layer, center).value, layer.size, hm.pixels)
    ensures Forward(layer, hm, center).value == Volume(IndexVolume(layer, center).value, layer.size, hm)
  {
  }

  /** ForwardBounds for a readable index volume. */
  lemma VolumeBounds(vol: seq<Cube<Option<int>>>, size: nat, hm: Heatmaps, lo: real, hi: real)
    requires IsVolume(vol, size) && Readable(vol, size, hm.pixels) && hm.cameras >= UsedCameras
    requires forall b, c, k, i :: 0 <= b < hm.batch && 0 <= c < hm.cameras && 0 <= k < hm.keypoints && 0 <= i < hm.pixels ==>
      lo <= hm.at(b, c, k, i) <= hi
    ensures forall batch, kp, a, b, d ::
      0 <= batch < hm.batch && 0 <= kp < hm.keypoints && 0 <= a < size && 0 <= b < size && 0 <= d < size ==>
        lo <= Volume(vol, size, hm)[batch][kp][a][b][d] <= hi
  {
    var v := Volume(vol, size, hm);
    forall batch, kp, a, b, d |
      0 <= batch < hm.batch && 0 <= kp < hm.keypoints && 0 <= a < size && 0 <= b < size && 0 <= d < size
      ensures lo <= v[batch][kp][a][b][d] <= hi
    {
      assert v[batch][kp] == KeypointCube(vol, size, hm, batch, kp);
      CellBounds(vol, size, hm, batch, kp, a, b, d, lo, hi);
    }
  }

  /** One cell of VolumeBounds. */
  lemma CellBounds(vol: seq<Cube<Option<int>>>, size: nat, hm: Heatmaps, batch: int, kp: int, a: int, b: int, d: int, lo: real, hi: real)
    requires IsVolume(vol, size) && Readable(vol, size, hm.pixels) && hm.cameras >= UsedCameras
    requires 0 <= batch < hm.batch && 0 <= kp < hm.keypoints
    requires 0 <= a < size && 0 <= b < size && 0 <= d < size
    requires forall c, i :: 0 <= c < hm.cameras && 0 <= i < hm.pixels ==> lo <= hm.at(batch, c, kp, i) <= hi
    ensures lo <= Mean(Samples(vol, size, hm, batch, kp, a, b, d)) <= hi
  {
    var s := Samples(vol, size, hm, batch, kp, a, b, d);
    forall c | 0 <= c < |s|
      ensures lo <= s[c] <= hi
    {
      assert s[c] == hm.at(batch, c, kp, vol[c][a][b][d].value);
    }
    MeanBounds(s, lo, hi);
  }

  /** Exchanging cameras `i` and `j` of the layer. */
  function SwapCameras(cams: seq<Projection.Camera>, i: nat, j: nat): (r: seq<Projection.Camera>)
    requires i < |cams| && j < |cams|
    ensures |r| == |cams| && r[i] == cams[j] && r[j] == cams[i]
    ensures forall c :: 0 <= c < |cams| && c != i && c != j ==> r[c] == cams[c]
  {
    cams[i := cams[j]][j := cams[i]]
  }

  /** Camera `c` after exchanging `i` and `j`. */
  function Swapped(i: nat, j: nat, c: int): int {
    if c == i then j else if c == j then i else c
  }

  /** Exchanging cameras `i` and `j` on the heatmaps' camera axis. */
  function SwapHeatmapCameras(hm: Heatmaps, i: nat, j: nat): (r: Heatmaps)
    ensures r.batch == hm.batch && r.cameras == hm.cameras
    ensures r.keypoints == hm.keypoints && r.pixels == hm.pixels
    ensures forall b, c, k, p :: r.at(b, c, k, p) == hm.at(b, Swapped(i, j, c), k, p)
  {
    hm.(at := (b, c, k, p) => hm.at(b, Swapped(i, j, c), k, p))
  }

  /** The index volume after swapping two cameras is the old one with the two
      cubes exchanged. */
  lemma SwapIndexVolume(layer: Layer, center: Vec3, i: nat, j: nat)
    requires ValidLayer(layer) && i < UsedCameras && j < UsedCameras && |layer.cameras| == UsedCameras
    ensures var vol := IndexVolume(layer, center).value;
      IndexVolume(layer.(cameras := SwapCameras(layer.cameras, i, j)), center).value == vol[i := vol[j]][j := vol[i]]
  {
    var vol: seq<Cube<Option<int>>> := IndexVolume(layer, center).value;
    var vol' := IndexVolume(layer.(cameras := SwapCameras(layer.cameras, i, j)), center).value;
    forall c | 0 <= c < UsedCameras
      ensures vol'[c] == vol[i := vol[j]][j := vol[i]][c]
    {
    }
  }

  /** Relabelling two cameras consistently, in the layer and in the heatmaps,
      leaves the volume unchanged: the camera mean is order independent. */
  lemma CameraOrderIrrelevant(layer: Layer, hm: Heatmaps, center: Vec3, i: nat, j: nat)
    requires ValidLayer(layer)
    requires i < UsedCameras && j < UsedCameras
    requires |layer.cameras| == UsedCameras && hm.cameras >= UsedCameras
    ensures Forward(layer.(cameras := SwapCameras(layer.cameras, i, j)), SwapHeatmapCameras(hm, i, j), center) ==
            Forward(layer, hm, center)
  {
    var vol: seq<Cube<Option<int>>> := IndexVolume(layer, center).value;
    var vol': seq<Cube<Option<int>>> := vol[i := vol[j]][j := vol[i]];
    var layer' := layer.(cameras := SwapCameras(layer.cameras, i, j));
    var hm' := SwapHeatmapCameras(hm, i, j);
    SwapIndexVolume(layer, center, i, j);
    SwapReadable(vol, layer.size, hm.pixels, i, j);
    var r := Forward(layer, hm, center);
    var r' := Forward(layer', hm', center);
    if hm.batch == 0 {
      assert r == Success([]) == r';
    } else if hm.keypoints == 0 && hm.cameras > 0 && hm.pixels > 0 {
      assert r.Success? && r'.Success?;
      assert forall b :: 0 <= b < hm.batch ==> r.value[b] == [] == r'.value[b];
      assert r.value == r'.value;
    } else if Readable(vol, layer.size, hm.pixels) {
      SwapVolume(vol, layer.size, hm, i, j);
      assert r.value == Volume(vol, layer.size, hm);
      assert r'.value == Volume(vol', layer.size, hm');
    } else {
      assert r.Failure? && r.error == BadPixelIndex;
      assert r'.Failure? && r'.error == BadPixelIndex;
    }
  }

  /** Exchanging two index cubes keeps the volume readable. */
  lemma SwapReadable(vol: seq<Cube<Option<int>>>, size: nat, pixels: nat, i: nat, j: nat)
    requires IsVolume(vol, size) && i < UsedCameras && j < UsedCameras
    ensures IsVolume(vol[i := vol[j]][j := vol[i]], size)
    ensures Readable(vol[i := vol[j]][j := vol[i]], size, pixels) <==> Readable(vol, size, pixels)
  {
    var vol': seq<Cube<Option<int>>> := vol[i := vol[j]][j := vol[i]];
    assert forall c :: 0 <= c < UsedCameras ==> vol'[c] == vol[Swapped(i, j, c)];
    if Readable(vol, size, pixels) {
      forall c, a, b, d | 0 <= c < UsedCameras && 0 <= a < size && 0 <= b < size && 0 <= d < size
        ensures vol'[c][a][b][d].Some? && 0 <= vol'[c][a][b][d].value < pixels
      {
        assert vol'[c] == vol[Swapped(i, j, c)];
      }
    }
    if Readable(vol', size, pixels) {
      forall c, a, b, d | 0 <= c < UsedCameras && 0 <= a < size && 0 <= b < size && 0 <= d < size
        ensures vol[c][a][b][d].Some? && 0 <= vol[c][a][b][d].value < pixels
      {
        assert vol[c] == vol'[Swapped(i, j, c)];
      }
    }
  }

  /** Swapping two index cubes together with the matching heatmap cameras
      leaves the volume of means unchanged. */
  lemma SwapVolume(vol: seq<Cube<Option<int>>>, size: nat, hm: Heatmaps, i: nat, j: nat)
    requires IsVolume(vol, size) && Readable(vol, size, hm.pixels) && i < UsedCameras && j < UsedCameras
    ensures IsVolume(vol[i := vol[j]][j := vol[i]], size)
    ensures Readable(vol[i := vol[j]][j := vol[i]], size, hm.pixels)
    ensures Volume(vol[i := vol[j]][j := vol[i]], size, SwapHeatmapCameras(hm, i, j)) == Volume(vol, size, hm)
  {
    var vol': seq<Cube<Option<int>>> := vol[i := vol[j]][j := vol[i]];
    var hm' := SwapHeatmapCameras(hm, i, j);
    SwapReadable(vol, size, hm.pixels, i, j);
    var v := Volume(vol, size, hm);
    var v' := Volume(vol', size, hm');
    forall batch, kp | 0 <= batch < hm.batch && 0 <= kp < hm.keypoints
      ensures v'[batch][kp] == v[batch][kp]
    {
      SwapKeypointCube(vol, size, hm, i, j, batch, kp);
    }
    assert v' == v by {
      forall batch | 0 <= batch < hm.batch
        ensures v'[batch] == v[batch]
      {
      }
    }
  }

  /** One keypoint cube of SwapVolume. */
  lemma SwapKeypointCube(vol: seq<Cube<Option<int>>>, size: nat, hm: Heatmaps, i: nat, j: nat, batch: int, kp: int)
    requires IsVolume(vol, size) && Readable(vol, size, hm.pixels) && i < UsedCameras && j < UsedCameras
    requires IsVolume(vol[i := vol[j]][j := vol[i]], size)
    requires Readable(vol[i := vol[j]][j := vol[i]], size, hm.pixels)
    ensures KeypointCube(vol[i := vol[j]][j := vol[i]], size, SwapHeatmapCameras(hm, i, j), batch, kp)
         == KeypointCube(vol, size, hm, batch, kp)
  {
    var vol': seq<Cube<Option<int>>> := vol[i := vol[j]][j := vol[i]];
    var hm' := SwapHeatmapCameras(hm, i, j);
    var q := KeypointCube(vol, size, hm, batch, kp);
    var q' := KeypointCube(vol', size, hm', batch, kp);
    forall a, b, d | 0 <= a < size && 0 <= b < size && 0 <= d < size
      ensures q'[a][b][d] == q[a][b][d]
    {
      CellSwap(vol, size, hm, i, j, batch, kp, a, b, d);
    }
    CubesEqual(q', q, size);
  }

  /** One cell's mean is unchanged by the swap. */
  lemma CellSwap(vol: seq<Cube<Option<int>>>, size: nat, hm: Heatmaps, i: nat, j: nat,
                 batch: int, kp: int, a: int, b: int, d: int)
    requires IsVolume(vol, size) && Readable(vol, size, hm.pixels) && i < UsedCameras && j < UsedCameras
    requires IsVolume(vol[i := vol[j]][j := vol[i]], size)
    requires Readable(vol[i := vol[j]][j := vol[i]], size, hm.pixels)
    requires 0 <= a < size && 0 <= b < size && 0 <= d < size
    ensures Mean(Samples(vol[i := vol[j]][j := vol[i]], size, SwapHeatmapCameras(hm, i, j), batch, kp, a, b, d))
         == Mean(Samples(vol, size, hm, batch, kp, a, b, d))
  {
    SamplesSwap(vol, size, hm, i, j, batch, kp, a, b, d);
    MeanSwap(Samples(vol, size, hm, batch, kp, a, b, d), i, j);
  }

  /** The readings of a cell after the swap are the old readings with
      entries `i` and `j` exchanged. */
  lemma SamplesSwap(vol: seq<Cube<Option<int>>>, size: nat, hm: Heatmaps, i: nat, j: nat,
                    batch: int, kp: int, a: int, b: int, d: int)
    requires IsVolume(vol, size) && Readable(vol, size, hm.pixels) && i < UsedCameras && j < UsedCameras
    requires IsVolume(vol[i := vol[j]][j := vol[i]], size)
    requires Readable(vol[i := vol[j]][j := vol[i]], size, hm.pixels)
    requires 0 <= a < size && 0 <= b < size && 0 <= d < size
    ensures var s := Samples(vol, size, hm, batch, kp, a, b, d);
      Samples(vol[i := vol[j]][j := vol[i]], size, SwapHeatmapCameras(hm, i, j), batch, kp, a, b, d) == s[i := s[j]][j := s[i]]
  {
    var vol': seq<Cube<Option<int>>> := vol[i := vol[j]][j := vol[i]];
    var hm' := SwapHeatmapCameras(hm, i, j);
    var s := Samples(vol, size, hm, batch, kp, a, b, d);
    var s' := Samples(vol', size, hm', batch, kp, a, b, d);
    forall c | 0 <= c < UsedCameras
      ensures s'[c] == s[i := s[j]][j := s[i]][c]
    {
      assert vol'[c] == vol[Swapped(i, j, c)];
    }
  }

  /** Two cubes of the same size agreeing on every cell are equal. */
  lemma CubesEqual<T>(x: Cube<T>, y: Cube<T>, n: nat)
    requires IsCube(x, n) && IsCube(y, n)
    requires forall a, b, c :: 0 <= a < n && 0 <= b < n && 0 <= c < n ==> x[a][b][c] == y[a][b][c]
    ensures x == y
  {
    forall a | 0 <= a < n
      ensures x[a] == y[a]
    {
      forall b | 0 <= b < n
        ensures x[a][b] == y[a][b]
      {
      }
    }
  }
}
