/** From a world point to a flattened heatmap index, as `do_something` does it
    for one camera (repro_layer_2.py, lines 79-91). The camera matrix product is
    left uninterpreted: a `Camera` maps a world point to the homogeneous row
    `[x, y, z, 1] * M`. */
module Projection {
  import opened Wrappers
  import opened Geometry
  import opened Floats

  /** The frame is hard-coded to 1280 x 1024 pixels (lines 88-89) ... */
  const MaxPixelX: real := 1279.0
  const MaxPixelY: real := 1023.0
  /** ... and the heatmap to half of it, 640 columns by 512 rows (line 90). */
  const HeatmapWidth: int := 640
  const HeatmapHeight: int := 512

  datatype Homog = Homog(u: real, v: real, w: real)

  /** `torch.matmul([x, y, z, 1], M)` for one camera's 4 x 3 matrix `M`. */
  type Camera = Vec3 -> Homog

  /** Line 88: the x pixel, divided by the WORLD z coordinate of the grid point
      (not by the camera-space depth `w`), then clamped to the frame. */
  function PixelX(cam: Camera, p: Vec3): Float {
    Clamp(Quot(cam(p).u, p.z), 0.0, MaxPixelX)
  }

  /** Line 89: the y pixel, likewise. */
  function PixelY(cam: Camera, p: Vec3): Float {
    Clamp(Quot(cam(p).v, p.z), 0.0, MaxPixelY)
  }

  /** Halve both coordinates, truncate them, and flatten row-major into rows
      of `rowWidth` cells (line 90, and line 69 of the lookup builder). */
  function Flatten(px: real, py: real, rowWidth: int): int {
    Trunc(py / 2.0) * rowWidth + Trunc(px / 2.0)
  }

  /** The heatmap index a grid point is read from (line 90). A NaN coordinate
      (0/0, a zero world z with a zero numerator) leaves the integer cast
      undefined; the model returns None there. */
  function PixelIndex(cam: Camera, p: Vec3): (r: Option<int>)
    ensures r.None? <==> p.z == 0.0 && (cam(p).u == 0.0 || cam(p).v == 0.0)
    ensures r.Some? ==> 0 <= r.value < HeatmapWidth * HeatmapHeight
    ensures r.Some? ==> PixelX(cam, p).Finite? && PixelY(cam, p).Finite?
    ensures r.Some? ==>
      r.value == (PixelY(cam, p).r / 2.0).Floor * HeatmapWidth + (PixelX(cam, p).r / 2.0).Floor
  {
    var x := PixelX(cam, p);
    var y := PixelY(cam, p);
    if x.NaN? || y.NaN? then None
    else
      HalfFloorBound(x.r, MaxPixelX, 639);
      HalfFloorBound(y.r, MaxPixelY, 511);
      Some(Flatten(x.r, y.r, HeatmapWidth))
  }

  lemma HalfFloorBound(v: real, max: real, bound: int)
    requires 0.0 <= v <= max && max < 2.0 * (bound as real) + 2.0
    ensures 0 <= (v / 2.0).Floor <= bound
  {
  }

  /** Whatever the camera returns, the clamped pixel is a finite coordinate of
      the 1280 x 1024 frame unless it is NaN. */
  lemma ClampedPixelInFrame(cam: Camera, p: Vec3)
    ensures !PixelX(cam, p).NaN? ==> PixelX(cam, p).Finite? && 0.0 <= PixelX(cam, p).r <= 1279.0
    ensures !PixelY(cam, p).NaN? ==> PixelY(cam, p).Finite? && 0.0 <= PixelY(cam, p).r <= 1023.0
  {
  }

  /** The flattened index splits back into the heatmap row `floor(y/2)` and
      column `floor(x/2)`. */
  lemma PixelIndexRoundTrip(cam: Camera, p: Vec3)
    requires PixelIndex(cam, p).Some?
    ensures PixelIndex(cam, p).value / HeatmapWidth == (PixelY(cam, p).r / 2.0).Floor
    ensures PixelIndex(cam, p).value % HeatmapWidth == (PixelX(cam, p).r / 2.0).Floor
    ensures 0 <= (PixelY(cam, p).r / 2.0).Floor < HeatmapHeight
    ensures 0 <= (PixelX(cam, p).r / 2.0).Floor < HeatmapWidth
  {
    var row := (PixelY(cam, p).r / 2.0).Floor;
    var col := (PixelX(cam, p).r / 2.0).Floor;
    HalfFloorBound(PixelX(cam, p).r, MaxPixelX, 639);
    HalfFloorBound(PixelY(cam, p).r, MaxPixelY, 511);
    DivModUnique(row * HeatmapWidth + col, HeatmapWidth, row, col);
  }

  lemma DivModUnique(n: int, d: int, q: int, r: int)
    requires d > 0 && 0 <= r < d && n == q * d + r
    ensures n / d == q && n % d == r
  {
    var q', r' := n / d, n % d;
    assert q' * d + r' == n;
    assert (q - q') * d == r' - r;
    if q > q' {
      MulAtLeast(q - q', d);
    } else if q < q' {
      MulAtLeast(q' - q, d);
    }
  }

  lemma MulAtLeast(k: int, d: int)
    requires k >= 1 && d > 0
    ensures k * d >= d
  {
    assert k * d == d + (k - 1) * d;
  }

  /** `heatmaps.flatten(2)`: the rows of one heatmap laid end to end. */
  function FlattenRows(rows: seq<seq<real>>): seq<real> {
    if |rows| == 0 then [] else rows[0] + FlattenRows(rows[1..])
  }

  predicate Rectangular(rows: seq<seq<real>>, width: nat) {
    forall r :: 0 <= r < |rows| ==> |rows[r]| == width
  }

  lemma {:induction false} FlattenRowsIndex(rows: seq<seq<real>>, width: nat, r: nat, c: nat)
    requires Rectangular(rows, width) && r < |rows| && c < width
    ensures r * width + c < |FlattenRows(rows)|
    ensures FlattenRows(rows)[r * width + c] == rows[r][c]
  {
    var flat := FlattenRows(rows);
    assert flat == rows[0] + FlattenRows(rows[1..]);
    if r == 0 {
      assert flat[c] == rows[0][c];
    } else {
      var k := (r - 1) * width + c;
      FlattenRowsIndex(rows[1..], width, r - 1, c);
      assert r * width + c == width + k by {
        assert r * width == (r - 1) * width + width;
      }
      assert flat[width + k] == FlattenRows(rows[1..])[k];
    }
  }

  /** Gathering at the flattened index of a 512 x 640 heatmap reads the heatmap
      cell in row `floor(y/2)`, column `floor(x/2)`. */
  lemma GatherReadsHeatmapCell(cam: Camera, p: Vec3, rows: seq<seq<real>>)
    requires |rows| == HeatmapHeight && Rectangular(rows, HeatmapWidth)
    requires PixelIndex(cam, p).Some?
    ensures PixelIndex(cam, p).value < |FlattenRows(rows)|
    ensures FlattenRows(rows)[PixelIndex(cam, p).value] ==
      rows[(PixelY(cam, p).r / 2.0).Floor][(PixelX(cam, p).r / 2.0).Floor]
  {
    PixelIndexRoundTrip(cam, p);
    var row := (PixelY(cam, p).r / 2.0).Floor;
    var col := (PixelX(cam, p).r / 2.0).Floor;
    assert PixelIndex(cam, p).value == row * HeatmapWidth + col;
    FlattenRowsIndex(rows, HeatmapWidth, row, col);
  }

  // ---------------------------------------------------------------------------
  // The divide uses world z: a comparison with a pinhole projection.

  /** Reference pinhole projection: divide by the camera-space depth `w`. */
  function PinholeIndex(cam: Camera, p: Vec3): Option<int> {
    var x := Clamp(Quot(cam(p).u, cam(p).w), 0.0, MaxPixelX);
    var y := Clamp(Quot(cam(p).v, cam(p).w), 0.0, MaxPixelY);
    if x.NaN? || y.NaN? then None else Some(Flatten(x.r, y.r, HeatmapWidth))
  }

  /** The same camera with its matrix multiplied by `s`. */
  function ScaledCamera(cam: Camera, s: real): Camera {
    p => Homog(s * cam(p).u, s * cam(p).v, s * cam(p).w)
  }

  lemma QuotScale(num: real, den: real, s: real)
    requires s > 0.0
    ensures Quot(s * num, s * den) == Quot(num, den)
  {
    if den != 0.0 {
      assert (s * num) / (s * den) == num / den;
    }
  }

  /** A pinhole projection depends only on the camera matrix up to a positive
      factor. */
  lemma PinholeScaleInvariant(cam: Camera, p: Vec3, s: real)
    requires s > 0.0
    ensures PinholeIndex(ScaledCamera(cam, s), p) == PinholeIndex(cam, p)
  {
    var h := cam(p);
    var h2 := ScaledCamera(cam, s)(p);
    assert h2 == Homog(s * h.u, s * h.v, s * h.w);
    QuotScale(h.u, h.w, s);
    QuotScale(h.v, h.w, s);
    assert Quot(h2.u, h2.w) == Quot(h.u, h.w);
    assert Quot(h2.v, h2.w) == Quot(h.v, h.w);
  }

  /** The index the layer computes ignores the camera-space depth entirely. */
  lemma PixelIndexIgnoresDepth(cam1: Camera, cam2: Camera, p: Vec3)
    requires cam1(p).u == cam2(p).u && cam1(p).v == cam2(p).v && cam1(p).w != cam2(p).w
    ensures PixelIndex(cam1, p) == PixelIndex(cam2, p)
  {
  }

  /** Because of the world-z divide, scaling the camera matrix moves the pixel:
      the identity camera and its double send world point (100, 100, 1) to
      different heatmap cells, although they are the same projective camera. */
  function IdentityCamera(p: Vec3): Homog {
    Homog(p.x, p.y, p.z)
  }

  lemma WorldDepthDivideNotProjective()
    ensures PixelIndex(IdentityCamera, Vec3(100.0, 100.0, 1.0)) == Some(50 * 640 + 50)
    ensures PixelIndex(ScaledCamera(IdentityCamera, 2.0), Vec3(100.0, 100.0, 1.0)) == Some(100 * 640 + 100)
    ensures PinholeIndex(ScaledCamera(IdentityCamera, 2.0), Vec3(100.0, 100.0, 1.0))
         == PinholeIndex(IdentityCamera, Vec3(100.0, 100.0, 1.0))
  {
    var cam: Camera := IdentityCamera;
    var p := Vec3(100.0, 100.0, 1.0);
    PinholeScaleInvariant(cam, p, 2.0);
    assert Trunc(100.0 / 2.0) == 50;
    assert Trunc(200.0 / 2.0) == 100;
  }
}
