/** The reprojection lookup table (repro_layer_2.py, lines 56-76): for every
    world lattice point of the configured grid range and every camera, the
    flattened heatmap index the point projects to. Slices along the first axis
    are computed independently and written back by the index they return. */
module Lookup {
  import opened Wrappers
  import opened Geometry
  import Projection
  import Floats

  // ---------------------------------------------------------------------------
  // Axes: `np.arange(start, stop, step)` on integers (lines 57-59).

  /** The number of elements of `np.arange(start, stop, step)`:
      `ceil((stop - start) / step)`, or zero when that is negative. */
  function ArangeLen(start: int, stop: int, step: int): nat
    requires step != 0
  {
    if step > 0 then (if stop <= start then 0 else (stop - start + step - 1) / step)
    else (if stop >= start then 0 else (start - stop - step - 1) / (-step))
  }

  lemma MulMono(i: int, j: int, t: int)
    requires 0 <= i <= j && t > 0
    ensures i * t <= j * t
  {
    assert j * t == i * t + (j - i) * t;
  }

  /** Ceiling division: `(d + t - 1) / t` multiples of `t` fit strictly
      below `d`, and that many reach it. */
  lemma CeilDiv(d: int, t: int)
    requires d > 0 && t > 0
    ensures (d + t - 1) / t * t >= d
    ensures forall i :: 0 <= i < (d + t - 1) / t ==> i * t < d
  {
    var n := (d + t - 1) / t;
    var m := d + t - 1;
    assert m == n * t + m % t;
    assert (n - 1) * t < d by {
      assert (n - 1) * t == n * t - t;
    }
    forall i | 0 <= i < n
      ensures i * t < d
    {
      MulMono(i, n - 1, t);
    }
  }

  /** The arange length counts exactly the progression values strictly before
      `stop`: every one of the first `n` is before it, the next one is not. */
  lemma ArangeLenExact(start: int, stop: int, step: int)
    requires step != 0
    ensures var n := ArangeLen(start, stop, step);
      && (step > 0 ==> (forall i :: 0 <= i < n ==> start + i * step < stop) && start + n * step >= stop)
      && (step < 0 ==> (forall i :: 0 <= i < n ==> start + i * step > stop) && start + n * step <= stop)
  {
    var n := ArangeLen(start, stop, step);
    if step > 0 && stop > start {
      CeilDiv(stop - start, step);
    } else if step < 0 && start > stop {
      var t := -step;
      CeilDiv(start - stop, t);
      forall i | 0 <= i < n
        ensures start + i * step > stop
      {
        assert i * step == -(i * t);
      }
      assert n * step == -(n * t);
    }
  }

  /** `np.arange(start, stop, step)`; a zero step raises. */
  function Arange(start: int, stop: int, step: int): (r: Option<seq<int>>)
    ensures r.None? <==> step == 0
    ensures r.Some? ==> |r.value| == ArangeLen(start, stop, step)
    ensures r.Some? ==> forall i :: 0 <= i < |r.value| ==> r.value[i] == start + i * step
    ensures r.Some? ==> forall i :: 0 <= i < |r.value| - 1 ==> r.value[i + 1] == r.value[i] + step
    ensures r.Some? && step > 0 ==>
      (forall i :: 0 <= i < |r.value| ==> r.value[i] < stop) && start + |r.value| * step >= stop
    ensures r.Some? && step < 0 ==>
      (forall i :: 0 <= i < |r.value| ==> r.value[i] > stop) && start + |r.value| * step <= stop
  {
    if step == 0 then None
    else
      ArangeLenExact(start, stop, step);
      var xs := seq(ArangeLen(start, stop, step), i => start + i * step);
      assert forall i :: 0 <= i < |xs| - 1 ==> xs[i + 1] == xs[i] + step by {
        forall i | 0 <= i < |xs| - 1
          ensures xs[i + 1] == xs[i] + step
        {
          assert (i + 1) * step == i * step + step;
        }
      }
      Some(xs)
  }

  // ---------------------------------------------------------------------------
  // One cell: the reprojection tool and the flattening of line 69.

  datatype Pixel = Pixel(x: real, y: real)

  /** The calibration's reprojection tool: the source frame width and, for a
      world point, one pixel per camera (`reprojectPoint`, not part of this
      model, hence a parameter). */
  datatype ReproTool = ReproTool(width: int, numCameras: nat, reproject: Vec3 -> seq<Pixel>)

  /** The tool's promise: one pixel per camera for every point, so that line 69
      fills a row of `num_cameras` entries. */
  ghost predicate ValidTool(tool: ReproTool) {
    forall p :: |tool.reproject(p)| == tool.numCameras
  }

  /** `int(resolution[0] / 2)` (line 64): the heatmap row width. */
  function Resolution(tool: ReproTool): int {
    Floats.Trunc((tool.width as real) / 2.0)
  }

  /** Line 69 for one lattice point: per camera, the halved pixel coordinates
      truncated toward zero (`astype(np.int32)`) and flattened. */
  function LookupCell(tool: ReproTool, p: Vec3): (r: seq<int>)
    ensures |r| == |tool.reproject(p)|
    ensures forall c :: 0 <= c < |r| && 0.0 <= tool.reproject(p)[c].x && 0.0 <= tool.reproject(p)[c].y ==>
      r[c] == (tool.reproject(p)[c].y / 2.0).Floor * Resolution(tool) + (tool.reproject(p)[c].x / 2.0).Floor
  {
    var pts := tool.reproject(p);
    seq(|pts|, c requires 0 <= c < |pts| => Projection.Flatten(pts[c].x, pts[c].y, Resolution(tool)))
  }

  /** Table path and direct path agree: when the tool's pixel for a camera is the
      layer's clamped pixel and the frame is 1280 wide, the stored entry is the
      index `do_something` computes for the same point. */
  lemma LookupAgreesWithLayer(tool: ReproTool, cam: Projection.Camera, p: Vec3, c: int)
    requires tool.width == 1280 && 0 <= c < |tool.reproject(p)|
    requires Projection.PixelIndex(cam, p).Some?
    requires tool.reproject(p)[c] == Pixel(Projection.PixelX(cam, p).r, Projection.PixelY(cam, p).r)
    ensures LookupCell(tool, p)[c] == Projection.PixelIndex(cam, p).value
  {
    assert Resolution(tool) == 640;
  }

  // ---------------------------------------------------------------------------
  // Slices and their assembly (lines 60-74).

  /** One x-slice `[y][z][camera]`. */
  type Slice = seq<seq<seq<int>>>

  datatype Range = Range(start: int, stop: int)

  /** `parallel_repro(i)` (lines 62-70): the slice of x-index `i`, tagged with
      that index. */
  function ParallelRepro(tool: ReproTool, xs: seq<int>, ys: seq<int>, zs: seq<int>, i: int): (r: (int, Slice))
    requires 0 <= i < |xs|
    ensures r.0 == i && |r.1| == |ys|
    ensures forall j, k :: 0 <= j < |ys| && 0 <= k < |zs| ==>
      |r.1[j]| == |zs| && r.1[j][k] == LookupCell(tool, Vec3(xs[i] as real, ys[j] as real, zs[k] as real))
  {
    (i, seq(|ys|, j requires 0 <= j < |ys| =>
          seq(|zs|, k requires 0 <= k < |zs| => LookupCell(tool, Vec3(xs[i] as real, ys[j] as real, zs[k] as real)))))
  }

  /** Lines 73-74: `reproLookup[i] = slice` for each returned pair, in the
      order the results arrive. */
  function Assemble(table: seq<Slice>, results: seq<(int, Slice)>): (r: seq<Slice>)
    requires forall k :: 0 <= k < |results| ==> 0 <= results[k].0 < |table|
    ensures |r| == |table|
    decreases |results|
  {
    if |results| == 0 then table
    else Assemble(table[results[0].0 := results[0].1], results[1..])
  }

  /** Every job is the pair (j, slice of j). */
  predicate IndexedJobs(jobs: seq<(int, Slice)>) {
    forall j :: 0 <= j < |jobs| ==> jobs[j].0 == j
  }

  /** Some result names slot `i`. */
  predicate Written(results: seq<(int, Slice)>, i: int) {
    exists k :: 0 <= k < |results| && results[k].0 == i
  }

  /** Writing any results drawn from the jobs: a slot some result names holds
      that job's slice; the others are untouched. */
  lemma {:induction false} AssembleFromJobs(table: seq<Slice>, results: seq<(int, Slice)>, jobs: seq<(int, Slice)>)
    requires |jobs| == |table| && IndexedJobs(jobs)
    requires forall k :: 0 <= k < |results| ==> results[k] in jobs
    ensures forall k :: 0 <= k < |results| ==> 0 <= results[k].0 < |table|
    ensures forall i :: 0 <= i < |table| ==>
      Assemble(table, results)[i] == if Written(results, i) then jobs[i].1 else table[i]
    decreases |results|
  {
    forall k | 0 <= k < |results|
      ensures 0 <= results[k].0 < |table| && results[k] == jobs[results[k].0]
    {
      var j :| 0 <= j < |jobs| && jobs[j] == results[k];
    }
    if |results| > 0 {
      var head := results[0];
      var next := table[head.0 := head.1];
      var rest := results[1..];
      assert forall k :: 0 <= k < |rest| ==> rest[k] in jobs by {
        forall k | 0 <= k < |rest| ensures rest[k] in jobs { assert rest[k] == results[k + 1]; }
      }
      AssembleFromJobs(next, rest, jobs);
      forall i | 0 <= i < |table|
        ensures Assemble(table, results)[i] == if Written(results, i) then jobs[i].1 else table[i]
      {
        if Written(rest, i) {
          var k :| 0 <= k < |rest| && rest[k].0 == i;
          assert results[k + 1].0 == i;
        } else if head.0 == i {
          assert results[0].0 == i;
        }
      }
    }
  }

  /** However the parallel results are ordered, assembling them gives slice
      `i` at index `i`. */
  lemma AssembleOrderIndependent(table: seq<Slice>, results: seq<(int, Slice)>, jobs: seq<(int, Slice)>)
    requires |jobs| == |table| && IndexedJobs(jobs)
    requires multiset(results) == multiset(jobs)
    ensures forall k :: 0 <= k < |results| ==> 0 <= results[k].0 < |table|
    ensures Assemble(table, results) == seq(|jobs|, i requires 0 <= i < |jobs| => jobs[i].1)
  {
    forall k | 0 <= k < |results|
      ensures results[k] in jobs
    {
      assert results[k] in multiset(results);
    }
    AssembleFromJobs(table, results, jobs);
    var r := Assemble(table, results);
    var want := seq(|jobs|, i requires 0 <= i < |jobs| => jobs[i].1);
    forall i | 0 <= i < |table|
      ensures r[i] == want[i]
    {
      assert jobs[i] in multiset(results);
      var k :| 0 <= k < |results| && results[k] == jobs[i];
      assert Written(results, i);
    }
  }

  datatype LookupError = ZeroSpacing

  /** The zero-initialised table of shape (|xs|, |ys|, |zs|, cameras), line 60. */
  function ZeroTable(nx: nat, ny: nat, nz: nat, cameras: nat): seq<Slice> {
    seq(nx, i => seq(ny, j => seq(nz, k => seq(cameras, c => 0))))
  }

  /** The parallel jobs in submission order, `range(len(x))` (line 72). */
  function Jobs(tool: ReproTool, xs: seq<int>, ys: seq<int>, zs: seq<int>): (jobs: seq<(int, Slice)>)
    ensures |jobs| == |xs| && IndexedJobs(jobs)
    ensures forall i :: 0 <= i < |xs| ==> jobs[i] == ParallelRepro(tool, xs, ys, zs, i)
  {
    seq(|xs|, i requires 0 <= i < |xs| => ParallelRepro(tool, xs, ys, zs, i))
  }

  /** World point `(x0 + i*s, y0 + j*s, z0 + k*s)` of the lattice. */
  function LatticePoint(gx: Range, gy: Range, gz: Range, spacing: int, i: int, j: int, k: int): Vec3 {
    Vec3((gx.start + i * spacing) as real, (gy.start + j * spacing) as real, (gz.start + k * spacing) as real)
  }

  /** The table assembled from the jobs in submission order. */
  function Table(tool: ReproTool, gx: Range, gy: Range, gz: Range, spacing: int): seq<Slice>
    requires spacing != 0
  {
    var xs := Arange(gx.start, gx.stop, spacing).value;
    var ys := Arange(gy.start, gy.stop, spacing).value;
    var zs := Arange(gz.start, gz.stop, spacing).value;
    Assemble(ZeroTable(|xs|, |ys|, |zs|, tool.numCameras), Jobs(tool, xs, ys, zs))
  }

  /** `t` is the lattice table: `|ys|`-by-`|zs|` slices, one per x, whose
      entry `[i][j][k]` is the cell of world point `LatticePoint(.., i, j, k)`. */
  predicate IsLatticeTable(t: seq<Slice>, tool: ReproTool, gx: Range, gy: Range, gz: Range, spacing: int)
    requires spacing != 0
  {
    |t| == ArangeLen(gx.start, gx.stop, spacing) &&
    forall i, j, k ::
      0 <= i < |t| && 0 <= j < ArangeLen(gy.start, gy.stop, spacing) && 0 <= k < ArangeLen(gz.start, gz.stop, spacing) ==>
        |t[i]| == ArangeLen(gy.start, gy.stop, spacing) &&
        |t[i][j]| == ArangeLen(gz.start, gz.stop, spacing) &&
        t[i][j][k] == LookupCell(tool, LatticePoint(gx, gy, gz, spacing, i, j, k))
  }

  /** `_create_lookup` (lines 56-76): entry `[i][j][k]` holds, per camera, the
      flattened index of world point `(x0 + i*s, y0 + j*s, z0 + k*s)`. */
  function CreateLookup(tool: ReproTool, gx: Range, gy: Range, gz: Range, spacing: int): (r: Result<seq<Slice>, LookupError>)
    requires ValidTool(tool)
    ensures r.Failure? <==> spacing == 0
    ensures r.Success? ==> IsLatticeTable(r.value, tool, gx, gy, gz, spacing)
  {
    if spacing == 0 then Failure(ZeroSpacing)
    else
      LatticeCells(tool, gx, gy, gz, spacing);
      Success(Table(tool, gx, gy, gz, spacing))
  }

  /** Assembling the jobs in submission order gives, at `[i][j][k]`, the cell
      of lattice point `(xs[i], ys[j], zs[k])`. */
  lemma AssembledCells(tool: ReproTool, xs: seq<int>, ys: seq<int>, zs: seq<int>)
    ensures var t := Assemble(ZeroTable(|xs|, |ys|, |zs|, tool.numCameras), Jobs(tool, xs, ys, zs));
      |t| == |xs| &&
      forall i :: 0 <= i < |xs| ==> t[i] == ParallelRepro(tool, xs, ys, zs, i).1
  {
    var zero := ZeroTable(|xs|, |ys|, |zs|, tool.numCameras);
    var jobs := Jobs(tool, xs, ys, zs);
    AssembleOrderIndependent(zero, jobs, jobs);
  }

  /** One cell of the table. */
  lemma LatticeCell(tool: ReproTool, gx: Range, gy: Range, gz: Range, spacing: int, i: int, j: int, k: int)
    requires spacing != 0
    requires 0 <= i < ArangeLen(gx.start, gx.stop, spacing)
    requires 0 <= j < ArangeLen(gy.start, gy.stop, spacing)
    requires 0 <= k < ArangeLen(gz.start, gz.stop, spacing)
    ensures var t := Table(tool, gx, gy, gz, spacing);
      |t| == ArangeLen(gx.start, gx.stop, spacing) &&
      |t[i]| == ArangeLen(gy.start, gy.stop, spacing) &&
      |t[i][j]| == ArangeLen(gz.start, gz.stop, spacing) &&
      t[i][j][k] == LookupCell(tool, LatticePoint(gx, gy, gz, spacing, i, j, k))
  {
    var xs := Arange(gx.start, gx.stop, spacing).value;
    var ys := Arange(gy.start, gy.stop, spacing).value;
    var zs := Arange(gz.start, gz.stop, spacing).value;
    AssembledCells(tool, xs, ys, zs);
    var slice := ParallelRepro(tool, xs, ys, zs, i).1;
    assert Table(tool, gx, gy, gz, spacing)[i] == slice;
    assert slice[j][k] == LookupCell(tool, Vec3(xs[i] as real, ys[j] as real, zs[k] as real));
    assert xs[i] == gx.start + i * spacing && ys[j] == gy.start + j * spacing && zs[k] == gz.start + k * spacing;
  }

  lemma LatticeCells(tool: ReproTool, gx: Range, gy: Range, gz: Range, spacing: int)
    requires spacing != 0
    ensures IsLatticeTable(Table(tool, gx, gy, gz, spacing), tool, gx, gy, gz, spacing)
  {
    var xs := Arange(gx.start, gx.stop, spacing).value;
    AssembledCells(tool, xs, Arange(gy.start, gy.stop, spacing).value, Arange(gz.start, gz.stop, spacing).value);
    forall i, j, k |
      0 <= i < ArangeLen(gx.start, gx.stop, spacing) &&
      0 <= j < ArangeLen(gy.start, gy.stop, spacing) && 0 <= k < ArangeLen(gz.start, gz.stop, spacing)
      ensures var t := Table(tool, gx, gy, gz, spacing);
        |t[i]| == ArangeLen(gy.start, gy.stop, spacing) &&
        |t[i][j]| == ArangeLen(gz.start, gz.stop, spacing) &&
        t[i][j][k] == LookupCell(tool, LatticePoint(gx, gy, gz, spacing, i, j, k))
    {
      LatticeCell(tool, gx, gy, gz, spacing, i, j, k);
    }
  }

  /** With a tool that keeps its promise, the table has the shape line 60
      allocates, `[len(x), len(y), len(z), num_cameras]`: every stored row
      fills a whole camera row of the zero table. */
  lemma LookupShape(tool: ReproTool, gx: Range, gy: Range, gz: Range, spacing: int, i: int, j: int, k: int)
    requires ValidTool(tool) && spacing != 0
    requires 0 <= i < ArangeLen(gx.start, gx.stop, spacing)
    requires 0 <= j < ArangeLen(gy.start, gy.stop, spacing)
    requires 0 <= k < ArangeLen(gz.start, gz.stop, spacing)
    ensures var t := CreateLookup(tool, gx, gy, gz, spacing).value;
      && |t| == ArangeLen(gx.start, gx.stop, spacing)
      && |t[i]| == ArangeLen(gy.start, gy.stop, spacing)
      && |t[i][j]| == ArangeLen(gz.start, gz.stop, spacing)
      && |t[i][j][k]| == tool.numCameras
  {
    LatticeCell(tool, gx, gy, gz, spacing, i, j, k);
  }

  /** The table does not depend on the order in which the workers finish. */
  lemma LookupOrderIndependent(tool: ReproTool, gx: Range, gy: Range, gz: Range, spacing: int, results: seq<(int, Slice)>)
    requires ValidTool(tool) && spacing != 0
    requires var xs := Arange(gx.start, gx.stop, spacing).value;
             multiset(results) == multiset(Jobs(tool, xs, Arange(gy.start, gy.stop, spacing).value,
                                                Arange(gz.start, gz.stop, spacing).value))
    ensures forall k :: 0 <= k < |results| ==> 0 <= results[k].0 < ArangeLen(gx.start, gx.stop, spacing)
    ensures CreateLookup(tool, gx, gy, gz, spacing).value ==
      Assemble(ZeroTable(ArangeLen(gx.start, gx.stop, spacing), ArangeLen(gy.start, gy.stop, spacing),
                         ArangeLen(gz.start, gz.stop, spacing), tool.numCameras), results)
  {
    var xs := Arange(gx.start, gx.stop, spacing).value;
    var ys := Arange(gy.start, gy.stop, spacing).value;
    var zs := Arange(gz.start, gz.stop, spacing).value;
    var zero := ZeroTable(|xs|, |ys|, |zs|, tool.numCameras);
    var jobs := Jobs(tool, xs, ys, zs);
    AssembleOrderIndependent(zero, jobs, jobs);
    AssembleOrderIndependent(zero, results, jobs);
  }
}
