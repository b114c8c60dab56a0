/** The sampling grid of the reprojection layer (repro_layer_2.py, lines 29-45
    and 108): an R x R x R cube of offsets, filled by a triple loop that indexes
    the cube with Python's negative indices, scaled by the grid spacing, and
    moved to a new centre by one broadcast add. */
module SamplingGrid {
  import opened Wrappers
  import opened Geometry
  import Floats

  datatype GridError = ZeroSpacing | NegativeGridSize

  /** `int(ROI_CUBE_SIZE / GRID_SPACING)`: a true division truncated toward
      zero. A zero spacing raises, and a negative size is refused by
      `torch.zeros`. */
  function GridSize(cubeSize: int, spacing: int): (r: Result<nat, GridError>)
    ensures r.Failure? <==> spacing == 0 || (cubeSize as real) / (spacing as real) <= -1.0
    ensures r.Success? ==> (r.value as real) - 1.0 < (cubeSize as real) / (spacing as real) < (r.value as real) + 1.0
    ensures r.Success? && (cubeSize as real) / (spacing as real) >= 0.0 ==>
      (r.value as real) <= (cubeSize as real) / (spacing as real)
  {
    if spacing == 0 then Failure(ZeroSpacing)
    else
      var x := (cubeSize as real) / (spacing as real);
      var q := Floats.Trunc(x);
      assert q < 0 <==> x <= -1.0 by {
        if x < 0.0 { assert q as real - 1.0 < x <= q as real; }
      }
      assert q >= 0 ==> (q as real) - 1.0 < x < (q as real) + 1.0 by {
        if x < 0.0 { assert q as real - 1.0 < x <= q as real; }
      }
      if q < 0 then Failure(NegativeGridSize) else Success(q)
  }

  lemma HalfFloor(n: nat)
    ensures ((n as real) / 2.0).Floor == n / 2
  {
    var h := n / 2;
    assert n == 2 * h || n == 2 * h + 1;
    assert (h as real) <= (n as real) / 2.0 < (h as real) + 1.0;
  }

  /** First loop index, `-(R/2)`. */
  function Lo(size: nat): int {
    -(size / 2)
  }

  /** Loop bound `R/2` (exclusive). */
  function Hi(size: nat): int {
    size / 2
  }

  /** The loop bounds are the source's `int(-grid_size/2)` and
      `int(grid_size/2)`: true divisions truncated toward zero, which for an odd
      size gives `-(R-1)/2` rather than the floor `-(R+1)/2`. */
  lemma LoopBoundsTruncate(size: nat)
    ensures Lo(size) == Floats.Trunc(-(size as real) / 2.0)
    ensures Hi(size) == Floats.Trunc((size as real) / 2.0)
  {
    HalfFloor(size);
    if size > 0 {
      assert -(size as real) / 2.0 == -((size as real) / 2.0);
    }
  }

  /** Python indexing: a negative index `i` addresses storage slot `i + size`. */
  function Wrap(size: nat, i: int): int {
    if i < 0 then i + size else i
  }

  /** The only loop index that can land in storage slot `n`. */
  function Pre(size: nat, n: int): int {
    if n < Hi(size) then n else n - size
  }

  /** Along one axis the loop index `i` lands in slot `n` exactly when `i` is
      `Pre(n)`: no two loop indices share a slot. */
  lemma WrapPre(size: nat, i: int, n: int)
    requires Lo(size) <= i < Hi(size) && 0 <= n < size
    ensures 0 <= Wrap(size, i) < size
    ensures Wrap(size, i) == n <==> i == Pre(size, n)
  {
  }

  /** Slot `n` is written by some loop index in `[from, to)` (a sub-range of
      the loop's range). */
  predicate Hit(size: nat, n: int, from: int, to: int) {
    from <= Pre(size, n) < to
  }

  function Index(i: int, j: int, k: int): Vec3 {
    Vec3(i as real, j as real, k as real)
  }

  const Origin := Vec3(0.0, 0.0, 0.0)

  /** `torch.zeros((R, R, R, 3))` */
  function Zeros(size: nat): (z: Cube<Vec3>)
    ensures IsCube(z, size)
  {
    BuildCube(size, (a, b, c) => Origin)
  }

  /** Innermost loop (line 42-43): `grid[i, j, k] = [i, j, k]` for `k` from `k0`. */
  function WriteK(size: nat, cube: Cube<Vec3>, i: int, j: int, k: int): (r: Cube<Vec3>)
    requires IsCube(cube, size)
    requires Lo(size) <= i < Hi(size) && Lo(size) <= j < Hi(size) && Lo(size) <= k <= Hi(size)
    ensures IsCube(r, size)
    decreases Hi(size) - k
  {
    if k == Hi(size) then cube
    else
      WriteK(size, Set3(cube, size, Wrap(size, i), Wrap(size, j), Wrap(size, k), Index(i, j, k)), i, j, k + 1)
  }

  /** Middle loop (line 41), for `j` from `j0`. */
  function WriteJ(size: nat, cube: Cube<Vec3>, i: int, j: int): (r: Cube<Vec3>)
    requires IsCube(cube, size)
    requires Lo(size) <= i < Hi(size) && Lo(size) <= j <= Hi(size)
    ensures IsCube(r, size)
    decreases Hi(size) - j
  {
    if j == Hi(size) then cube
    else WriteJ(size, WriteK(size, cube, i, j, Lo(size)), i, j + 1)
  }

  /** Outer loop (line 40), for `i` from `i0`. */
  function WriteI(size: nat, cube: Cube<Vec3>, i: int): (r: Cube<Vec3>)
    requires IsCube(cube, size)
    requires Lo(size) <= i <= Hi(size)
    ensures IsCube(r, size)
    decreases Hi(size) - i
  {
    if i == Hi(size) then cube
    else WriteI(size, WriteJ(size, cube, i, Lo(size)), i + 1)
  }

  /** The cube after the triple loop, before scaling (lines 39-43). */
  function Layout(size: nat): (r: Cube<Vec3>)
    ensures IsCube(r, size)
  {
    WriteI(size, Zeros(size), Lo(size))
  }

  /** The stored offsets, `grid * grid_spacing` (line 45). */
  function Grid(size: nat, spacing: int): (r: Cube<Vec3>)
    ensures IsCube(r, size)
    ensures forall a, b, c :: 0 <= a < size && 0 <= b < size && 0 <= c < size ==>
      r[a][b][c] == Scale(Layout(size)[a][b][c], spacing as real)
  {
    MapCube(Layout(size), size, v => Scale(v, spacing as real))
  }

  /** `self.grid + center` (line 108). */
  function Recenter(grid: Cube<Vec3>, size: nat, center: Vec3): (r: Cube<Vec3>)
    requires IsCube(grid, size)
    ensures IsCube(r, size)
    ensures forall a, b, c :: 0 <= a < size && 0 <= b < size && 0 <= c < size ==>
      Sub(r[a][b][c], center) == grid[a][b][c]
  {
    MapCube(grid, size, v => Add(v, center))
  }

  // ---------------------------------------------------------------------------
  // What the triple loop leaves in each cell.

  /** Cell (a, b, c) after the innermost loop has run from `k` on. */
  function AfterK(size: nat, cube: Cube<Vec3>, i: int, j: int, k: int, a: int, b: int, c: int): Vec3
    requires IsCube(cube, size) && 0 <= a < size && 0 <= b < size && 0 <= c < size
  {
    if a == Wrap(size, i) && b == Wrap(size, j) && Hit(size, c, k, Hi(size))
    then Index(i, j, Pre(size, c)) else cube[a][b][c]
  }

  /** Cell (a, b, c) after the middle loop has run from `j` on. */
  function AfterJ(size: nat, cube: Cube<Vec3>, i: int, j: int, a: int, b: int, c: int): Vec3
    requires IsCube(cube, size) && 0 <= a < size && 0 <= b < size && 0 <= c < size
  {
    if a == Wrap(size, i) && Hit(size, b, j, Hi(size)) && Hit(size, c, Lo(size), Hi(size))
    then Index(i, Pre(size, b), Pre(size, c)) else cube[a][b][c]
  }

  /** Cell (a, b, c) after the outer loop has run from `i` on. */
  function AfterI(size: nat, cube: Cube<Vec3>, i: int, a: int, b: int, c: int): Vec3
    requires IsCube(cube, size) && 0 <= a < size && 0 <= b < size && 0 <= c < size
  {
    if Hit(size, a, i, Hi(size)) && Hit(size, b, Lo(size), Hi(size)) && Hit(size, c, Lo(size), Hi(size))
    then Index(Pre(size, a), Pre(size, b), Pre(size, c)) else cube[a][b][c]
  }

  lemma {:induction false} WriteKCells(size: nat, cube: Cube<Vec3>, i: int, j: int, k: int)
    requires IsCube(cube, size)
    requires Lo(size) <= i < Hi(size) && Lo(size) <= j < Hi(size) && Lo(size) <= k <= Hi(size)
    ensures forall a, b, c :: 0 <= a < size && 0 <= b < size && 0 <= c < size ==>
      WriteK(size, cube, i, j, k)[a][b][c] == AfterK(size, cube, i, j, k, a, b, c)
    decreases Hi(size) - k
  {
    if k < Hi(size) {
      var next := Set3(cube, size, Wrap(size, i), Wrap(size, j), Wrap(size, k), Index(i, j, k));
      WriteKCells(size, next, i, j, k + 1);
      assert WriteK(size, cube, i, j, k) == WriteK(size, next, i, j, k + 1);
      forall a, b, c | 0 <= a < size && 0 <= b < size && 0 <= c < size
        ensures WriteK(size, cube, i, j, k)[a][b][c] == AfterK(size, cube, i, j, k, a, b, c)
      {
        WrapPre(size, k, c);
        assert WriteK(size, cube, i, j, k)[a][b][c] == AfterK(size, next, i, j, k + 1, a, b, c);
      }
    }
  }

  lemma {:induction false} WriteJCells(size: nat, cube: Cube<Vec3>, i: int, j: int)
    requires IsCube(cube, size)
    requires Lo(size) <= i < Hi(size) && Lo(size) <= j <= Hi(size)
    ensures forall a, b, c :: 0 <= a < size && 0 <= b < size && 0 <= c < size ==>
      WriteJ(size, cube, i, j)[a][b][c] == AfterJ(size, cube, i, j, a, b, c)
    decreases Hi(size) - j
  {
    if j < Hi(size) {
      var next := WriteK(size, cube, i, j, Lo(size));
      WriteKCells(size, cube, i, j, Lo(size));
      WriteJCells(size, next, i, j + 1);
      assert WriteJ(size, cube, i, j) == WriteJ(size, next, i, j + 1);
      forall a, b, c | 0 <= a < size && 0 <= b < size && 0 <= c < size
        ensures WriteJ(size, cube, i, j)[a][b][c] == AfterJ(size, cube, i, j, a, b, c)
      {
        WrapPre(size, j, b);
        assert WriteJ(size, cube, i, j)[a][b][c] == AfterJ(size, next, i, j + 1, a, b, c);
        assert next[a][b][c] == AfterK(size, cube, i, j, Lo(size), a, b, c);
      }
    }
  }

  lemma {:induction false} WriteICells(size: nat, cube: Cube<Vec3>, i: int)
    requires IsCube(cube, size)
    requires Lo(size) <= i <= Hi(size)
    ensures forall a, b, c :: 0 <= a < size && 0 <= b < size && 0 <= c < size ==>
      WriteI(size, cube, i)[a][b][c] == AfterI(size, cube, i, a, b, c)
    decreases Hi(size) - i
  {
    if i < Hi(size) {
      var next := WriteJ(size, cube, i, Lo(size));
      WriteJCells(size, cube, i, Lo(size));
      WriteICells(size, next, i + 1);
      assert WriteI(size, cube, i) == WriteI(size, next, i + 1);
      forall a, b, c | 0 <= a < size && 0 <= b < size && 0 <= c < size
        ensures WriteI(size, cube, i)[a][b][c] == AfterI(size, cube, i, a, b, c)
      {
        WrapPre(size, i, a);
        assert WriteI(size, cube, i)[a][b][c] == AfterI(size, next, i + 1, a, b, c);
        assert next[a][b][c] == AfterJ(size, cube, i, Lo(size), a, b, c);
      }
    }
  }

  /** A cell holds its three loop indices when every axis slot of it is
      written, and stays the zero vector otherwise. */
  function LayoutCell(size: nat, a: int, b: int, c: int): Vec3 {
    if Hit(size, a, Lo(size), Hi(size)) && Hit(size, b, Lo(size), Hi(size)) && Hit(size, c, Lo(size), Hi(size))
    then Index(Pre(size, a), Pre(size, b), Pre(size, c)) else Origin
  }

  lemma LayoutCells(size: nat)
    ensures forall a, b, c :: 0 <= a < size && 0 <= b < size && 0 <= c < size ==>
      Layout(size)[a][b][c] == LayoutCell(size, a, b, c)
  {
    WriteICells(size, Zeros(size), Lo(size));
    forall a, b, c | 0 <= a < size && 0 <= b < size && 0 <= c < size
      ensures Layout(size)[a][b][c] == LayoutCell(size, a, b, c)
    {
      assert Layout(size)[a][b][c] == AfterI(size, Zeros(size), Lo(size), a, b, c);
    }
  }

  /** For an even grid size every storage slot along an axis is written by
      exactly one loop index, which is `n` for `n < R/2` and `n - R` above. */
  lemma AxisSlotWrittenOnce(size: nat, n: int)
    requires size % 2 == 0 && 0 <= n < size
    ensures Lo(size) <= Pre(size, n) < Hi(size)
    ensures Pre(size, n) == if n < size / 2 then n else n - size
    ensures forall i :: Lo(size) <= i < Hi(size) ==> (Wrap(size, i) == n <==> i == Pre(size, n))
  {
    forall i | Lo(size) <= i < Hi(size)
      ensures Wrap(size, i) == n <==> i == Pre(size, n)
    {
      WrapPre(size, i, n);
    }
  }

  /** The signed offset stored in slot `n` of an axis of even size `R`: `n`
      below `R/2` and `n - R` from `R/2` on. */
  function Centred(size: nat, n: int): int {
    if n < size / 2 then n else n - size
  }

  lemma EvenGridCell(size: nat, spacing: int, a: int, b: int, c: int)
    requires size % 2 == 0
    requires 0 <= a < size && 0 <= b < size && 0 <= c < size
    requires Layout(size)[a][b][c] == LayoutCell(size, a, b, c)
    ensures Layout(size)[a][b][c] == Index(Centred(size, a), Centred(size, b), Centred(size, c))
  {
    AxisSlotWrittenOnce(size, a);
    AxisSlotWrittenOnce(size, b);
    AxisSlotWrittenOnce(size, c);
  }

  /** For an even grid size the stored grid is the centred lattice in
      wrap-around order: slot `n` holds offset `n` below `R/2` and `n - R` from
      `R/2` on, times the spacing. */
  lemma {:induction false} EvenGridLayout(size: nat, spacing: int)
    requires size % 2 == 0
    ensures forall a, b, c :: 0 <= a < size && 0 <= b < size && 0 <= c < size ==>
      Grid(size, spacing)[a][b][c] == Scale(Index(Centred(size, a), Centred(size, b), Centred(size, c)), spacing as real)
  {
    LayoutCells(size);
    forall a, b, c | 0 <= a < size && 0 <= b < size && 0 <= c < size
      ensures Grid(size, spacing)[a][b][c] == Scale(Index(Centred(size, a), Centred(size, b), Centred(size, c)), spacing as real)
    {
      EvenGridCell(size, spacing, a, b, c);
    }
  }

  /** For an odd grid size the loops stop one short: slot `R/2` of each axis is
      never written, so every cell with that slot keeps the zero vector. */
  lemma {:induction false} OddGridLeavesSlot(size: nat, spacing: int)
    requires size % 2 == 1
    ensures forall i :: Lo(size) <= i < Hi(size) ==> Wrap(size, i) != size / 2
    ensures forall b, c :: 0 <= b < size && 0 <= c < size ==>
      && Grid(size, spacing)[size / 2][b][c] == Origin
      && Grid(size, spacing)[b][size / 2][c] == Origin
      && Grid(size, spacing)[b][c][size / 2] == Origin
  {
    LayoutCells(size);
    forall i | Lo(size) <= i < Hi(size)
      ensures Wrap(size, i) != size / 2
    {
      WrapPre(size, i, size / 2);
    }
    var h := size / 2;
    assert !Hit(size, h, Lo(size), Hi(size));
    forall b, c | 0 <= b < size && 0 <= c < size
      ensures && Grid(size, spacing)[h][b][c] == Origin
              && Grid(size, spacing)[b][h][c] == Origin
              && Grid(size, spacing)[b][c][h] == Origin
    {
      assert Layout(size)[h][b][c] == LayoutCell(size, h, b, c);
      assert Layout(size)[b][h][c] == LayoutCell(size, b, h, c);
      assert Layout(size)[b][c][h] == LayoutCell(size, b, c, h);
    }
  }

  /** Recentering is a pure translation: moving the same grid to two centres
      shifts every cell by the difference of the centres. */
  lemma RecenterTranslates(grid: Cube<Vec3>, size: nat, c1: Vec3, c2: Vec3)
    requires IsCube(grid, size)
    ensures forall a, b, c :: 0 <= a < size && 0 <= b < size && 0 <= c < size ==>
      Sub(Recenter(grid, size, c2)[a][b][c], Recenter(grid, size, c1)[a][b][c]) == Sub(c2, c1)
  {
  }
}
