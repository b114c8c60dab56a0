/** The guards of `draw_line` and `draw_point` in
    jarvis/visualization/visualization_utils.py: when a skeleton line or a
    keypoint is drawn, what is drawn, and when the guard itself raises. The
    OpenCV calls become the command that would be issued. */
module Visualization {
  import opened Wrappers
  import opened Floats

  /** A row of `points2D`: a 2D point with float coordinates. */
  datatype Point2 = Point2(x: Float, y: Float)

  /** An image size `(width, height)` as `img_size` holds it. */
  datatype Size = Size(width: int, height: int)

  /** The OpenCV call a guard lets through. */
  datatype Command =
    | Line(fromX: int, fromY: int, toX: int, toY: int, thickness: int)
    | Circle(centerX: int, centerY: int, radius: int, thickness: int)

  /** The exceptions a guard can raise: a skeleton index out of range, and
      `int()` of an infinity or NaN. */
  datatype PyError = IndexError | OverflowError | ValueError

  /** What a call does: nothing, one drawing command, or an exception. */
  datatype Drawing = Skipped | Drawn(cmd: Command) | Raised(error: PyError)

  /** The double nearest to 0.6, which the literal `0.6` denotes. */
  const SixTenths: real := 0.59999999999999997779553950749686919152736663818359375

  /** All coordinates of `points2D` in row order, as `np.array` flattens them. */
  function Coords(points: seq<Point2>): (r: seq<Float>)
    ensures |r| == 2 * |points|
    ensures forall i :: 0 <= i < |points| ==> r[2 * i] == points[i].x && r[2 * i + 1] == points[i].y
  {
    if |points| == 0 then [] else [points[0].x, points[0].y] + Coords(points[1..])
  }

  /** Python list indexing: a negative index counts from the end. */
  function PyIndex(n: nat, i: int): (r: Option<nat>)
    ensures r.Some? <==> -(n as int) <= i < n
    ensures r.Some? ==> r.value < n && r.value as int == (if i < 0 then i + n else i)
  {
    if 0 <= i < n then Some(i) else if -(n as int) <= i < 0 then Some((i + n) as nat) else None
  }

  /** `int(f)`: truncation toward zero; an infinity overflows and NaN is not
      a number. */
  function PyInt(f: Float): (r: Result<int, PyError>)
    ensures r.Success? <==> f.Finite?
    ensures r.Success? ==> r.value == Trunc(f.r)
  {
    match f
    case Finite(v) => Success(Trunc(v))
    case PosInf => Failure(OverflowError)
    case NegInf => Failure(OverflowError)
    case NaN => Failure(ValueError)
  }

  /** One comparison of the `and` chain: endpoint `end` (0 or 1) of the line,
      coordinate `axis` (0 for x, 1 for y), against the upper bound `size - 1`
      or the lower bound 0. */
  datatype Check = Check(end: nat, axis: nat, upper: bool)

  /** The eight comparisons in the order `draw_line` evaluates them. */
  const LineChecks: seq<Check> := [
    Check(0, 0, true), Check(0, 0, false), Check(1, 0, true), Check(1, 0, false),
    Check(0, 1, true), Check(0, 1, false), Check(1, 1, true), Check(1, 1, false)]

  function Coord(p: Point2, axis: nat): Float {
    if axis == 0 then p.x else p.y
  }

  function Extent(size: Size, axis: nat): int {
    if axis == 0 then size.width else size.height
  }

  /** Evaluating one comparison: index the points, truncate, compare. */
  function Evaluate(points: seq<Point2>, line: (int, int), size: Size, c: Check): Result<bool, PyError> {
    match PyIndex(|points|, if c.end == 0 then line.0 else line.1)
    case None => Failure(IndexError)
    case Some(k) =>
      match PyInt(Coord(points[k], c.axis))
      case Failure(e) => Failure(e)
      case Success(v) => Success(if c.upper then v < Extent(size, c.axis) - 1 else v > 0)
  }

  /** Short-circuit `and` over the comparisons: the first false one stops the
      chain, and so does the first exception. */
  function Chain(points: seq<Point2>, line: (int, int), size: Size, checks: seq<Check>): (r: Result<bool, PyError>)
    ensures r == Success(true) <==>
            forall i :: 0 <= i < |checks| ==> Evaluate(points, line, size, checks[i]) == Success(true)
  {
    if |checks| == 0 then Success(true)
    else
      match Evaluate(points, line, size, checks[0])
      case Failure(e) => Failure(e)
      case Success(b) => if !b then Success(false) else Chain(points, line, size, checks[1..])
  }

  /** Endpoint `idx` exists and its truncated coordinates lie strictly inside
      the image: neither 0 nor `size - 1` is accepted. */
  predicate EndInside(points: seq<Point2>, idx: int, size: Size) {
    PyIndex(|points|, idx).Some? &&
    var p := points[PyIndex(|points|, idx).value];
    p.x.Finite? && p.y.Finite? &&
    0 < Trunc(p.x.r) < size.width - 1 && 0 < Trunc(p.y.r) < size.height - 1
  }

  /** The truncated coordinates of an endpoint that exists and is finite. */
  function Pixel(points: seq<Point2>, idx: int): (int, int)
    requires PyIndex(|points|, idx).Some?
    requires points[PyIndex(|points|, idx).value].x.Finite? && points[PyIndex(|points|, idx).value].y.Finite?
  {
    var p := points[PyIndex(|points|, idx).value];
    (Trunc(p.x.r), Trunc(p.y.r))
  }

  /** `draw_line`: skipped when the sum of all points is NaN, otherwise the
      comparison chain decides, and a line of thickness 1 joins the two
      truncated endpoints. */
  function DrawLine(points: seq<Point2>, line: (int, int), size: Size): (r: Drawing)
    ensures r.Drawn? ==> EndInside(points, line.0, size) && EndInside(points, line.1, size)
  {
    if SumAll(Coords(points)).NaN? then Skipped
    else
      var chain := Chain(points, line, size, LineChecks);
      match chain
      case Failure(e) => Raised(e)
      case Success(b) =>
        if !b then Skipped
        else
          ChainInside(points, line, size);
          var a := Pixel(points, line.0);
          var z := Pixel(points, line.1);
          Drawn(Line(a.0, a.1, z.0, z.1, 1))
  }

  /** The chain passes exactly when both endpoints are strictly inside. */
  lemma ChainInside(points: seq<Point2>, line: (int, int), size: Size)
    ensures Chain(points, line, size, LineChecks) == Success(true) <==>
            EndInside(points, line.0, size) && EndInside(points, line.1, size)
  {
    var ev := (c: Check) => Evaluate(points, line, size, c);
    assert LineChecks[0] == Check(0, 0, true) && LineChecks[1] == Check(0, 0, false);
    assert LineChecks[2] == Check(1, 0, true) && LineChecks[3] == Check(1, 0, false);
    assert LineChecks[4] == Check(0, 1, true) && LineChecks[5] == Check(0, 1, false);
    assert LineChecks[6] == Check(1, 1, true) && LineChecks[7] == Check(1, 1, false);
    assert EndInside(points, line.0, size) <==>
           ev(Check(0, 0, true)) == Success(true) && ev(Check(0, 0, false)) == Success(true) &&
           ev(Check(0, 1, true)) == Success(true) && ev(Check(0, 1, false)) == Success(true);
    assert EndInside(points, line.1, size) <==>
           ev(Check(1, 0, true)) == Success(true) && ev(Check(1, 0, false)) == Success(true) &&
           ev(Check(1, 1, true)) == Success(true) && ev(Check(1, 1, false)) == Success(true);
  }

  /** A line is drawn exactly when the points' sum is not NaN and both
      endpoints are strictly inside, and then it joins their truncated
      coordinates with thickness 1. */
  lemma DrawLineIff(points: seq<Point2>, line: (int, int), size: Size)
    ensures DrawLine(points, line, size).Drawn? <==>
            !SumAll(Coords(points)).NaN? && EndInside(points, line.0, size) && EndInside(points, line.1, size)
    ensures DrawLine(points, line, size).Drawn? ==>
            DrawLine(points, line, size).cmd ==
              Line(Pixel(points, line.0).0, Pixel(points, line.0).1,
                   Pixel(points, line.1).0, Pixel(points, line.1).1, 1)
  {
    ChainInside(points, line, size);
  }

  /** Any NaN coordinate anywhere in `points2D` suppresses the line, even one
      on a point the line does not use, and so do a `+inf` and a `-inf`
      together; the guard never raises then. */
  lemma NaNSuppressesLine(points: seq<Point2>, line: (int, int), size: Size)
    ensures HasNaN(Coords(points)) ==> DrawLine(points, line, size) == Skipped
    ensures HasPosInf(Coords(points)) && HasNegInf(Coords(points)) ==> DrawLine(points, line, size) == Skipped
  {
    SumIsNaN(Coords(points));
  }

  /** `draw_line` raises only on a bad skeleton index or an infinite
      endpoint coordinate that the chain reaches; `int()` of NaN is never
      reached. */
  lemma LineRaisesOnlyOnBadEndpoint(points: seq<Point2>, line: (int, int), size: Size)
    ensures DrawLine(points, line, size).Raised? ==> DrawLine(points, line, size).error != ValueError
    ensures DrawLine(points, line, size).Raised? ==>
              !EndInside(points, line.0, size) || !EndInside(points, line.1, size)
  {
    var c := Coords(points);
    SumIsNaN(c);
    ChainInside(points, line, size);
    if DrawLine(points, line, size).Raised? {
      ChainNoValueError(points, line, size, LineChecks);
    }
  }

  /** Without NaN among the points, no comparison of the chain meets a NaN. */
  lemma {:induction false} ChainNoValueError(points: seq<Point2>, line: (int, int), size: Size, checks: seq<Check>)
    requires !HasNaN(Coords(points))
    ensures Chain(points, line, size, checks) != Failure(ValueError)
  {
    if |checks| > 0 {
      var c := checks[0];
      match PyIndex(|points|, if c.end == 0 then line.0 else line.1)
      case None =>
      case Some(k) =>
        assert Coords(points)[2 * k] == points[k].x && Coords(points)[2 * k + 1] == points[k].y;
        assert !Coord(points[k], c.axis).NaN?;
        ChainNoValueError(points, line, size, checks[1..]);
    }
  }

  /** The circle's thickness: 1 below a confidence of 0.6, else 3 (NaN
      compares false, so it gets 3). */
  function Thickness(confidence: Float): (t: int)
    ensures t == 1 || t == 3
    ensures t == 1 <==> confidence.NegInf? || (confidence.Finite? && confidence.r < SixTenths)
  {
    if Below(confidence, SixTenths) then 1 else 3
  }

  /** A more confident keypoint is never drawn thinner; the two extremes
      differ, and NaN, which compares false, is drawn like full confidence. */
  lemma ThicknessMonotone(c1: Float, c2: Float)
    requires AtMost(c1, c2)
    ensures Thickness(c1) <= Thickness(c2)
    ensures Thickness(NegInf) == 1 && Thickness(PosInf) == 3 && Thickness(NaN) == 3
  {
  }

  /** `draw_point`: skipped on a NaN sum; otherwise the raw coordinates must
      lie strictly inside the image, and a circle of radius 3 is drawn at the
      truncated point. */
  function DrawPoint(point: seq<Float>, size: Size, confidence: Float): (r: Drawing)
    ensures r.Drawn? ==> r.cmd.Circle? && r.cmd.radius == 3 && r.cmd.thickness == Thickness(confidence)
  {
    if SumAll(point).NaN? then Skipped
    else if |point| == 0 then Raised(IndexError)
    else if !Below(point[0], (size.width - 1) as real) || !Above(point[0], 0.0) then Skipped
    else if |point| == 1 then Raised(IndexError)
    else if !Below(point[1], (size.height - 1) as real) || !Above(point[1], 0.0) then Skipped
    else Drawn(Circle(Trunc(point[0].r), Trunc(point[1].r), 3, Thickness(confidence)))
  }

  /** A point is drawn exactly when the sum is not NaN and both raw
      coordinates lie strictly between 0 and `size - 1`; the circle sits at
      their truncations. */
  lemma DrawPointIff(point: seq<Float>, size: Size, confidence: Float)
    ensures DrawPoint(point, size, confidence).Drawn? <==>
            !SumAll(point).NaN? && |point| >= 2 &&
            point[0].Finite? && 0.0 < point[0].r < (size.width - 1) as real &&
            point[1].Finite? && 0.0 < point[1].r < (size.height - 1) as real
    ensures DrawPoint(point, size, confidence).Drawn? ==>
            DrawPoint(point, size, confidence).cmd ==
              Circle(Trunc(point[0].r), Trunc(point[1].r), 3, Thickness(confidence))
    ensures HasNaN(point) ==> DrawPoint(point, size, confidence) == Skipped
  {
    SumIsNaN(point);
  }

  /** The two guards disagree at the border: a keypoint at x = 0.5 is drawn,
      at pixel column 0, while a line ending there is not, because
      `draw_line` compares the truncated coordinate and `draw_point` the raw
      one. */
  lemma PointAndLineDisagreeAtBorder()
    ensures DrawPoint([Finite(0.5), Finite(5.0)], Size(10, 10), Finite(1.0)) == Drawn(Circle(0, 5, 3, 3))
    ensures DrawLine([Point2(Finite(0.5), Finite(5.0)), Point2(Finite(5.0), Finite(5.0))], (0, 1), Size(10, 10)) == Skipped
  {
    var points := [Point2(Finite(0.5), Finite(5.0)), Point2(Finite(5.0), Finite(5.0))];
    assert Coords(points) == [Finite(0.5), Finite(5.0), Finite(5.0), Finite(5.0)];
    assert !EndInside(points, 0, Size(10, 10));
    DrawLineIff(points, (0, 1), Size(10, 10));
    SumIsNaN(Coords(points));
    SumIsNaN([Finite(0.5), Finite(5.0)]);
  }
}
