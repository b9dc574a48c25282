/** The hard-coded mask of src/utils/maskData.ts: the six-vertex hexagon, its centre
    and bounds, and the helpers `pointInPolygon`, `generateTestPoints` and
    `polygonToPath`. */
module MaskData {
  import opened Geometry
  import Mask

  /** `DEFAULT_MASK_POINTS`: top centre, top right, bottom right, bottom centre,
      bottom left, top left. */
  const DefaultMaskPoints: seq<Point> := [
    Point(400.0, 150.0), Point(600.0, 250.0), Point(600.0, 450.0),
    Point(400.0, 550.0), Point(200.0, 450.0), Point(200.0, 250.0)
  ]

  /** `MASK_CENTER` */
  const MaskCenter: Point := Point(400.0, 350.0)

  /** `MASK_BOUNDS` */
  const MaskBounds: Bounds := Bounds(200.0, 600.0, 150.0, 550.0, 400.0, 400.0)

  /** The declared bounds are exactly the bounding box of the declared points. */
  lemma MaskBoundsIsBoxOfPoints()
    ensures BoxOf(DefaultMaskPoints) == MaskBounds
  {
    var pts := DefaultMaskPoints;
    assert pts[4].x == MaskBounds.minX && pts[1].x == MaskBounds.maxX;
    assert pts[0].y == MaskBounds.minY && pts[3].y == MaskBounds.maxY;
    assert IsBoxOf(pts, MaskBounds);
    IsBoxOfUnique(pts, BoxOf(pts), MaskBounds);
  }

  /** The declared centre is the centre of the declared bounds. */
  lemma MaskCenterIsBoundsCenter()
    ensures BoundsCenter(MaskBounds) == MaskCenter
  {
  }

  /** The declared centre lies inside the hexagon: of the six edges only the right
      side (vertex 1 to vertex 2) is crossed by the rightward ray. */
  lemma MaskCenterInside()
    ensures Mask.Inside(MaskCenter, DefaultMaskPoints)
  {
    var p, pts := MaskCenter, DefaultMaskPoints;
    assert !Mask.Crosses(p, pts[0], pts[5]);
    assert !Mask.Crosses(p, pts[1], pts[0]);
    assert Mask.Crosses(p, pts[2], pts[1]);
    assert !Mask.Crosses(p, pts[3], pts[2]);
    assert !Mask.Crosses(p, pts[4], pts[3]);
    assert !Mask.Crosses(p, pts[5], pts[4]);
    assert Mask.CrossingCount(p, pts, 6) == 1;
  }

  /** `pointInPolygon` of this file: the same loop as the one of src/utils/mask.ts. */
  method PointInPolygon(point: Point, polygon: seq<Point>) returns (inside: bool)
    ensures inside <==> Mask.Inside(point, polygon)
    ensures |polygon| == 0 ==> !inside
  {
    inside := Mask.PointInPolygon(point, polygon);
  }

  /** `polygonToPath` of this file: the same serialiser as the one of src/utils/mask.ts. */
  method PolygonToPath(points: seq<Point>, fmt: real -> string) returns (path: string)
    ensures path == Mask.Render(Mask.Commands(points), fmt)
    ensures |points| == 0 ==> path == ""
  {
    path := Mask.PolygonToPath(points, fmt);
  }

  function StepX(b: Bounds, density: nat): real
    requires density > 0
  {
    (b.maxX - b.minX) / density as real
  }

  function StepY(b: Bounds, density: nat): real
    requires density > 0
  {
    (b.maxY - b.minY) / density as real
  }

  /** The number of grid rows (or columns): none for an empty range, else one per step
      and one more for the end of the range. */
  function RowCount(b: Bounds, density: nat): nat {
    if b.minY > b.maxY then 0 else density + 1
  }

  function ColumnCount(b: Bounds, density: nat): nat {
    if b.minX > b.maxX then 0 else density + 1
  }

  /** The points of column `i`, in increasing y. */
  function Column(b: Bounds, density: nat, i: nat): (c: seq<Point>)
    requires density > 0
    ensures |c| == RowCount(b, density)
  {
    seq(RowCount(b, density), j requires 0 <= j < RowCount(b, density) =>
      Point(b.minX + i as real * StepX(b, density), b.minY + j as real * StepY(b, density)))
  }

  /** The first `k` columns, in x-major order. */
  function Columns(b: Bounds, density: nat, k: nat): (g: seq<Point>)
    requires density > 0
  {
    if k == 0 then [] else Columns(b, density, k - 1) + Column(b, density, k - 1)
  }

  /** What `generateTestPoints` returns when it terminates: every column in order. */
  function TestPoints(b: Bounds, density: nat): seq<Point>
    requires density > 0
  {
    Columns(b, density, ColumnCount(b, density))
  }

  /** With the range split into `d` equal steps, `i` steps stay within the range
      exactly when `i <= d`. */
  lemma StepBound(w: real, d: nat, i: nat)
    requires w > 0.0 && d > 0
    ensures i as real * (w / d as real) <= w <==> i <= d
  {
    var s := w / d as real;
    assert s > 0.0;
    assert s * d as real == w;
    assert d as real * s == w;
    if i <= d {
      Mask.MulMono(i as real, d as real, s);
    } else {
      assert d as real + 1.0 <= i as real;
      Mask.MulMono(d as real + 1.0, i as real, s);
      assert (d as real + 1.0) * s == d as real * s + s;
      assert i as real * s > w;
    }
  }

  /** `generateTestPoints`: nested loops over x then y, each advanced by a fixed step
      while within the range. It stops only when neither range is a single value that
      the other loop would enter with a zero step. */
  method GenerateTestPoints(bounds: Bounds, density: nat) returns (points: seq<Point>)
    requires density > 0
    requires bounds.minX != bounds.maxX
    requires bounds.minX < bounds.maxX ==> bounds.minY != bounds.maxY
    ensures points == TestPoints(bounds, density)
  {
    points := [];
    var stepX := (bounds.maxX - bounds.minX) / density as real;
    var x := bounds.minX;
    ghost var i: nat := 0;
    while x <= bounds.maxX
      invariant bounds.minX < bounds.maxX || i == 0
      invariant i <= ColumnCount(bounds, density)
      invariant x == bounds.minX + i as real * StepX(bounds, density)
      invariant points == Columns(bounds, density, i)
      decreases density + 1 - i
    {
      assert i <= density by { StepBound(bounds.maxX - bounds.minX, density, i); }
      points := PushColumn(points, bounds, density, x, i);
      assert x + stepX == bounds.minX + (i + 1) as real * stepX by { Advance(bounds.minX, i, stepX); }
      x := x + stepX;
      i := i + 1;
    }
    assert i == ColumnCount(bounds, density) by {
      if bounds.minX < bounds.maxX {
        StepBound(bounds.maxX - bounds.minX, density, i);
      }
    }
  }

  /** The inner loop of `generateTestPoints`: pushes the points of the column at `x`,
      in increasing y. */
  method PushColumn(points: seq<Point>, bounds: Bounds, density: nat, x: real, ghost i: nat)
    returns (r: seq<Point>)
    requires density > 0 && bounds.minY != bounds.maxY
    requires x == bounds.minX + i as real * StepX(bounds, density)
    ensures r == points + Column(bounds, density, i)
  {
    r := points;
    var stepY := (bounds.maxY - bounds.minY) / density as real;
    var y := bounds.minY;
    ghost var j: nat := 0;
    while y <= bounds.maxY
      invariant bounds.minY < bounds.maxY || j == 0
      invariant j <= RowCount(bounds, density)
      invariant y == bounds.minY + j as real * StepY(bounds, density)
      invariant r == points + Column(bounds, density, i)[..j]
      decreases density + 1 - j
    {
      assert j < RowCount(bounds, density) by { StepBound(bounds.maxY - bounds.minY, density, j); }
      ColumnPrefixStep(bounds, density, i, j);
      ghost var prefix := Column(bounds, density, i)[..j];
      assert points + prefix + [Point(x, y)] == points + (prefix + [Point(x, y)]);
      r := r + [Point(x, y)];
      assert y + stepY == bounds.minY + (j + 1) as real * stepY by { Advance(bounds.minY, j, stepY); }
      y := y + stepY;
      j := j + 1;
    }
    assert j == RowCount(bounds, density) by {
      if bounds.minY < bounds.maxY {
        StepBound(bounds.maxY - bounds.minY, density, j);
      }
    }
    assert Column(bounds, density, i)[..j] == Column(bounds, density, i);
  }

  /** One more point of column `i`. */
  lemma ColumnPrefixStep(b: Bounds, density: nat, i: nat, j: nat)
    requires density > 0 && j < RowCount(b, density)
    ensures Column(b, density, i)[..j + 1] == Column(b, density, i)[..j] +
      [Point(b.minX + i as real * StepX(b, density), b.minY + j as real * StepY(b, density))]
  {
    var c := Column(b, density, i);
    assert c[j] == Point(b.minX + i as real * StepX(b, density), b.minY + j as real * StepY(b, density));
    assert c[..j + 1] == c[..j] + [c[j]];
  }

  /** One more step of an exactly accumulated coordinate. */
  lemma Advance(start: real, i: nat, step: real)
    ensures start + i as real * step + step == start + (i + 1) as real * step
  {
  }

  /** The grid has one column of `RowCount` points per column. */
  lemma {:induction false} ColumnsLength(b: Bounds, density: nat, k: nat)
    requires density > 0
    ensures |Columns(b, density, k)| == k * RowCount(b, density)
  {
    if k > 0 {
      ColumnsLength(b, density, k - 1);
      assert (k - 1) * RowCount(b, density) + RowCount(b, density) == k * RowCount(b, density);
    }
  }

  /** Point `j` of column `i` sits at index `i * rows + j`: the grid is in x-major order. */
  lemma {:induction false} ColumnsIndex(b: Bounds, density: nat, k: nat, i: nat, j: nat)
    requires density > 0 && i < k && j < RowCount(b, density)
    ensures i * RowCount(b, density) + j < |Columns(b, density, k)|
    ensures Columns(b, density, k)[i * RowCount(b, density) + j] == Column(b, density, i)[j]
  {
    var rows := RowCount(b, density);
    ColumnsLength(b, density, k - 1);
    if i < k - 1 {
      ColumnsIndex(b, density, k - 1, i, j);
    } else {
      assert i * rows == |Columns(b, density, k - 1)|;
    }
  }

  /** With both ranges non-empty and `d` the density, the generator yields the full
      (d+1) × (d+1) grid: point (i, j) is `(minX + i·stepX, minY + j·stepY)` at index
      `i·(d+1) + j`. */
  lemma TestPointsGrid(b: Bounds, density: nat, i: nat, j: nat)
    requires density > 0 && b.minX <= b.maxX && b.minY <= b.maxY
    requires i <= density && j <= density
    ensures |TestPoints(b, density)| == (density + 1) * (density + 1)
    ensures TestPoints(b, density)[i * (density + 1) + j] ==
      Point(b.minX + i as real * StepX(b, density), b.minY + j as real * StepY(b, density))
  {
    ColumnsLength(b, density, density + 1);
    ColumnsIndex(b, density, density + 1, i, j);
  }

  /** The last point is the far corner `(maxX, maxY)`: the steps add up exactly. */
  lemma TestPointsLastIsCorner(b: Bounds, density: nat)
    requires density > 0 && b.minX <= b.maxX && b.minY <= b.maxY
    ensures |TestPoints(b, density)| > 0
    ensures TestPoints(b, density)[|TestPoints(b, density)| - 1] == Point(b.maxX, b.maxY)
  {
    TestPointsGrid(b, density, density, density);
    var n := density + 1;
    assert density * n + density == n * n - 1;
    assert density as real * StepX(b, density) == b.maxX - b.minX;
    assert density as real * StepY(b, density) == b.maxY - b.minY;
  }

  /** `i` steps of a range split into `d` equal steps stay within the range for i ≤ d. */
  lemma StepWithin(lo: real, hi: real, d: nat, i: nat)
    requires lo <= hi && d > 0 && i <= d
    ensures lo <= lo + i as real * ((hi - lo) / d as real) <= hi
  {
    var s := (hi - lo) / d as real;
    assert s >= 0.0;
    Mask.MulMono(0.0, i as real, s);
    if lo < hi {
      StepBound(hi - lo, d, i);
    } else {
      assert s == 0.0;
    }
  }

  /** Point `j` of column `i` lies in the bounds. */
  lemma ColumnPointWithin(b: Bounds, density: nat, i: nat, j: nat)
    requires density > 0 && i < ColumnCount(b, density) && j < RowCount(b, density)
    ensures var q := Column(b, density, i)[j]; b.minX <= q.x <= b.maxX && b.minY <= q.y <= b.maxY
  {
    var q := Column(b, density, i)[j];
    assert q == Point(b.minX + i as real * StepX(b, density), b.minY + j as real * StepY(b, density));
    assert b.minX <= b.maxX && b.minY <= b.maxY && i <= density && j <= density;
    StepWithin(b.minX, b.maxX, density, i);
    StepWithin(b.minY, b.maxY, density, j);
  }

  /** Every point of column `i` lies in the bounds. */
  lemma ColumnWithin(b: Bounds, density: nat, i: nat, q: Point)
    requires density > 0 && i < ColumnCount(b, density)
    requires q in Column(b, density, i)
    ensures b.minX <= q.x <= b.maxX && b.minY <= q.y <= b.maxY
  {
    var c := Column(b, density, i);
    var j :| 0 <= j < |c| && c[j] == q;
    ColumnPointWithin(b, density, i, j);
  }

  /** Every generated point lies in `[minX, maxX] × [minY, maxY]`. */
  lemma {:induction false} ColumnsWithin(b: Bounds, density: nat, k: nat, q: Point)
    requires density > 0 && k <= ColumnCount(b, density)
    requires q in Columns(b, density, k)
    ensures b.minX <= q.x <= b.maxX && b.minY <= q.y <= b.maxY
  {
    if q in Columns(b, density, k - 1) {
      ColumnsWithin(b, density, k - 1, q);
    } else {
      ColumnWithin(b, density, k - 1, q);
    }
  }

  lemma TestPointsWithin(b: Bounds, density: nat, q: Point)
    requires density > 0 && q in TestPoints(b, density)
    ensures b.minX <= q.x <= b.maxX && b.minY <= q.y <= b.maxY
  {
    ColumnsWithin(b, density, ColumnCount(b, density), q);
  }
}
