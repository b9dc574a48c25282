/** Points, boxes and the small numeric helpers (Math.min, Math.max, Math.round)
    that the logo fitter and the preview components share. Coordinates are exact
    reals; IEEE rounding is not modelled. */
module Geometry {

  datatype Option<+T> = None | Some(value: T) {
    function GetOr(default: T): T {
      if Some? then value else default
    }
  }

  /** A 2D point, the `[number, number]` tuples of the source. */
  datatype Point = Point(x: real, y: real)

  /** `SVGBounds` of src/utils/logoProcessor.ts. */
  datatype Bounds = Bounds(minX: real, maxX: real, minY: real, maxY: real, width: real, height: real)

  /** An `{x, y, width, height}` box (getBBox results, layout areas). */
  datatype Rect = Rect(x: real, y: real, width: real, height: real)

  function Min(a: real, b: real): real { if a <= b then a else b }

  function Max(a: real, b: real): real { if a >= b then a else b }

  /** `Math.round`: the nearest integer, halves rounded up. */
  function Round(x: real): (n: int)
    ensures n as real - 0.5 <= x < n as real + 0.5
  {
    (x + 0.5).Floor
  }

  /** The centre of a bounds record, `minX + width / 2`, `minY + height / 2`. */
  function BoundsCenter(b: Bounds): Point {
    Point(b.minX + b.width / 2.0, b.minY + b.height / 2.0)
  }

  function RectCenter(r: Rect): Point {
    Point(r.x + r.width / 2.0, r.y + r.height / 2.0)
  }

  /** `Math.min(...s)` for a non-empty list. */
  function MinOf(s: seq<real>): (m: real)
    requires |s| > 0
    ensures m in s
    ensures forall i :: 0 <= i < |s| ==> m <= s[i]
  {
    if |s| == 1 then s[0] else Min(s[0], MinOf(s[1..]))
  }

  /** `Math.max(...s)` for a non-empty list. */
  function MaxOf(s: seq<real>): (m: real)
    requires |s| > 0
    ensures m in s
    ensures forall i :: 0 <= i < |s| ==> s[i] <= m
  {
    if |s| == 1 then s[0] else Max(s[0], MaxOf(s[1..]))
  }

  /** `points.map(p => p[0])` */
  function Xs(points: seq<Point>): (r: seq<real>)
    ensures |r| == |points| && forall i :: 0 <= i < |points| ==> r[i] == points[i].x
  {
    seq(|points|, i requires 0 <= i < |points| => points[i].x)
  }

  /** `points.map(p => p[1])` */
  function Ys(points: seq<Point>): (r: seq<real>)
    ensures |r| == |points| && forall i :: 0 <= i < |points| ==> r[i] == points[i].y
  {
    seq(|points|, i requires 0 <= i < |points| => points[i].y)
  }

  /** `b` is the tight axis-aligned box of `points`: it covers every point, each of
      its four sides touches a point, and its size is the extent. */
  predicate IsBoxOf(points: seq<Point>, b: Bounds) {
    (forall i :: 0 <= i < |points| ==>
      b.minX <= points[i].x <= b.maxX && b.minY <= points[i].y <= b.maxY) &&
    (exists i :: 0 <= i < |points| && points[i].x == b.minX) &&
    (exists i :: 0 <= i < |points| && points[i].x == b.maxX) &&
    (exists i :: 0 <= i < |points| && points[i].y == b.minY) &&
    (exists i :: 0 <= i < |points| && points[i].y == b.maxY) &&
    b.width == b.maxX - b.minX && b.height == b.maxY - b.minY
  }

  /** There is only one tight box. */
  lemma IsBoxOfUnique(points: seq<Point>, b: Bounds, c: Bounds)
    requires IsBoxOf(points, b) && IsBoxOf(points, c)
    ensures b == c
  {
    var i1 :| 0 <= i1 < |points| && points[i1].x == b.minX;
    var i2 :| 0 <= i2 < |points| && points[i2].x == c.minX;
    var i3 :| 0 <= i3 < |points| && points[i3].x == b.maxX;
    var i4 :| 0 <= i4 < |points| && points[i4].x == c.maxX;
    var i5 :| 0 <= i5 < |points| && points[i5].y == b.minY;
    var i6 :| 0 <= i6 < |points| && points[i6].y == c.minY;
    var i7 :| 0 <= i7 < |points| && points[i7].y == b.maxY;
    var i8 :| 0 <= i8 < |points| && points[i8].y == c.maxY;
  }

  /** The axis-aligned bounding box of a non-empty point list. */
  function BoxOf(points: seq<Point>): (b: Bounds)
    requires |points| > 0
    ensures IsBoxOf(points, b)
  {
    var xs, ys := Xs(points), Ys(points);
    var minX, maxX, minY, maxY := MinOf(xs), MaxOf(xs), MinOf(ys), MaxOf(ys);
    Bounds(minX, maxX, minY, maxY, maxX - minX, maxY - minY)
  }
}
