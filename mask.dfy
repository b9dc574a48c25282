/** The polygon utilities of src/utils/mask.ts: the even-odd ray-casting test
    `pointInPolygon` and the SVG path serialiser `polygonToPath`. */
module Mask {
  import opened Geometry

  /** The vertex before vertex `i` on the closed polygon: the last one for the first. */
  function Prev(i: nat, n: nat): nat
    requires i < n
  {
    if i == 0 then n - 1 else i - 1
  }

  /** The test of the loop body for the edge from `a` (vertex i) to `b` (vertex j): the
      edge straddles the horizontal line through `p`, and the point where it meets that
      line lies strictly to the right of `p`. The division is reached only when the
      first conjunct holds, so never by zero. */
  predicate Crosses(p: Point, a: Point, b: Point) {
    ((a.y > p.y) != (b.y > p.y)) && p.x < (b.x - a.x) * (p.y - a.y) / (b.y - a.y) + a.x
  }

  /** The edges among the first `k` (edge i joins vertex `Prev(i)` to vertex i) that the
      rightward ray from `p` crosses. */
  function CrossingCount(p: Point, polygon: seq<Point>, k: nat): nat
    requires k <= |polygon|
  {
    if k == 0 then 0
    else
      var crossed := Crosses(p, polygon[k - 1], polygon[Prev(k - 1, |polygon|)]);
      CrossingCount(p, polygon, k - 1) + (if crossed then 1 else 0)
  }

  /** The even-odd rule: inside iff the ray crosses an odd number of edges. */
  predicate Inside(p: Point, polygon: seq<Point>) {
    CrossingCount(p, polygon, |polygon|) % 2 == 1
  }

  /** `pointInPolygon`: toggles `inside` once per crossed edge, visiting each edge
      (polygon[j], polygon[i]) with j the vertex before i, the closing edge first. */
  method PointInPolygon(point: Point, polygon: seq<Point>) returns (inside: bool)
    ensures inside <==> Inside(point, polygon)
    ensures |polygon| == 0 ==> !inside
  {
    inside := false;
    var i: nat, j: int := 0, |polygon| - 1;
    while i < |polygon|
      invariant i <= |polygon|
      invariant i < |polygon| ==> j == Prev(i, |polygon|)
      invariant inside <==> CrossingCount(point, polygon, i) % 2 == 1
    {
      CrossingCountStep(point, polygon, i);
      if Crosses(point, polygon[i], polygon[j]) {
        inside := !inside;
      }
      j, i := i, i + 1;
    }
  }

  /** Counting one more edge adds one exactly when that edge is crossed. */
  lemma CrossingCountStep(p: Point, polygon: seq<Point>, k: nat)
    requires k < |polygon|
    ensures CrossingCount(p, polygon, k + 1) % 2 == 1 <==>
      ((CrossingCount(p, polygon, k) % 2 == 1) != Crosses(p, polygon[k], polygon[Prev(k, |polygon|)]))
  {
  }

  /** A horizontal edge is never counted. */
  lemma HorizontalEdgeNeverCrosses(p: Point, a: Point, b: Point)
    requires a.y == b.y
    ensures !Crosses(p, a, b)
  {
  }

  lemma MulMono(a: real, b: real, c: real)
    requires a <= b && c >= 0.0
    ensures a * c <= b * c
  {
  }

  lemma MulCancel(a: real, b: real, c: real)
    requires c > 0.0 && a * c <= b * c
    ensures a <= b
  {
  }

  /** The quotient of a straddling edge's two height differences lies in [0, 1]. */
  lemma StraddleQuotient(n: real, d: real)
    requires (d > 0.0 && 0.0 <= n <= d) || (d < 0.0 && d <= n <= 0.0)
    ensures 0.0 <= n / d <= 1.0
  {
    var t := n / d;
    assert t * d == n;
    if d > 0.0 {
      MulCancel(0.0, t, d);
      MulCancel(t, 1.0, d);
    } else {
      assert t * (-d) == -n;
      MulCancel(0.0, t, -d);
      MulCancel(t, 1.0, -d);
    }
  }

  /** A fraction t ∈ [0, 1] of `e` lies between 0 and `e`. */
  lemma ScaledBetween(e: real, t: real)
    requires 0.0 <= t <= 1.0
    ensures Min(0.0, e) <= e * t <= Max(0.0, e)
  {
    if e >= 0.0 {
      MulMono(t, 1.0, e);
      MulMono(0.0, t, e);
      assert t * e == e * t && 1.0 * e == e;
      assert e * t <= e;
      assert e <= Max(0.0, e);
    } else {
      MulMono(t, 1.0, -e);
      MulMono(0.0, t, -e);
      assert t * (-e) == -(e * t);
    }
  }

  lemma MulDiv(e: real, n: real, d: real)
    requires d != 0.0
    ensures e * n / d == e * (n / d)
  {
  }

  /** Where a straddling edge meets the ray's line lies between the edge's end points. */
  lemma MeetingPointBetween(p: Point, a: Point, b: Point)
    requires (a.y > p.y) != (b.y > p.y)
    ensures Min(a.x, b.x) <= (b.x - a.x) * (p.y - a.y) / (b.y - a.y) + a.x <= Max(a.x, b.x)
  {
    var n, d, e := p.y - a.y, b.y - a.y, b.x - a.x;
    StraddleQuotient(n, d);
    ScaledBetween(e, n / d);
    MulDiv(e, n, d);
  }

  /** An edge with both ends at or left of `p` is never crossed. */
  lemma EdgeLeftOfPointNotCrossed(p: Point, a: Point, b: Point)
    requires a.x <= p.x && b.x <= p.x
    ensures !Crosses(p, a, b)
  {
    if (a.y > p.y) != (b.y > p.y) {
      MeetingPointBetween(p, a, b);
      assert (b.x - a.x) * (p.y - a.y) / (b.y - a.y) + a.x <= p.x;
    }
  }

  /** No edge among the first `k` is crossed when `p` is at or right of every vertex. */
  lemma {:induction false} RightOfAllNoCrossing(p: Point, polygon: seq<Point>, k: nat)
    requires k <= |polygon|
    requires forall i :: 0 <= i < |polygon| ==> polygon[i].x <= p.x
    ensures CrossingCount(p, polygon, k) == 0
  {
    if k > 0 {
      RightOfAllNoCrossing(p, polygon, k - 1);
      EdgeLeftOfPointNotCrossed(p, polygon[k - 1], polygon[Prev(k - 1, |polygon|)]);
    }
  }

  /** A point at or right of every vertex is outside. */
  lemma RightOfAllOutside(p: Point, polygon: seq<Point>)
    requires forall i :: 0 <= i < |polygon| ==> polygon[i].x <= p.x
    ensures !Inside(p, polygon)
  {
    RightOfAllNoCrossing(p, polygon, |polygon|);
  }

  /** No edge is crossed when `p` lies strictly above every vertex or at or below them
      all (the test compares with `>`). */
  lemma {:induction false} AboveOrBelowNoCrossing(p: Point, polygon: seq<Point>, k: nat)
    requires k <= |polygon|
    requires (forall i :: 0 <= i < |polygon| ==> polygon[i].y > p.y) ||
             (forall i :: 0 <= i < |polygon| ==> polygon[i].y <= p.y)
    ensures CrossingCount(p, polygon, k) == 0
  {
    if k > 0 {
      AboveOrBelowNoCrossing(p, polygon, k - 1);
      assert !Crosses(p, polygon[k - 1], polygon[Prev(k - 1, |polygon|)]);
    }
  }

  /** A point beyond the vertical extent of the polygon is outside. */
  lemma AboveOrBelowAllOutside(p: Point, polygon: seq<Point>)
    requires (forall i :: 0 <= i < |polygon| ==> polygon[i].y > p.y) ||
             (forall i :: 0 <= i < |polygon| ==> polygon[i].y <= p.y)
    ensures !Inside(p, polygon)
  {
    AboveOrBelowNoCrossing(p, polygon, |polygon|);
  }

  /** The commands of an SVG path outline. */
  datatype PathCommand = MoveTo(p: Point) | LineTo(p: Point) | ClosePath

  /** The commands `polygonToPath` writes: nothing for no points; otherwise a move to
      the first point, a line to each later point in order, and a close. */
  function Commands(points: seq<Point>): (cmds: seq<PathCommand>)
    ensures |points| == 0 ==> cmds == []
    ensures |points| > 0 ==> |cmds| == |points| + 1
    ensures |points| > 0 ==> cmds[0] == MoveTo(points[0]) && cmds[|points|] == ClosePath
    ensures |points| > 0 ==> forall i :: 1 <= i < |points| ==> cmds[i] == LineTo(points[i])
  {
    if |points| == 0 then [] else Outline(points, |points|) + [ClosePath]
  }

  /** The move to the first point and the lines to points 1 .. k-1. */
  function Outline(points: seq<Point>, k: nat): (cmds: seq<PathCommand>)
    requires 0 < k <= |points|
    ensures |cmds| == k && cmds[0] == MoveTo(points[0])
    ensures forall i :: 1 <= i < k ==> cmds[i] == LineTo(points[i])
  {
    if k == 1 then [MoveTo(points[0])] else Outline(points, k - 1) + [LineTo(points[k - 1])]
  }

  /** The text of one command, numbers written by `fmt` (the template literal's
      `${n}`). */
  function RenderCommand(c: PathCommand, fmt: real -> string): string {
    match c
    case MoveTo(p) => "M " + fmt(p.x) + " " + fmt(p.y)
    case LineTo(p) => LineText(p, fmt)
    case ClosePath => " Z"
  }

  /** The text appended for each point after the first. */
  function LineText(p: Point, fmt: real -> string): string {
    " L " + fmt(p.x) + " " + fmt(p.y)
  }

  /** The text of a command list: the commands' texts in order. */
  function Render(cmds: seq<PathCommand>, fmt: real -> string): string {
    if |cmds| == 0 then "" else Render(cmds[..|cmds| - 1], fmt) + RenderCommand(cmds[|cmds| - 1], fmt)
  }

  /** `polygonToPath`: the move to the first point, then one appended line segment per
      later point, then the close; the empty list gives the empty string. */
  method PolygonToPath(points: seq<Point>, fmt: real -> string) returns (path: string)
    ensures path == Render(Commands(points), fmt)
    ensures |points| == 0 ==> path == ""
  {
    if |points| == 0 {
      return "";
    }
    path := "M " + fmt(points[0].x) + " " + fmt(points[0].y);
    assert path == Render(Outline(points, 1), fmt);
    var k := 1;
    while k < |points|
      invariant 1 <= k <= |points|
      invariant path == Render(Outline(points, k), fmt)
    {
      OutlineStep(points, k, fmt);
      path := path + LineText(points[k], fmt);
      k := k + 1;
    }
    CommandsClose(points, fmt);
    path := path + " Z";
  }

  /** Extending the outline by one point appends that point's line text. */
  lemma OutlineStep(points: seq<Point>, k: nat, fmt: real -> string)
    requires 1 <= k < |points|
    ensures Render(Outline(points, k + 1), fmt) == Render(Outline(points, k), fmt) + LineText(points[k], fmt)
  {
    RenderSnoc(Outline(points, k), LineTo(points[k]), fmt);
  }

  /** The whole path is the outline's text followed by the close. */
  lemma CommandsClose(points: seq<Point>, fmt: real -> string)
    requires |points| > 0
    ensures Render(Commands(points), fmt) == Render(Outline(points, |points|), fmt) + " Z"
  {
    RenderSnoc(Outline(points, |points|), ClosePath, fmt);
  }

  lemma RenderSnoc(cmds: seq<PathCommand>, c: PathCommand, fmt: real -> string)
    ensures Render(cmds + [c], fmt) == Render(cmds, fmt) + RenderCommand(c, fmt)
  {
    assert (cmds + [c])[..|cmds|] == cmds;
  }

  /** How many line commands a command list holds. */
  function LineCount(cmds: seq<PathCommand>): nat {
    if |cmds| == 0 then 0 else LineCount(cmds[..|cmds| - 1]) + (if cmds[|cmds| - 1].LineTo? then 1 else 0)
  }

  /** A path of n ≥ 1 points has exactly n − 1 line segments. */
  lemma LineSegments(points: seq<Point>)
    requires |points| > 0
    ensures LineCount(Commands(points)) == |points| - 1
  {
    OutlineLines(points, |points|);
    assert Commands(points)[..|points|] == Outline(points, |points|);
  }

  lemma {:induction false} OutlineLines(points: seq<Point>, k: nat)
    requires 0 < k <= |points|
    ensures LineCount(Outline(points, k)) == k - 1
  {
    if k > 1 {
      OutlineLines(points, k - 1);
      assert Outline(points, k)[..k - 1] == Outline(points, k - 1);
    } else {
      assert Outline(points, k)[..0] == [];
    }
  }
}
