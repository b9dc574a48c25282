/** The layout arithmetic that the three lockup previews (src/components/LockupPreview*.tsx)
    share: a 1920 x 1080 canvas split by a vertical separator into the NVIDIA logo area on
    the left and the partner logo guide on the right. The files differ only in their
    `PADDING` constant, which is a parameter here. */
module LockupLayout {
  import opened Geometry
  import Mask

  const CanvasWidth: real := 1920.0
  const CanvasHeight: real := 1080.0
  const SeparatorWidth: real := 8.0

  /** `lockupOrientation` as the components read it. The store declares no such field,
      so at run time the value is `undefined`: `Unset`. */
  datatype Orientation = Horizontal | Vertical | Unset

  /** Only the string `'horizontal'` selects the horizontal layout. */
  predicate IsHorizontal(o: Orientation) {
    o == Horizontal
  }

  /** The partner guide box: 692 x 132 for the horizontal layout, 480 x 370 otherwise. */
  function GuideWidth(o: Orientation): real {
    if IsHorizontal(o) then 692.0 else 480.0
  }

  function GuideHeight(o: Orientation): real {
    if IsHorizontal(o) then 132.0 else 370.0
  }

  /** The separator is 304 high in the horizontal layout and 550 otherwise. */
  function SeparatorHeight(o: Orientation): real {
    if IsHorizontal(o) then 304.0 else 550.0
  }

  datatype Layout = Layout(nvidiaArea: Rect, separator: Rect, partnerArea: Rect)

  /** The layout computation: the separator sits on the canvas midline, the NVIDIA area
      is the padded left half, and the partner guide is centred in the padded right
      half (pushed to its top-left corner when it does not fit). */
  function ComputeLayout(o: Orientation, padding: real): Layout {
    var separatorX := CanvasWidth / 2.0;
    var leftAreaWidth := separatorX - padding * 2.0;
    var rightAreaXStart := separatorX + SeparatorWidth + padding;
    var rightAreaWidth := CanvasWidth - rightAreaXStart - padding;
    var w, h := GuideWidth(o), GuideHeight(o);
    Layout(
      Rect(padding, padding, leftAreaWidth, CanvasHeight - padding * 2.0),
      Rect(separatorX - SeparatorWidth / 2.0, (CanvasHeight - SeparatorHeight(o)) / 2.0,
           SeparatorWidth, SeparatorHeight(o)),
      Rect(rightAreaXStart + Max(0.0, (rightAreaWidth - w) / 2.0),
           padding + Max(0.0, (CanvasHeight - padding * 2.0 - h) / 2.0), w, h))
  }

  /** `rectToPolygonPoints`: the corners of a box, top-left, top-right, bottom-right,
      bottom-left. */
  function RectToPolygonPoints(x: real, y: real, width: real, height: real): seq<Point> {
    [Point(x, y), Point(x + width, y), Point(x + width, y + height), Point(x, y + height)]
  }

  /** `partnerAreaCenter`. */
  function PartnerAreaCenter(l: Layout): Point {
    RectCenter(l.partnerArea)
  }

  /** `partnerAreaPoints`: the guide box as the polygon the fitter is given. */
  function PartnerAreaPoints(l: Layout): seq<Point> {
    RectToPolygonPoints(l.partnerArea.x, l.partnerArea.y, l.partnerArea.width, l.partnerArea.height)
  }

  /** The polygon of a box with positive sides has that box as its bounding box. */
  lemma RectPolygonBox(x: real, y: real, width: real, height: real)
    requires width >= 0.0 && height >= 0.0
    ensures BoxOf(RectToPolygonPoints(x, y, width, height))
         == Bounds(x, x + width, y, y + height, width, height)
  {
    var pts := RectToPolygonPoints(x, y, width, height);
    var b := Bounds(x, x + width, y, y + height, width, height);
    assert pts[0].x == b.minX && pts[1].x == b.maxX && pts[0].y == b.minY && pts[2].y == b.maxY;
    assert IsBoxOf(pts, b);
    IsBoxOfUnique(pts, BoxOf(pts), b);
  }

  /** The even-odd test on the polygon of a box with positive sides accepts exactly the
      half-open box `[x, x + width) x [y, y + height)`: the left and top sides count
      as inside, the right and bottom sides as outside. */
  lemma RectPolygonInside(x: real, y: real, width: real, height: real, p: Point)
    requires width > 0.0 && height > 0.0
    ensures Mask.Inside(p, RectToPolygonPoints(x, y, width, height))
        <==> x <= p.x < x + width && y <= p.y < y + height
  {
    var pts := RectToPolygonPoints(x, y, width, height);
    var band := y <= p.y < y + height;
    var left := if band && p.x < x then 1 else 0;
    var right := if band && p.x < x + width then 1 else 0;
    assert Mask.CrossingCount(p, pts, 1) == left by {
      VerticalEdgeCrossing(p, pts[0], pts[3]);
    }
    assert Mask.CrossingCount(p, pts, 2) == left by {
      Mask.HorizontalEdgeNeverCrosses(p, pts[1], pts[0]);
    }
    assert Mask.CrossingCount(p, pts, 3) == left + right by {
      VerticalEdgeCrossing(p, pts[1], pts[2]);
    }
    assert Mask.CrossingCount(p, pts, 4) == left + right by {
      Mask.HorizontalEdgeNeverCrosses(p, pts[3], pts[2]);
    }
  }

  /** A vertical edge from `top` down to `bottom`, in either direction, is crossed exactly
      when the point's height is in `[top.y, bottom.y)` and the point is left of the edge. */
  lemma VerticalEdgeCrossing(p: Point, top: Point, bottom: Point)
    requires top.x == bottom.x && top.y < bottom.y
    ensures Mask.Crosses(p, top, bottom) <==> top.y <= p.y < bottom.y && p.x < top.x
    ensures Mask.Crosses(p, bottom, top) <==> top.y <= p.y < bottom.y && p.x < top.x
  {
    assert (bottom.x - top.x) * (p.y - top.y) / (bottom.y - top.y) + top.x == top.x;
    assert (top.x - bottom.x) * (p.y - bottom.y) / (top.y - bottom.y) + bottom.x == top.x;
  }

  /** When the guide box fits in the right half, its position does not depend on the
      padding: it is centred between the separator's right edge and the canvas edge,
      and vertically on the canvas. */
  lemma PartnerAreaIndependentOfPadding(o: Orientation, padding: real)
    requires CanvasWidth - (CanvasWidth / 2.0 + SeparatorWidth + padding) - padding >= GuideWidth(o)
    requires CanvasHeight - padding * 2.0 >= GuideHeight(o)
    ensures var a := ComputeLayout(o, padding).partnerArea;
      a.x == (CanvasWidth / 2.0 + SeparatorWidth + CanvasWidth - GuideWidth(o)) / 2.0
      && a.y == (CanvasHeight - GuideHeight(o)) / 2.0
      && a.width == GuideWidth(o) && a.height == GuideHeight(o)
  {
  }

  /** The separator does not depend on the padding either: 8 wide, centred on the
      midline (x = 956) and vertically on the canvas. */
  lemma SeparatorPlacement(o: Orientation, padding: real)
    ensures ComputeLayout(o, padding).separator
         == Rect(956.0, (CanvasHeight - SeparatorHeight(o)) / 2.0, 8.0, SeparatorHeight(o))
    ensures IsHorizontal(o) ==> ComputeLayout(o, padding).separator.y == 388.0
    ensures !IsHorizontal(o) ==> ComputeLayout(o, padding).separator.y == 265.0
  {
  }

  /** `partnerAreaCenter` is the midpoint of the guide box and lies inside the guide
      polygon the fitter receives. */
  lemma PartnerCenterInsideGuide(o: Orientation, padding: real)
    ensures var l := ComputeLayout(o, padding);
      PartnerAreaCenter(l) == Point(l.partnerArea.x + l.partnerArea.width / 2.0,
                                    l.partnerArea.y + l.partnerArea.height / 2.0)
      && Mask.Inside(PartnerAreaCenter(l), PartnerAreaPoints(l))
  {
    var a := ComputeLayout(o, padding).partnerArea;
    RectPolygonInside(a.x, a.y, a.width, a.height, RectCenter(a));
  }

  /** The NVIDIA logo of a preview: 692 wide with the lockup file's 694:133 aspect in
      the horizontal layout, 477 wide with the regular file's 480:372 aspect otherwise,
      placed centred in the NVIDIA area. */
  function PreviewNvidiaLogo(o: Orientation, area: Rect): Rect {
    var targetWidth := if IsHorizontal(o) then 692.0 else 477.0;
    var aspect := if IsHorizontal(o) then 694.0 / 133.0 else 480.0 / 372.0;
    var targetHeight := targetWidth / aspect;
    Rect(area.x + (area.width - targetWidth) / 2.0, area.y + (area.height - targetHeight) / 2.0,
         targetWidth, targetHeight)
  }

  /** The preview's NVIDIA logo box is centred on the NVIDIA area and keeps the aspect
      ratio of the logo file it shows. */
  lemma PreviewNvidiaLogoCentred(o: Orientation, area: Rect)
    ensures RectCenter(PreviewNvidiaLogo(o, area)) == RectCenter(area)
    ensures var r := PreviewNvidiaLogo(o, area);
      if IsHorizontal(o) then r.width == 692.0 && r.height * 694.0 == 692.0 * 133.0
      else r.width == 477.0 && r.height * 480.0 == 477.0 * 372.0
  {
  }
}
