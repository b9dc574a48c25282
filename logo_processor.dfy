/** The bounds and fit arithmetic of src/utils/logoProcessor.ts: the union of the
    visible element boxes of an SVG, the alpha-tight box of a bitmap, and the closed-form
    scale and offset that centre a logo in the mask's bounding box. The DOM is replaced
    by its outputs: the list of element styles and boxes, and the canvas pixel bytes. */
module LogoProcessor {
  import opened Geometry

  /** One of the `path, rect, circle, …` elements of the parsed SVG: its computed
      `display` and `opacity` styles and its `getBBox()` result (`None` when the call
      throws). */
  datatype Element = Element(display: string, opacity: string, box: Option<Rect>)

  predicate Hidden(e: Element) {
    e.display == "none" || e.opacity == "0"
  }

  /** An element whose box takes part in the union: visible, measurable, non-degenerate. */
  predicate Qualifies(e: Element) {
    !Hidden(e) && e.box.Some? && e.box.value.width > 0.0 && e.box.value.height > 0.0
  }

  predicate AnyQualifies(elements: seq<Element>) {
    exists i :: 0 <= i < |elements| && Qualifies(elements[i])
  }

  /** `r` lies inside the box `[minX, maxX] × [minY, maxY]`. */
  predicate Within(r: Rect, minX: real, maxX: real, minY: real, maxY: real) {
    minX <= r.x && r.x + r.width <= maxX && minY <= r.y && r.y + r.height <= maxY
  }

  /** `parseSVGBounds`: the smallest box holding every qualifying element box; with no
      qualifying element, the viewBox when it has a positive size, else 0..100 × 0..100. */
  method ParseSVGBounds(elements: seq<Element>, viewBox: Option<Rect>) returns (b: Bounds)
    ensures AnyQualifies(elements) ==>
      (forall i :: 0 <= i < |elements| && Qualifies(elements[i]) ==>
         Within(elements[i].box.value, b.minX, b.maxX, b.minY, b.maxY))
    ensures AnyQualifies(elements) ==>
      (exists i :: 0 <= i < |elements| && Qualifies(elements[i]) && elements[i].box.value.x == b.minX)
    ensures AnyQualifies(elements) ==>
      (exists i :: 0 <= i < |elements| && Qualifies(elements[i]) &&
         elements[i].box.value.x + elements[i].box.value.width == b.maxX)
    ensures AnyQualifies(elements) ==>
      (exists i :: 0 <= i < |elements| && Qualifies(elements[i]) && elements[i].box.value.y == b.minY)
    ensures AnyQualifies(elements) ==>
      (exists i :: 0 <= i < |elements| && Qualifies(elements[i]) &&
         elements[i].box.value.y + elements[i].box.value.height == b.maxY)
    ensures AnyQualifies(elements) ==> b.width == b.maxX - b.minX && b.height == b.maxY - b.minY
    ensures !AnyQualifies(elements) && viewBox.Some? && viewBox.value.width > 0.0 && viewBox.value.height > 0.0 ==>
      var v := viewBox.value; b == Bounds(v.x, v.x + v.width, v.y, v.y + v.height, v.width, v.height)
    ensures !AnyQualifies(elements) && !(viewBox.Some? && viewBox.value.width > 0.0 && viewBox.value.height > 0.0) ==>
      b == Bounds(0.0, 100.0, 0.0, 100.0, 100.0, 100.0)
  {
    // `Math.min(Infinity, x)` is `x`: the first qualifying box sets all four values.
    var minX, maxX, minY, maxY := 0.0, 0.0, 0.0, 0.0;
    var hasContent := false;
    ghost var iMinX, iMaxX, iMinY, iMaxY := 0, 0, 0, 0;
    var k := 0;
    while k < |elements|
      invariant 0 <= k <= |elements|
      invariant hasContent <==> exists i :: 0 <= i < k && Qualifies(elements[i])
      invariant hasContent ==> forall i :: 0 <= i < k && Qualifies(elements[i]) ==>
        Within(elements[i].box.value, minX, maxX, minY, maxY)
      invariant hasContent ==> 0 <= iMinX < k && Qualifies(elements[iMinX]) && elements[iMinX].box.value.x == minX
      invariant hasContent ==> (0 <= iMaxX < k && Qualifies(elements[iMaxX]) &&
        elements[iMaxX].box.value.x + elements[iMaxX].box.value.width == maxX)
      invariant hasContent ==> 0 <= iMinY < k && Qualifies(elements[iMinY]) && elements[iMinY].box.value.y == minY
      invariant hasContent ==> (0 <= iMaxY < k && Qualifies(elements[iMaxY]) &&
        elements[iMaxY].box.value.y + elements[iMaxY].box.value.height == maxY)
    {
      var e := elements[k];
      if !(e.display == "none" || e.opacity == "0") && e.box.Some? {
        var r := e.box.value;
        if r.width > 0.0 && r.height > 0.0 {
          if !hasContent || r.x <= minX { iMinX := k; }
          if !hasContent || r.x + r.width >= maxX { iMaxX := k; }
          if !hasContent || r.y <= minY { iMinY := k; }
          if !hasContent || r.y + r.height >= maxY { iMaxY := k; }
          if hasContent {
            minX, maxX := Min(minX, r.x), Max(maxX, r.x + r.width);
            minY, maxY := Min(minY, r.y), Max(maxY, r.y + r.height);
          } else {
            minX, maxX, minY, maxY := r.x, r.x + r.width, r.y, r.y + r.height;
          }
          hasContent := true;
        }
      }
      k := k + 1;
    }
    if !hasContent {
      if viewBox.Some? && viewBox.value.width > 0.0 && viewBox.value.height > 0.0 {
        var v := viewBox.value;
        return Bounds(v.x, v.x + v.width, v.y, v.y + v.height, v.width, v.height);
      }
      return Bounds(0.0, 100.0, 0.0, 100.0, 100.0, 100.0);
    }
    b := Bounds(minX, maxX, minY, maxY, maxX - minX, maxY - minY);
  }

  /** A byte of the canvas `ImageData`. */
  newtype byte = x: int | 0 <= x < 256

  /** Where the alpha byte of pixel (x, y) sits in the RGBA data of a `w`-wide image. */
  function AlphaIndex(w: nat, x: nat, y: nat): nat {
    (y * w + x) * 4 + 3
  }

  lemma AlphaIndexInRange(w: nat, h: nat, x: nat, y: nat)
    requires x < w && y < h
    ensures AlphaIndex(w, x, y) < w * h * 4
  {
    assert y * w + x < w * h by {
      assert y * w <= (h - 1) * w;
    }
  }

  /** The alpha value of pixel (x, y). */
  function Alpha(data: seq<byte>, w: nat, h: nat, x: nat, y: nat): byte
    requires |data| == w * h * 4 && x < w && y < h
  {
    AlphaIndexInRange(w, h, x, y);
    data[AlphaIndex(w, x, y)]
  }

  /** Some pixel is not fully transparent. */
  predicate AnyVisible(data: seq<byte>, w: nat, h: nat)
    requires |data| == w * h * 4
  {
    exists x: nat, y: nat :: x < w && y < h && Alpha(data, w, h, x, y) > 0
  }

  /** Pixel (px, py) comes before (x, y) in the row-major scan order. */
  predicate Before(px: nat, py: nat, x: nat, y: nat) {
    py < y || (py == y && px < x)
  }

  /** A visible pixel of the image that the scan has already passed at (x, y). */
  predicate SeenVisible(data: seq<byte>, w: nat, h: nat, x: nat, y: nat, px: nat, py: nat)
    requires |data| == w * h * 4
  {
    Before(px, py, x, y) && px < w && py < h && Alpha(data, w, h, px, py) > 0
  }

  /** What the scan variables hold once every pixel before (x, y) is read: `hasAlpha`
      says some of them has alpha > 0; then the four extremes are attained by such
      pixels and bound all of them; otherwise they keep their initial values. */
  ghost predicate Summarizes(data: seq<byte>, w: nat, h: nat, x: nat, y: nat,
                             minX: int, maxX: int, minY: int, maxY: int, hasAlpha: bool)
    requires |data| == w * h * 4
  {
    (hasAlpha <==> exists px: nat, py: nat :: SeenVisible(data, w, h, x, y, px, py)) &&
    (!hasAlpha ==> minX == w && maxX == 0 && minY == h && maxY == 0) &&
    (forall px: nat, py: nat :: SeenVisible(data, w, h, x, y, px, py) ==>
       minX <= px <= maxX && minY <= py <= maxY) &&
    (hasAlpha ==> exists px: nat, py: nat :: SeenVisible(data, w, h, x, y, px, py) && px == minX) &&
    (hasAlpha ==> exists px: nat, py: nat :: SeenVisible(data, w, h, x, y, px, py) && px == maxX) &&
    (hasAlpha ==> exists px: nat, py: nat :: SeenVisible(data, w, h, x, y, px, py) && py == minY) &&
    (hasAlpha ==> exists px: nat, py: nat :: SeenVisible(data, w, h, x, y, px, py) && py == maxY)
  }

  /** Reading pixel (x, y) as the loop body does keeps the summary. */
  lemma ScanStep(data: seq<byte>, w: nat, h: nat, x: nat, y: nat,
                 minX: int, maxX: int, minY: int, maxY: int, hasAlpha: bool)
    requires |data| == w * h * 4 && x < w && y < h
    requires Summarizes(data, w, h, x, y, minX, maxX, minY, maxY, hasAlpha)
    ensures var visible := Alpha(data, w, h, x, y) > 0;
      Summarizes(data, w, h, x + 1, y,
        if visible && x < minX then x else minX, if visible && x > maxX then x else maxX,
        if visible && y < minY then y else minY, if visible && y > maxY then y else maxY,
        hasAlpha || visible)
  {
    var visible := Alpha(data, w, h, x, y) > 0;
    var x1 := x + 1;
    var minX', maxX' := if visible && x < minX then x else minX, if visible && x > maxX then x else maxX;
    var minY', maxY' := if visible && y < minY then y else minY, if visible && y > maxY then y else maxY;
    forall px: nat, py: nat | SeenVisible(data, w, h, x1, y, px, py)
      ensures minX' <= px <= maxX' && minY' <= py <= maxY'
    {
      if !(px == x && py == y) {
        assert SeenVisible(data, w, h, x, y, px, py);
      }
    }
    if visible {
      assert SeenVisible(data, w, h, x + 1, y, x, y);
    }
    if hasAlpha {
      var ax0: nat, ay0: nat :| SeenVisible(data, w, h, x, y, ax0, ay0) && ax0 == minX;
      var ax1: nat, ay1: nat :| SeenVisible(data, w, h, x, y, ax1, ay1) && ax1 == maxX;
      var ax2: nat, ay2: nat :| SeenVisible(data, w, h, x, y, ax2, ay2) && ay2 == minY;
      var ax3: nat, ay3: nat :| SeenVisible(data, w, h, x, y, ax3, ay3) && ay3 == maxY;
      assert SeenVisible(data, w, h, x + 1, y, ax0, ay0);
      assert SeenVisible(data, w, h, x + 1, y, ax1, ay1);
      assert SeenVisible(data, w, h, x + 1, y, ax2, ay2);
      assert SeenVisible(data, w, h, x + 1, y, ax3, ay3);
    }
    if !visible {
      assert forall px: nat, py: nat :: SeenVisible(data, w, h, x1, y, px, py) ==>
        SeenVisible(data, w, h, x, y, px, py);
    }
  }

  /** The end of a row is the start of the next. */
  lemma ScanNextRow(data: seq<byte>, w: nat, h: nat, y: nat,
                    minX: int, maxX: int, minY: int, maxY: int, hasAlpha: bool)
    requires |data| == w * h * 4
    requires Summarizes(data, w, h, w, y, minX, maxX, minY, maxY, hasAlpha)
    ensures Summarizes(data, w, h, 0, y + 1, minX, maxX, minY, maxY, hasAlpha)
  {
    var y1 := y + 1;
    forall px: nat, py: nat
      ensures SeenVisible(data, w, h, 0, y1, px, py) == SeenVisible(data, w, h, w, y, px, py)
    {
    }
    if hasAlpha {
      var ax0: nat, ay0: nat :| SeenVisible(data, w, h, w, y, ax0, ay0) && ax0 == minX;
      var ax1: nat, ay1: nat :| SeenVisible(data, w, h, w, y, ax1, ay1) && ax1 == maxX;
      var ax2: nat, ay2: nat :| SeenVisible(data, w, h, w, y, ax2, ay2) && ay2 == minY;
      var ax3: nat, ay3: nat :| SeenVisible(data, w, h, w, y, ax3, ay3) && ay3 == maxY;
      assert SeenVisible(data, w, h, 0, y1, ax0, ay0);
      assert SeenVisible(data, w, h, 0, y1, ax1, ay1);
      assert SeenVisible(data, w, h, 0, y1, ax2, ay2);
      assert SeenVisible(data, w, h, 0, y1, ax3, ay3);
    }
  }

  /** The scan of `getAlphaTightBounds` over a `w × h` RGBA bitmap: the inclusive range
      of columns and rows holding a pixel with alpha > 0, or the whole image when every
      pixel is fully transparent. The cropped canvas it also builds is not modelled. */
  method GetAlphaTightBounds(data: seq<byte>, w: nat, h: nat) returns (b: Bounds)
    requires |data| == w * h * 4
    ensures AnyVisible(data, w, h) ==>
      forall x: nat, y: nat :: x < w && y < h && Alpha(data, w, h, x, y) > 0 ==>
        b.minX <= x as real <= b.maxX && b.minY <= y as real <= b.maxY
    ensures AnyVisible(data, w, h) ==>
      exists x: nat, y: nat :: x < w && y < h && Alpha(data, w, h, x, y) > 0 && x as real == b.minX
    ensures AnyVisible(data, w, h) ==>
      exists x: nat, y: nat :: x < w && y < h && Alpha(data, w, h, x, y) > 0 && x as real == b.maxX
    ensures AnyVisible(data, w, h) ==>
      exists x: nat, y: nat :: x < w && y < h && Alpha(data, w, h, x, y) > 0 && y as real == b.minY
    ensures AnyVisible(data, w, h) ==>
      exists x: nat, y: nat :: x < w && y < h && Alpha(data, w, h, x, y) > 0 && y as real == b.maxY
    ensures AnyVisible(data, w, h) ==>
      b.width == b.maxX - b.minX + 1.0 && b.height == b.maxY - b.minY + 1.0
    ensures !AnyVisible(data, w, h) ==>
      b == Bounds(0.0, w as real, 0.0, h as real, w as real, h as real)
  {
    var minX: int, maxX: int, minY: int, maxY: int := w, 0, h, 0;
    var hasAlpha := false;
    var y: nat := 0;
    while y < h
      invariant y <= h
      invariant Summarizes(data, w, h, 0, y, minX, maxX, minY, maxY, hasAlpha)
    {
      var x: nat := 0;
      while x < w
        invariant x <= w
        invariant Summarizes(data, w, h, x, y, minX, maxX, minY, maxY, hasAlpha)
      {
        ScanStep(data, w, h, x, y, minX, maxX, minY, maxY, hasAlpha);
        AlphaIndexInRange(w, h, x, y);
        var alpha := data[(y * w + x) * 4 + 3];
        if alpha > 0 {
          minX := if x < minX then x else minX;
          maxX := if x > maxX then x else maxX;
          minY := if y < minY then y else minY;
          maxY := if y > maxY then y else maxY;
          hasAlpha := true;
        }
        x := x + 1;
      }
      ScanNextRow(data, w, h, y, minX, maxX, minY, maxY, hasAlpha);
      y := y + 1;
    }
    ScanComplete(data, w, h, minX, maxX, minY, maxY, hasAlpha);
    if !hasAlpha {
      return Bounds(0.0, w as real, 0.0, h as real, w as real, h as real);
    }
    var width := maxX - minX + 1;
    var height := maxY - minY + 1;
    b := Bounds(minX as real, maxX as real, minY as real, maxY as real, width as real, height as real);
  }

  /** After the last row every pixel has been seen. */
  lemma ScanComplete(data: seq<byte>, w: nat, h: nat,
                     minX: int, maxX: int, minY: int, maxY: int, hasAlpha: bool)
    requires |data| == w * h * 4
    requires Summarizes(data, w, h, 0, h, minX, maxX, minY, maxY, hasAlpha)
    ensures hasAlpha <==> AnyVisible(data, w, h)
    ensures forall x: nat, y: nat :: x < w && y < h && Alpha(data, w, h, x, y) > 0 ==>
      minX <= x <= maxX && minY <= y <= maxY
    ensures hasAlpha ==> exists x: nat, y: nat :: x < w && y < h && Alpha(data, w, h, x, y) > 0 && x == minX
    ensures hasAlpha ==> exists x: nat, y: nat :: x < w && y < h && Alpha(data, w, h, x, y) > 0 && x == maxX
    ensures hasAlpha ==> exists x: nat, y: nat :: x < w && y < h && Alpha(data, w, h, x, y) > 0 && y == minY
    ensures hasAlpha ==> exists x: nat, y: nat :: x < w && y < h && Alpha(data, w, h, x, y) > 0 && y == maxY
  {
    assert forall px: nat, py: nat :: SeenVisible(data, w, h, 0, h, px, py) <==>
      (px < w && py < h && Alpha(data, w, h, px, py) > 0);
  }

  /** The `{scale, offsetX, offsetY}` record of `calculateFitScale`. */
  datatype Fit = Fit(scale: real, offsetX: real, offsetY: real)

  /** At scale `s` the logo takes at most 90% of `box` less `padding` on each side, in
      each direction, and exactly 90% in one of them. */
  predicate TakesNinetyPercent(s: real, logo: Bounds, box: Bounds, padding: real) {
    s * logo.width <= 0.9 * (box.width - padding * 2.0)
    && s * logo.height <= 0.9 * (box.height - padding * 2.0)
    && (s * logo.width == 0.9 * (box.width - padding * 2.0)
        || s * logo.height == 0.9 * (box.height - padding * 2.0))
  }

  /** The logo box, scaled and moved by the fit, lies inside `box` less `padding` on
      each side. */
  predicate PlacedInside(f: Fit, logo: Bounds, box: Bounds, padding: real) {
    box.minX + padding <= logo.minX * f.scale + f.offsetX
    && logo.maxX * f.scale + f.offsetX <= box.maxX - padding
    && box.minY + padding <= logo.minY * f.scale + f.offsetY
    && logo.maxY * f.scale + f.offsetY <= box.maxY - padding
  }

  /** A fit moves the logo centre `c`, scaled, onto the centre of `box`. */
  predicate CentresOn(f: Fit, c: Point, box: Bounds) {
    f.offsetX + c.x * f.scale == (box.minX + box.maxX) / 2.0
    && f.offsetY + c.y * f.scale == (box.minY + box.maxY) / 2.0
  }

  /** `calculateFitScale`: the fit of the logo into the bounding box of the mask
      points (the `Math.min`/`Math.max` over their coordinates). */
  function CalculateFitScale(logo: Bounds, maskPoints: seq<Point>, padding: real): (f: Fit)
    requires |maskPoints| > 0
    requires logo.width > 0.0 && logo.height > 0.0
  {
    FitInBox(logo, BoxOf(maskPoints), padding)
  }

  /** The logo placed by `calculateFitScale` has its centre on the centre of the tight
      box of the mask points. */
  lemma CalculateFitScaleCentres(logo: Bounds, maskPoints: seq<Point>, padding: real, box: Bounds)
    requires |maskPoints| > 0 && IsBoxOf(maskPoints, box)
    requires logo.width > 0.0 && logo.height > 0.0
    ensures CentresOn(CalculateFitScale(logo, maskPoints, padding), BoundsCenter(logo), box)
  {
    CalculateFitScaleIsFitInBox(logo, maskPoints, padding, box);
  }

  /** The scale of `calculateFitScale` stated over the mask points themselves: for the
      tight box of the points, the logo takes at most 90% of the box less the padding in
      each direction, and exactly 90% in one. */
  lemma CalculateFitScaleBounded(logo: Bounds, maskPoints: seq<Point>, padding: real, box: Bounds)
    requires |maskPoints| > 0 && IsBoxOf(maskPoints, box)
    requires logo.width > 0.0 && logo.height > 0.0
    ensures TakesNinetyPercent(CalculateFitScale(logo, maskPoints, padding).scale, logo, box, padding)
  {
    CalculateFitScaleIsFitInBox(logo, maskPoints, padding, box);
    FitScaleBounded(logo, box, padding);
  }

  /** When the tight box of the mask points, less the padding, is not empty, the logo
      placed by `calculateFitScale` lies inside it. */
  lemma CalculateFitScaleInside(logo: Bounds, maskPoints: seq<Point>, padding: real, box: Bounds)
    requires |maskPoints| > 0 && IsBoxOf(maskPoints, box)
    requires logo.width > 0.0 && logo.height > 0.0
    requires logo.width == logo.maxX - logo.minX && logo.height == logo.maxY - logo.minY
    requires box.width - padding * 2.0 > 0.0 && box.height - padding * 2.0 > 0.0
    ensures PlacedInside(CalculateFitScale(logo, maskPoints, padding), logo, box, padding)
  {
    CalculateFitScaleIsFitInBox(logo, maskPoints, padding, box);
    FitInsidePaddedBox(logo, box, padding);
  }

  /** Any tight box of the mask points is the one `calculateFitScale` fits into. */
  lemma CalculateFitScaleIsFitInBox(logo: Bounds, maskPoints: seq<Point>, padding: real, box: Bounds)
    requires |maskPoints| > 0 && IsBoxOf(maskPoints, box)
    requires logo.width > 0.0 && logo.height > 0.0
    ensures CalculateFitScale(logo, maskPoints, padding) == FitInBox(logo, box, padding)
  {
    IsBoxOfUnique(maskPoints, box, BoxOf(maskPoints));
  }

  /** The rest of `calculateFitScale` once the mask box is known: 90% of the largest
      scale at which the logo fits the box less `padding` on each side, with the offset
      that moves the scaled logo centre onto the box centre. */
  function FitInBox(logo: Bounds, box: Bounds, padding: real): (f: Fit)
    requires logo.width > 0.0 && logo.height > 0.0
    ensures CentresOn(f, BoundsCenter(logo), box)
  {
    var centerX, centerY := (box.minX + box.maxX) / 2.0, (box.minY + box.maxY) / 2.0;
    var scale := MarginScale(box.width - padding * 2.0, box.height - padding * 2.0, logo.width, logo.height);
    var c := BoundsCenter(logo);
    Fit(scale, CentringOffset(centerX, c.x, scale), CentringOffset(centerY, c.y, scale))
  }

  /** `maskCenter - logoCenter * scale`: the offset that puts the scaled logo centre on
      the mask centre. */
  function CentringOffset(maskCenter: real, logoCenter: real, scale: real): (offset: real)
    ensures offset + logoCenter * scale == maskCenter
  {
    maskCenter - logoCenter * scale
  }

  /** It is the only offset that does so: a logo centre scaled by `scale` and moved by
      `o` lands on the mask centre exactly when `o` is the centring offset. */
  lemma CentringOffsetUnique(maskCenter: real, logoCenter: real, scale: real, o: real)
    ensures o + logoCenter * scale == maskCenter <==> o == CentringOffset(maskCenter, logoCenter, scale)
  {
  }

  /** `Math.min(a / w, b / h) * 0.9`. */
  function MarginScale(a: real, b: real, w: real, h: real): real
    requires w > 0.0 && h > 0.0
  {
    Min(a / w, b / h) * 0.9
  }

  /** The margin scale takes `w` to at most 90% of `a` and `h` to at most 90% of `b`,
      reaching one of the two bounds. */
  lemma MarginScaleBounds(a: real, b: real, w: real, h: real)
    requires w > 0.0 && h > 0.0
    ensures MarginScale(a, b, w, h) * w <= 0.9 * a && MarginScale(a, b, w, h) * h <= 0.9 * b
    ensures MarginScale(a, b, w, h) * w == 0.9 * a || MarginScale(a, b, w, h) * h == 0.9 * b
  {
    var s := MarginScale(a, b, w, h);
    if a / w <= b / h {
      assert s * w == 0.9 * (a / w * w);
      assert s * h == 0.9 * (a / w * h);
      assert a / w * h <= b / h * h;
    } else {
      assert s * h == 0.9 * (b / h * h);
      assert s * w == 0.9 * (b / h * w);
      assert b / h * w <= a / w * w;
    }
  }

  /** The fitted logo is at most 90% of the padded box in each direction, and exactly
      that in one of them. */
  lemma FitScaleBounded(logo: Bounds, box: Bounds, padding: real)
    requires logo.width > 0.0 && logo.height > 0.0
    ensures TakesNinetyPercent(FitInBox(logo, box, padding).scale, logo, box, padding)
  {
    MarginScaleBounds(box.width - padding * 2.0, box.height - padding * 2.0, logo.width, logo.height);
  }

  /** A larger padding never gives a larger scale. */
  lemma PaddingMonotone(logo: Bounds, box: Bounds, p: real, q: real)
    requires logo.width > 0.0 && logo.height > 0.0
    requires p <= q
    ensures FitInBox(logo, box, q).scale <= FitInBox(logo, box, p).scale
  {
    DivMonotone(box.width - q * 2.0, box.width - p * 2.0, logo.width);
    DivMonotone(box.height - q * 2.0, box.height - p * 2.0, logo.height);
  }

  lemma DivMonotone(a: real, b: real, d: real)
    requires a <= b && d > 0.0
    ensures a / d <= b / d
  {
    assert a / d * d <= b / d * d;
  }

  /** When the padded box is not empty, the fitted logo box, moved by the offset, lies
      inside it: the fit never spills into the padding. */
  lemma FitInsidePaddedBox(logo: Bounds, box: Bounds, padding: real)
    requires logo.width > 0.0 && logo.height > 0.0
    requires logo.width == logo.maxX - logo.minX && logo.height == logo.maxY - logo.minY
    requires box.width == box.maxX - box.minX && box.height == box.maxY - box.minY
    requires box.width - padding * 2.0 > 0.0 && box.height - padding * 2.0 > 0.0
    ensures PlacedInside(FitInBox(logo, box, padding), logo, box, padding)
  {
    var f := FitInBox(logo, box, padding);
    var s := f.scale;
    FitScaleBounded(logo, box, padding);
    assert BoundsCenter(logo).x == (logo.minX + logo.maxX) / 2.0;
    assert BoundsCenter(logo).y == (logo.minY + logo.maxY) / 2.0;
    // The moved logo box is centred on the box centre and at most as wide as the room.
    assert logo.minX * s + f.offsetX == (box.minX + box.maxX) / 2.0 - s * logo.width / 2.0;
    assert logo.maxX * s + f.offsetX == (box.minX + box.maxX) / 2.0 + s * logo.width / 2.0;
    assert logo.minY * s + f.offsetY == (box.minY + box.maxY) / 2.0 - s * logo.height / 2.0;
    assert logo.maxY * s + f.offsetY == (box.minY + box.maxY) / 2.0 + s * logo.height / 2.0;
  }
}
