/** src/components/LockupPreview_backup.tsx: the lockup preview with `PADDING = 120`
    whose upload handler validates the file type and places a PNG by its declared
    size, without the fitter. */
module LockupPreviewBackup {
  import opened Geometry
  import opened LogoStore
  import opened LockupLayout
  import opened Upload
  import SvgTransform
  import Mask

  const Padding: real := 120.0

  /** The guide polygon handed to the fitter: the four corners of the partner area,
      top-left, top-right, bottom-right, bottom-left. */
  lemma GuidePolygons()
    ensures PartnerAreaPoints(ComputeLayout(Horizontal, Padding))
         == [Point(1098.0, 474.0), Point(1790.0, 474.0), Point(1790.0, 606.0), Point(1098.0, 606.0)]
    ensures PartnerAreaPoints(ComputeLayout(Vertical, Padding))
         == [Point(1204.0, 355.0), Point(1684.0, 355.0), Point(1684.0, 725.0), Point(1204.0, 725.0)]
    ensures ComputeLayout(Unset, Padding) == ComputeLayout(Vertical, Padding)
  {
  }

  /** What the PNG branch read: the traced SVG text, its `width` and `height`
      attributes, and the content box `getBBox` measured (`None` when measuring threw). */
  datatype PngLoad = PngLoad(data: string, widthAttr: Option<string>, heightAttr: Option<string>,
                             content: Option<Rect>)

  /** The declared size parses to non-zero numbers; otherwise the source divides by zero
      or computes with `NaN`, which the model does not follow. */
  predicate Measurable(l: PngLoad) {
    var d := GetSVGDimensions(l.widthAttr, l.heightAttr);
    d.Some? && d.value.width != 0.0 && d.value.height != 0.0
  }

  /** The content box: the measured one, or the whole declared box when measuring
      threw. */
  function ContentBounds(l: PngLoad, dims: Bounds): Rect {
    if l.content.Some? then l.content.value else Rect(0.0, 0.0, dims.width, dims.height)
  }

  /** The PNG placement: the largest scale at which the declared box fits the guide
      (no margin), and the offset that moves the content centre onto the guide centre
      (not multiplied by the scale). */
  function PngFit(guide: Rect, dims: Bounds, content: Rect): Placement
    requires dims.width != 0.0 && dims.height != 0.0
  {
    var scale := Min(guide.width / dims.width, guide.height / dims.height);
    var g, cc := RectCenter(guide), RectCenter(content);
    Placement(scale, g.x - cc.x, g.y - cc.y)
  }

  /** The scaled declared box fits the guide and touches it on at least one side. */
  lemma PngScaleFits(guide: Rect, dims: Bounds, content: Rect)
    requires dims.width > 0.0 && dims.height > 0.0
    ensures var s := PngFit(guide, dims, content).scale;
      dims.width * s <= guide.width && dims.height * s <= guide.height
      && (dims.width * s == guide.width || dims.height * s == guide.height)
  {
    var a, b := guide.width / dims.width, guide.height / dims.height;
    assert dims.width * a == guide.width;
    assert dims.height * b == guide.height;
    if a <= b {
      Mask.MulMono(a, b, dims.height);
      assert dims.height * a <= dims.height * b;
    } else {
      Mask.MulMono(b, a, dims.width);
      assert dims.width * b <= dims.width * a;
    }
  }

  /** The content centre plus the offset is the guide centre, so a preview that scales
      about the content centre (the anchor set below) draws that centre on the guide
      centre whatever the scale; after a failed measurement that centre is
      `(width / 2, height / 2)`. */
  lemma PngContentOnGuide(guide: Rect, l: PngLoad, dims: Bounds)
    requires dims.width != 0.0 && dims.height != 0.0
    ensures var cc := RectCenter(ContentBounds(l, dims));
      var f := PngFit(guide, dims, ContentBounds(l, dims));
      cc.x + f.offsetX == RectCenter(guide).x && cc.y + f.offsetY == RectCenter(guide).y
      && SvgTransform.Apply(SvgTransform.CenteredList(f.offsetX, f.offsetY, f.scale, cc), cc)
         == RectCenter(guide)
    ensures l.content.None? ==> RectCenter(ContentBounds(l, dims)) == Point(dims.width / 2.0, dims.height / 2.0)
  {
    var cc := RectCenter(ContentBounds(l, dims));
    var f := PngFit(guide, dims, ContentBounds(l, dims));
    SvgTransform.CenteredListPivot(f.offsetX, f.offsetY, f.scale, cc);
  }

  /** Where the upload puts the logo for a validated PNG: the placement and the anchor
      (the content centre). */
  function PngResult(o: Orientation, l: PngLoad): (Placement, Point)
    requires Measurable(l)
  {
    var dims := GetSVGDimensions(l.widthAttr, l.heightAttr).value;
    var content := ContentBounds(l, dims);
    (PngFit(ComputeLayout(o, Padding).partnerArea, dims, content), RectCenter(content))
  }

  /** `processFile`. A rejected file changes nothing but the processing flag; an SVG is
      loaded as in the other previews from `svgLoad`; a PNG is placed by `PngResult`.
      `None` stands for an asynchronous step that threw. */
  function ProcessFileStep(s: State, file: FileInfo, o: Orientation,
                           svgLoad: Option<Loaded>, pngLoad: Option<PngLoad>): State
    requires Validate(file) == RasterKind && pngLoad.Some? ==> Measurable(pngLoad.value)
  {
    var busy := SetUIStep(s, Busy(true));
    var kind := Validate(file);
    var done :=
      if kind == NotHandled then busy
      else if kind == SvgKind then
        if svgLoad.None? then busy
        else
          var l := svgLoad.value;
          SetLogoFileStep(LoadStep(busy, Svg, BoundsCenter(l.bounds), l.data, l.fit), file)
      else
        if pngLoad.None? then busy
        else
          var (fit, anchor) := PngResult(o, pngLoad.value);
          SetLogoFileStep(LoadStep(busy, Raster, anchor, pngLoad.value.data, fit), file);
    SetUIStep(done, Busy(false))
  }

  method ProcessFile(store: Store, file: FileInfo, o: Orientation,
                     svgLoad: Option<Loaded>, pngLoad: Option<PngLoad>)
    requires Validate(file) == RasterKind && pngLoad.Some? ==> Measurable(pngLoad.value)
    modifies store
    ensures store.Snapshot() == ProcessFileStep(old(store.Snapshot()), file, o, svgLoad, pngLoad)
  {
    store.SetUI(Busy(true));
    var kind := Validate(file);
    if kind == NotHandled {
      store.SetUI(Busy(false));
      return;
    }
    if kind == SvgKind {
      if svgLoad.None? {
        store.SetUI(Busy(false));
        return;
      }
      var l := svgLoad.value;
      store.SetAnchor(BoundsCenter(l.bounds));
      store.SetLogoData(l.data, Svg);
      store.SetTransform(FitPatch(l.fit));
      store.SetInitialTransform(l.fit);
    } else {
      if pngLoad.None? {
        store.SetUI(Busy(false));
        return;
      }
      var (fit, anchor) := PngResult(o, pngLoad.value);
      store.SetAnchor(anchor);
      store.SetLogoData(pngLoad.value.data, Raster);
      store.SetTransform(FitPatch(fit));
      store.SetInitialTransform(fit);
    }
    store.SetLogoFile(file);
    store.SetUI(Busy(false));
  }

  /** A rejected file leaves the store as it was, apart from the processing flag, which
      ends false; the file is not recorded. */
  lemma ProcessFileRejects(s: State, file: FileInfo, o: Orientation,
                           svgLoad: Option<Loaded>, pngLoad: Option<PngLoad>)
    requires Validate(file) == NotHandled
    ensures ProcessFileStep(s, file, o, svgLoad, pngLoad) == s.(isProcessing := false)
  {
  }

  /** A validated PNG is stored as raster data, anchored at its content centre, with the
      declared-size placement as current and saved transform. */
  lemma ProcessFilePng(s: State, file: FileInfo, o: Orientation, svgLoad: Option<Loaded>, l: PngLoad)
    requires Validate(file) == RasterKind && Measurable(l)
    ensures var r := ProcessFileStep(s, file, o, svgLoad, Some(l));
      var (fit, anchor) := PngResult(o, l);
      r.logoFile == Some(file) && r.logoData == Some(l.data) && r.logoType == Some(Raster)
      && r.anchor == Some(anchor) && r.initialTransform == Some(fit)
      && r.scale == fit.scale && r.offsetX == fit.offsetX && r.offsetY == fit.offsetY
      && Coupled(r) && RestoreStep(r) == r && !r.isProcessing
  {
    var busy := SetUIStep(s, Busy(true));
    var (fit, anchor) := PngResult(o, l);
    LoadStepResult(busy, Raster, anchor, l.data, fit);
  }

  /** A validated SVG is loaded as in src/components/LockupPreview.tsx. */
  lemma ProcessFileSvg(s: State, file: FileInfo, o: Orientation, l: Loaded, pngLoad: Option<PngLoad>)
    requires Validate(file) == SvgKind
    ensures var r := ProcessFileStep(s, file, o, Some(l), pngLoad);
      r.logoFile == Some(file) && r.logoData == Some(l.data) && r.logoType == Some(Svg)
      && r.anchor == Some(BoundsCenter(l.bounds)) && r.initialTransform == Some(l.fit)
      && Coupled(r) && RestoreStep(r) == r && !r.isProcessing
  {
    var busy := SetUIStep(s, Busy(true));
    LoadStepResult(busy, Svg, BoundsCenter(l.bounds), l.data, l.fit);
  }
}
