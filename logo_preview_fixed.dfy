/** src/components/LogoPreview_fixed.tsx: the single-logo preview, whose upload handler
    validates the file type, places a traced PNG by its declared size and anchors it
    at the middle of that size, and whose transform pivots on the store's anchor. */
module LogoPreviewFixed {
  import opened Geometry
  import opened LogoStore
  import opened Upload
  import SvgTransform
  import Text

  /** What the PNG branch produced: the traced SVG text, its `width` and `height`
      attributes, and the fitter's placement for the declared box. */
  datatype PngLoad = PngLoad(data: string, widthAttr: Option<string>, heightAttr: Option<string>,
                             fit: Placement)

  /** The declared size of the traced SVG parses; otherwise the source computes with
      `NaN`, which the model does not follow. */
  predicate Declared(l: PngLoad) {
    GetSVGDimensions(l.widthAttr, l.heightAttr).Some?
  }

  /** The store calls of a successful branch in this file's order: logo data, transform,
      initial transform, and the anchor last. */
  function FixedLoadStep(s: State, t: LogoType, anchor: Point, data: string, fit: Placement): State {
    var a := SetLogoDataStep(s, data, t);
    var b := SetTransformStep(a, FitPatch(fit));
    var c := SetInitialTransformStep(b, fit);
    SetAnchorStep(c, anchor)
  }

  /** Setting the anchor last instead of first gives the same state: the calls touch
      different fields. */
  lemma FixedOrderSameState(s: State, t: LogoType, anchor: Point, data: string, fit: Placement)
    ensures FixedLoadStep(s, t, anchor, data, fit) == LoadStep(s, t, anchor, data, fit)
  {
    LoadStepResult(s, t, anchor, data, fit);
  }

  /** `processFile`: a rejected file changes nothing but the processing flag; an SVG is
      loaded from `svgLoad`; a PNG is anchored at the centre of its declared box. `None`
      stands for an asynchronous step that threw; for a PNG that is the inner `catch`,
      which returns before the file is recorded. */
  function ProcessFileStep(s: State, file: FileInfo, svgLoad: Option<Loaded>, pngLoad: Option<PngLoad>): State
    requires Validate(file) == RasterKind && pngLoad.Some? ==> Declared(pngLoad.value)
  {
    var busy := SetUIStep(s, Busy(true));
    var kind := Validate(file);
    var done :=
      if kind == NotHandled then busy
      else if kind == SvgKind then
        if svgLoad.None? then busy
        else
          var l := svgLoad.value;
          SetLogoFileStep(FixedLoadStep(busy, Svg, BoundsCenter(l.bounds), l.data, l.fit), file)
      else
        if pngLoad.None? then busy
        else
          var l := pngLoad.value;
          var dims := GetSVGDimensions(l.widthAttr, l.heightAttr).value;
          SetLogoFileStep(FixedLoadStep(busy, Raster, BoundsCenter(dims), l.data, l.fit), file);
    SetUIStep(done, Busy(false))
  }

  method ProcessFile(store: Store, file: FileInfo, svgLoad: Option<Loaded>, pngLoad: Option<PngLoad>)
    requires Validate(file) == RasterKind && pngLoad.Some? ==> Declared(pngLoad.value)
    modifies store
    ensures store.Snapshot() == ProcessFileStep(old(store.Snapshot()), file, svgLoad, pngLoad)
  {
    store.SetUI(Busy(true));
    var kind := Validate(file);
    if kind == NotHandled {
      store.SetUI(Busy(false));
      return;
    }
    if kind == SvgKind {
      if svgLoad.None? {
        store.SetUI(Busy(false));
        return;
      }
      var l := svgLoad.value;
      store.SetLogoData(l.data, Svg);
      store.SetTransform(FitPatch(l.fit));
      store.SetInitialTransform(l.fit);
      store.SetAnchor(BoundsCenter(l.bounds));
    } else {
      if pngLoad.None? {
        store.SetUI(Busy(false));
        return;
      }
      var l := pngLoad.value;
      var dims := GetSVGDimensions(l.widthAttr, l.heightAttr).value;
      store.SetLogoData(l.data, Raster);
      store.SetTransform(FitPatch(l.fit));
      store.SetInitialTransform(l.fit);
      store.SetAnchor(BoundsCenter(dims));
    }
    store.SetLogoFile(file);
    store.SetUI(Busy(false));
  }

  /** A rejected file, and a PNG whose processing threw, leave the store as it was apart
      from the processing flag, which ends false; the file is not recorded. */
  lemma ProcessFileRejectsOrFails(s: State, file: FileInfo, svgLoad: Option<Loaded>)
    ensures Validate(file) == NotHandled ==> ProcessFileStep(s, file, svgLoad, None) == s.(isProcessing := false)
    ensures Validate(file) == RasterKind ==> ProcessFileStep(s, file, svgLoad, None) == s.(isProcessing := false)
  {
  }

  /** A PNG whose attributes hold the numbers `w` and `h` is anchored at `(w / 2, h / 2)`,
      and the preview's transform then scales it about that point: the middle of the
      declared box is drawn at itself plus the fitted offset. */
  lemma PngAnchorIsDeclaredMiddle(s: State, file: FileInfo, svgLoad: Option<Loaded>, w: nat, h: nat,
                                  data: string, fit: Placement)
    requires Validate(file) == RasterKind
    ensures var l := PngLoad(data, Some(Text.DecimalString(w)), Some(Text.DecimalString(h)), fit);
      Declared(l) &&
      var r := ProcessFileStep(s, file, svgLoad, Some(l));
      var m := Point(w as real / 2.0, h as real / 2.0);
      r.anchor == Some(m) && r.logoFile == Some(file) && !r.isProcessing
      && SvgTransform.ScalesAbout(SvgTransform.CenteredList(r.offsetX, r.offsetY, r.scale, SvgTransform.AnchorPivot(r.anchor)),
                                  fit.offsetX, fit.offsetY, fit.scale, m)
  {
    var l := PngLoad(data, Some(Text.DecimalString(w)), Some(Text.DecimalString(h)), fit);
    DimensionsOfWrittenNumbers(w, h);
    var m := Point(w as real / 2.0, h as real / 2.0);
    var busy := SetUIStep(s, Busy(true));
    FixedOrderSameState(busy, Raster, m, data, fit);
    LoadStepResult(busy, Raster, m, data, fit);
    SvgTransform.CenteredListScalesAbout(fit.offsetX, fit.offsetY, fit.scale, m);
  }
}
