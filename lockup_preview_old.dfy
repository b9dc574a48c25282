/** src/components/LockupPreview_old.tsx: the lockup preview with `PADDING = 50`, whose
    logo transform pivots on the store's anchor and whose upload handler validates the
    file type and treats a traced PNG exactly like an SVG. */
module LockupPreviewOld {
  import opened Geometry
  import opened LogoStore
  import opened LockupLayout
  import opened Upload
  import SvgTransform

  const Padding: real := 50.0

  /** With the smaller padding the NVIDIA area grows to 860 x 980, but the partner guide
      and the separator are where the `PADDING = 120` previews put them. */
  lemma LayoutValues(o: Orientation)
    ensures ComputeLayout(o, Padding).nvidiaArea == Rect(50.0, 50.0, 860.0, 980.0)
    ensures ComputeLayout(o, Padding).partnerArea == ComputeLayout(o, 120.0).partnerArea
    ensures ComputeLayout(o, Padding).separator == ComputeLayout(o, 120.0).separator
    ensures ComputeLayout(o, Padding).separator.x == 956.0
    ensures ComputeLayout(Horizontal, Padding).partnerArea == Rect(1098.0, 474.0, 692.0, 132.0)
    ensures ComputeLayout(Vertical, Padding).partnerArea == Rect(1204.0, 355.0, 480.0, 370.0)
  {
  }

  /** The transform list of the uploaded logo, scaling about the store's anchor (the
      origin when there is none): the anchor is drawn at itself plus the offset, and the
      list is empty, so the attribute is not set, exactly when the offset is zero and
      the scale is 1. */
  method LogoTransforms(s: State) returns (ops: seq<SvgTransform.TransformOp>)
    ensures SvgTransform.ScalesAbout(ops, s.offsetX, s.offsetY, s.scale, SvgTransform.AnchorPivot(s.anchor))
    ensures |ops| > 0 <==> s.offsetX != 0.0 || s.offsetY != 0.0 || s.scale != 1.0
  {
    var c := SvgTransform.AnchorPivot(s.anchor);
    ops := SvgTransform.CenteredTransforms(s.offsetX, s.offsetY, s.scale, c);
    SvgTransform.CenteredListScalesAbout(s.offsetX, s.offsetY, s.scale, c);
    SvgTransform.CenteredListEntries(s.offsetX, s.offsetY, s.scale, c);
  }

  /** `processFile`: a rejected file changes nothing but the processing flag; an SVG or a
      PNG is loaded from what reading (and, for a PNG, tracing), `parseSVGBounds` and the
      fitter produced, `None` when one of them threw. */
  function ProcessFileStep(s: State, file: FileInfo, loaded: Option<Loaded>): State {
    var busy := SetUIStep(s, Busy(true));
    var kind := Validate(file);
    var done :=
      if kind == NotHandled || loaded.None? then busy
      else
        var l := loaded.value;
        SetLogoFileStep(LoadStep(busy, TypeOf(kind), BoundsCenter(l.bounds), l.data, l.fit), file);
    SetUIStep(done, Busy(false))
  }

  method ProcessFile(store: Store, file: FileInfo, loaded: Option<Loaded>)
    modifies store
    ensures store.Snapshot() == ProcessFileStep(old(store.Snapshot()), file, loaded)
  {
    store.SetUI(Busy(true));
    var kind := Validate(file);
    if kind == NotHandled || loaded.None? {
      store.SetUI(Busy(false));
      return;
    }
    var l := loaded.value;
    store.SetAnchor(BoundsCenter(l.bounds));
    store.SetLogoData(l.data, TypeOf(kind));
    store.SetTransform(FitPatch(l.fit));
    store.SetInitialTransform(l.fit);
    store.SetLogoFile(file);
    store.SetUI(Busy(false));
  }

  /** Both branches set the anchor to the centre of the bounds, make the fitted scale the
      baseline with factor 1, and save the fitted placement. */
  lemma ProcessFileLoads(s: State, file: FileInfo, l: Loaded)
    requires Validate(file) != NotHandled
    ensures var r := ProcessFileStep(s, file, Some(l));
      r.logoFile == Some(file) && r.logoData == Some(l.data)
      && r.logoType == Some(TypeOf(Validate(file)))
      && r.anchor == Some(BoundsCenter(l.bounds))
      && r.baseScale == l.fit.scale && r.scaleFactor == 1.0 && r.initialTransform == Some(l.fit)
      && Coupled(r) && RestoreStep(r) == r && !r.isProcessing
  {
    var busy := SetUIStep(s, Busy(true));
    LoadStepResult(busy, TypeOf(Validate(file)), BoundsCenter(l.bounds), l.data, l.fit);
  }

  /** A rejected file is not recorded; only the processing flag changes. */
  lemma ProcessFileRejects(s: State, file: FileInfo, loaded: Option<Loaded>)
    requires Validate(file) == NotHandled
    ensures ProcessFileStep(s, file, loaded) == s.(isProcessing := false)
  {
  }
}
