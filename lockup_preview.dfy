/** src/components/LockupPreview.tsx: the lockup preview with `PADDING = 120`, its logo
    transform list pivoting on the centre of the logo's bounds, and its upload handler,
    which dispatches on the file type without validating it. */
module LockupPreview {
  import opened Geometry
  import opened LogoStore
  import opened LockupLayout
  import opened Upload
  import SvgTransform

  const Padding: real := 120.0

  /** The layout this file draws: the NVIDIA area, the separator and the partner guide
      for each orientation; an unset orientation gets the vertical layout, and the
      guide's centre is (1444, 540) either way. */
  lemma LayoutValues()
    ensures ComputeLayout(Horizontal, Padding)
         == Layout(Rect(120.0, 120.0, 720.0, 840.0), Rect(956.0, 388.0, 8.0, 304.0),
                   Rect(1098.0, 474.0, 692.0, 132.0))
    ensures ComputeLayout(Vertical, Padding)
         == Layout(Rect(120.0, 120.0, 720.0, 840.0), Rect(956.0, 265.0, 8.0, 550.0),
                   Rect(1204.0, 355.0, 480.0, 370.0))
    ensures ComputeLayout(Unset, Padding) == ComputeLayout(Vertical, Padding)
    ensures PartnerAreaCenter(ComputeLayout(Horizontal, Padding)) == Point(1444.0, 540.0)
    ensures PartnerAreaCenter(ComputeLayout(Vertical, Padding)) == Point(1444.0, 540.0)
  {
  }

  /** The NVIDIA logo of this preview sits at x = 134 (horizontal, 692 wide) or
      x = 241.5 (vertical, 477 wide) in the 720-wide NVIDIA area. */
  lemma NvidiaLogoValues()
    ensures PreviewNvidiaLogo(Horizontal, ComputeLayout(Horizontal, Padding).nvidiaArea).x == 134.0
    ensures PreviewNvidiaLogo(Vertical, ComputeLayout(Vertical, Padding).nvidiaArea).x == 241.5
  {
  }

  /** The transform list of the uploaded logo: the store's offset and a scale about the
      centre of the logo's bounds (`parseSVGBounds` of the logo data, an input here).
      The bounds' centre lands on itself moved by the offset. */
  method LogoTransforms(s: State, logoBounds: Bounds) returns (ops: seq<SvgTransform.TransformOp>)
    ensures SvgTransform.ScalesAbout(ops, s.offsetX, s.offsetY, s.scale, BoundsCenter(logoBounds))
    ensures |ops| > 0 <==> s.offsetX != 0.0 || s.offsetY != 0.0 || s.scale != 1.0
  {
    var c := BoundsCenter(logoBounds);
    ops := SvgTransform.CenteredTransforms(s.offsetX, s.offsetY, s.scale, c);
    SvgTransform.CenteredListScalesAbout(s.offsetX, s.offsetY, s.scale, c);
    SvgTransform.CenteredListEntries(s.offsetX, s.offsetY, s.scale, c);
  }

  /** `processFile`. `loaded` is what the asynchronous reading, tracing and fitting of a
      handled file produced, `None` when one of them threw (before any store call). An
      unhandled type is recorded as the logo file and nothing is loaded. */
  function ProcessFileStep(s: State, file: FileInfo, loaded: Option<Loaded>): State {
    var busy := SetUIStep(s, Busy(true));
    var kind := Dispatch(file);
    var done :=
      if kind == NotHandled then SetLogoFileStep(busy, file)
      else if loaded.None? then busy
      else
        var l := loaded.value;
        SetLogoFileStep(LoadStep(busy, TypeOf(kind), BoundsCenter(l.bounds), l.data, l.fit), file);
    SetUIStep(done, Busy(false))
  }

  method ProcessFile(store: Store, file: FileInfo, loaded: Option<Loaded>)
    modifies store
    ensures store.Snapshot() == ProcessFileStep(old(store.Snapshot()), file, loaded)
  {
    store.SetUI(Busy(true));
    var kind := Dispatch(file);
    if kind != NotHandled {
      if loaded.None? {
        store.SetUI(Busy(false));
        return;
      }
      var l := loaded.value;
      store.SetAnchor(BoundsCenter(l.bounds));
      store.SetLogoData(l.data, TypeOf(kind));
      store.SetTransform(FitPatch(l.fit));
      store.SetInitialTransform(l.fit);
    }
    store.SetLogoFile(file);
    store.SetUI(Busy(false));
  }

  /** A handled file that loads: the file, its data and type, the anchor at the centre of
      its bounds, and the fitted placement as current and saved transform; the flags
      other than `isProcessing`, which ends false, and the padding are kept. */
  lemma ProcessFileLoads(s: State, file: FileInfo, l: Loaded)
    requires Dispatch(file) != NotHandled
    ensures var r := ProcessFileStep(s, file, Some(l));
      r == s.(logoFile := Some(file), logoData := Some(l.data),
              logoType := Some(TypeOf(Dispatch(file))), anchor := Some(BoundsCenter(l.bounds)),
              scale := l.fit.scale, baseScale := l.fit.scale, scaleFactor := 1.0,
              offsetX := l.fit.offsetX, offsetY := l.fit.offsetY,
              initialTransform := Some(l.fit), isProcessing := false)
      && Coupled(r) && RestoreStep(r) == r
  {
    var busy := SetUIStep(s, Busy(true));
    LoadStepResult(busy, TypeOf(Dispatch(file)), BoundsCenter(l.bounds), l.data, l.fit);
  }

  /** A file of no image type is still recorded, and nothing else changes. */
  lemma ProcessFileRecordsUnhandled(s: State, file: FileInfo, loaded: Option<Loaded>)
    requires Dispatch(file) == NotHandled
    ensures ProcessFileStep(s, file, loaded) == s.(logoFile := Some(file), isProcessing := false)
  {
  }

  /** When reading or fitting throws, the file is not recorded and only the processing
      flag is touched, ending false. */
  lemma ProcessFileFails(s: State, file: FileInfo)
    requires Dispatch(file) != NotHandled
    ensures ProcessFileStep(s, file, None) == s.(isProcessing := false)
  {
  }
}
