/** The state store of src/store/logoStore.ts: the uploaded logo, the transform the
    previews draw it with, UI flags, and the saved initial transform. Each action is
    a pure step on a `State` value, and the class `Store` holds the fields and
    performs the same step in place. */
module LogoStore {
  import opened Geometry

  datatype LogoType = Svg | Raster

  /** The parts of a browser `File` the model uses. */
  datatype FileInfo = FileInfo(name: string, mimeType: string)

  /** A `{ scale, offsetX, offsetY }` record: the saved initial transform and the
      result of fitting a logo. */
  datatype Placement = Placement(scale: real, offsetX: real, offsetY: real)

  datatype State = State(
    logoFile: Option<FileInfo>,
    logoData: Option<string>,
    logoType: Option<LogoType>,
    scale: real,
    offsetX: real,
    offsetY: real,
    padding: real,
    baseScale: real,
    scaleFactor: real,
    anchor: Option<Point>,
    showOutline: bool,
    showCanvas: bool,
    isProcessing: bool,
    isDarkCanvas: bool,
    initialTransform: Option<Placement>)

  /** The argument of `setTransform`: each field may be left out. */
  datatype TransformPatch = TransformPatch(
    scale: Option<real>, baseScale: Option<real>, scaleFactor: Option<real>,
    offsetX: Option<real>, offsetY: Option<real>)

  /** The argument of `setUI`. */
  datatype UIPatch = UIPatch(
    showOutline: Option<bool>, showCanvas: Option<bool>,
    isDarkCanvas: Option<bool>, isProcessing: Option<bool>)

  /** `state.logoData` is truthy: present and not the empty string. */
  predicate HasLogoData(s: State) {
    s.logoData.Some? && s.logoData.value != []
  }

  /** The store's initial state. */
  const Initial: State := State(None, None, None, 1.0, 0.0, 0.0, 0.0, 1.0, 1.0, None,
                                true, false, false, false, None)

  /** The fields outside the transform agree. */
  predicate SameOutsideTransform(s: State, r: State) {
    r.(scale := s.scale, offsetX := s.offsetX, offsetY := s.offsetY,
       baseScale := s.baseScale, scaleFactor := s.scaleFactor) == s
  }

  /** `scale` is the product of the fit baseline and the slider factor. */
  predicate Coupled(s: State) {
    s.scale == s.baseScale * s.scaleFactor
  }

  function SetLogoFileStep(s: State, file: FileInfo): State {
    s.(logoFile := Some(file))
  }

  function SetLogoDataStep(s: State, data: string, logoType: LogoType): State {
    s.(logoData := Some(data), logoType := Some(logoType), isProcessing := false)
  }

  /** `setTransform`: the supplied fields are merged over the state; when a baseline or
      a factor is supplied, `scale` is then recomputed from the merged pair. */
  function SetTransformStep(s: State, t: TransformPatch): State {
    var base := t.baseScale.GetOr(s.baseScale);
    var factor := t.scaleFactor.GetOr(s.scaleFactor);
    var next := s.(scale := t.scale.GetOr(s.scale), baseScale := base, scaleFactor := factor,
                   offsetX := t.offsetX.GetOr(s.offsetX), offsetY := t.offsetY.GetOr(s.offsetY));
    if t.baseScale.Some? || t.scaleFactor.Some? then next.(scale := base * factor) else next
  }

  function SetUIStep(s: State, ui: UIPatch): State {
    s.(showOutline := ui.showOutline.GetOr(s.showOutline),
       showCanvas := ui.showCanvas.GetOr(s.showCanvas),
       isDarkCanvas := ui.isDarkCanvas.GetOr(s.isDarkCanvas),
       isProcessing := ui.isProcessing.GetOr(s.isProcessing))
  }

  function SetAnchorStep(s: State, anchor: Point): State {
    s.(anchor := Some(anchor))
  }

  function SetInitialTransformStep(s: State, t: Placement): State {
    s.(initialTransform := Some(t))
  }

  /** `restoreInitialTransform`: copies the saved scale and offsets back, if any. */
  function RestoreStep(s: State): State {
    if s.initialTransform.None? then s
    else
      var t := s.initialTransform.value;
      s.(scale := t.scale, offsetX := t.offsetX, offsetY := t.offsetY)
  }

  /** `center`: nothing without logo data; with a saved transform its offsets only;
      otherwise the offsets that put the centre of the logo's bounds, scaled by the
      baseline, on the mask centre. `bounds` is what `parseSVGBounds` of the logo data
      gives, `None` when it throws (then nothing changes). */
  function CenterStep(s: State, bounds: Option<Bounds>, maskCenter: Point): State {
    if !HasLogoData(s) then s
    else if s.initialTransform.Some? then
      s.(offsetX := s.initialTransform.value.offsetX, offsetY := s.initialTransform.value.offsetY)
    else if bounds.None? then s
    else
      var c := BoundsCenter(bounds.value);
      s.(offsetX := maskCenter.x - c.x * s.baseScale, offsetY := maskCenter.y - c.y * s.baseScale)
  }

  /** The synchronous part of `reset`. */
  function ResetStep(s: State): State {
    s.(scale := 1.0, offsetX := 0.0, offsetY := 0.0, padding := 0.0)
  }

  /** `refit`: nothing without logo data; otherwise the fitted placement becomes the
      baseline with factor 1. `fit` is what the fitter returns, `None` when it throws. */
  function RefitStep(s: State, fit: Option<Placement>): State {
    if !HasLogoData(s) || fit.None? then s
    else
      var f := fit.value;
      s.(baseScale := f.scale, scaleFactor := 1.0, scale := f.scale,
         offsetX := f.offsetX, offsetY := f.offsetY)
  }

  /** `setTransform` changes the transform fields only, and each of the offsets, the
      baseline and the factor only when it is supplied. */
  lemma SetTransformOnlySupplied(s: State, t: TransformPatch)
    ensures var r := SetTransformStep(s, t);
      SameOutsideTransform(s, r) &&
      r.offsetX == t.offsetX.GetOr(s.offsetX) && r.offsetY == t.offsetY.GetOr(s.offsetY) &&
      r.baseScale == t.baseScale.GetOr(s.baseScale) &&
      r.scaleFactor == t.scaleFactor.GetOr(s.scaleFactor)
  {
  }

  /** The scale rule of `setTransform`: a supplied baseline or factor makes `scale` the
      product of the merged pair, overriding a scale supplied in the same call;
      otherwise `scale` is the supplied one or stays. */
  lemma SetTransformScale(s: State, t: TransformPatch)
    ensures var r := SetTransformStep(s, t);
      (t.baseScale.Some? || t.scaleFactor.Some? ==> Coupled(r)) &&
      (t.baseScale.None? && t.scaleFactor.None? ==> r.scale == t.scale.GetOr(s.scale))
  {
  }

  /** A patch without an explicit scale keeps `scale` the product of the baseline and
      the factor. */
  lemma SetTransformKeepsCoupled(s: State, t: TransformPatch)
    requires Coupled(s) && t.scale.None?
    ensures Coupled(SetTransformStep(s, t))
  {
  }

  /** Applying the same patch twice is applying it once. */
  lemma SetTransformIdempotent(s: State, t: TransformPatch)
    ensures SetTransformStep(SetTransformStep(s, t), t) == SetTransformStep(s, t)
  {
    var r := SetTransformStep(s, t);
    var q := SetTransformStep(r, t);
    assert q.baseScale == r.baseScale && q.scaleFactor == r.scaleFactor;
    assert q.offsetX == r.offsetX && q.offsetY == r.offsetY && q.scale == r.scale;
  }

  /** `setLogoData` records the data and type and ends processing; the logo then counts
      as present exactly when the data is not empty. */
  lemma SetLogoDataEndsProcessing(s: State, data: string, logoType: LogoType)
    ensures var r := SetLogoDataStep(s, data, logoType);
      !r.isProcessing && r.logoData == Some(data) && r.logoType == Some(logoType) &&
      (HasLogoData(r) <==> data != []) &&
      r.(logoData := s.logoData, logoType := s.logoType, isProcessing := s.isProcessing) == s
  {
  }

  /** `setUI` changes only the supplied flags. */
  lemma SetUIOnlySupplied(s: State, ui: UIPatch)
    ensures var r := SetUIStep(s, ui);
      r.(showOutline := s.showOutline, showCanvas := s.showCanvas,
         isDarkCanvas := s.isDarkCanvas, isProcessing := s.isProcessing) == s &&
      r.showOutline == ui.showOutline.GetOr(s.showOutline) &&
      r.showCanvas == ui.showCanvas.GetOr(s.showCanvas) &&
      r.isDarkCanvas == ui.isDarkCanvas.GetOr(s.isDarkCanvas) &&
      r.isProcessing == ui.isProcessing.GetOr(s.isProcessing)
  {
  }

  /** Restoring right after saving brings back exactly the saved scale and offsets. */
  lemma RestoreAfterSave(s: State, t: Placement)
    ensures var r := RestoreStep(SetInitialTransformStep(s, t));
      r.scale == t.scale && r.offsetX == t.offsetX && r.offsetY == t.offsetY &&
      r.(scale := s.scale, offsetX := s.offsetX, offsetY := s.offsetY, initialTransform := s.initialTransform) == s
  {
  }

  /** Without a saved transform, restoring is a no-op; with one it changes only
      the scale and the offsets, and doing it again changes nothing. */
  lemma RestoreFrame(s: State)
    ensures s.initialTransform.None? ==> RestoreStep(s) == s
    ensures RestoreStep(s).(scale := s.scale, offsetX := s.offsetX, offsetY := s.offsetY) == s
    ensures RestoreStep(RestoreStep(s)) == RestoreStep(s)
  {
  }

  /** `center` never changes the scale or anything but the offsets, and is a no-op
      without logo data. */
  lemma CenterKeepsScale(s: State, bounds: Option<Bounds>, maskCenter: Point)
    ensures CenterStep(s, bounds, maskCenter).(offsetX := s.offsetX, offsetY := s.offsetY) == s
    ensures !HasLogoData(s) ==> CenterStep(s, bounds, maskCenter) == s
  {
  }

  /** With a saved transform, `center` puts the offsets where restoring would, but keeps
      the current scale. */
  lemma CenterIsRestoreOfOffsets(s: State, bounds: Option<Bounds>, maskCenter: Point)
    requires HasLogoData(s) && s.initialTransform.Some?
    ensures CenterStep(s, bounds, maskCenter) == RestoreStep(s).(scale := s.scale)
  {
  }

  /** The fallback of `center`: the centre of the logo's bounds, scaled by the baseline
      and moved by the new offsets, lands on the mask centre. */
  lemma CenterFallbackCentres(s: State, b: Bounds, maskCenter: Point)
    requires HasLogoData(s) && s.initialTransform.None?
    ensures var r := CenterStep(s, Some(b), maskCenter);
      r.offsetX + BoundsCenter(b).x * s.baseScale == maskCenter.x &&
      r.offsetY + BoundsCenter(b).y * s.baseScale == maskCenter.y
  {
  }

  /** `reset` sets scale 1, offsets 0 and padding 0 and leaves the baseline, factor,
      anchor and saved transform alone, so restoring afterwards undoes it except for
      the padding. */
  lemma ResetThenRestore(s: State)
    requires s.initialTransform.Some?
    ensures var r := ResetStep(s);
      r.scale == 1.0 && r.offsetX == 0.0 && r.offsetY == 0.0 && r.padding == 0.0 &&
      r.(scale := s.scale, offsetX := s.offsetX, offsetY := s.offsetY, padding := s.padding) == s &&
      RestoreStep(r) == RestoreStep(s).(padding := 0.0)
  {
  }

  /** After a successful `refit` the scale is the new baseline with factor 1. */
  lemma RefitCouples(s: State, f: Placement)
    requires HasLogoData(s)
    ensures var r := RefitStep(s, Some(f));
      Coupled(r) && r.baseScale == f.scale && r.scaleFactor == 1.0 &&
      r.offsetX == f.offsetX && r.offsetY == f.offsetY && SameOutsideTransform(s, r)
  {
  }

  /** The store. Each action updates the fields in place; each method's contract ties
      the new state to the pure step above. */
  class Store {
    var logoFile: Option<FileInfo>
    var logoData: Option<string>
    var logoType: Option<LogoType>
    var scale: real
    var offsetX: real
    var offsetY: real
    var padding: real
    var baseScale: real
    var scaleFactor: real
    var anchor: Option<Point>
    var showOutline: bool
    var showCanvas: bool
    var isProcessing: bool
    var isDarkCanvas: bool
    var initialTransform: Option<Placement>

    function Snapshot(): State
      reads this
    {
      State(logoFile, logoData, logoType, scale, offsetX, offsetY, padding, baseScale,
            scaleFactor, anchor, showOutline, showCanvas, isProcessing, isDarkCanvas,
            initialTransform)
    }

    /** The initial state: scale 1, offsets 0, baseline and factor 1, no anchor, outline
        shown, light canvas, nothing saved. */
    constructor ()
      ensures Snapshot() == Initial
      ensures scale == 1.0 && offsetX == 0.0 && offsetY == 0.0 && baseScale == 1.0 && scaleFactor == 1.0
      ensures anchor.None? && showOutline && !isDarkCanvas && initialTransform.None?
    {
      logoFile, logoData, logoType := None, None, None;
      scale, offsetX, offsetY, padding := 1.0, 0.0, 0.0, 0.0;
      baseScale, scaleFactor, anchor := 1.0, 1.0, None;
      showOutline, showCanvas, isProcessing, isDarkCanvas := true, false, false, false;
      initialTransform := None;
    }

    method SetLogoFile(file: FileInfo)
      modifies this
      ensures Snapshot() == SetLogoFileStep(old(Snapshot()), file)
    {
      logoFile := Some(file);
    }

    method SetLogoData(data: string, t: LogoType)
      modifies this
      ensures Snapshot() == SetLogoDataStep(old(Snapshot()), data, t)
    {
      logoData := Some(data);
      logoType := Some(t);
      isProcessing := false;
    }

    method SetTransform(t: TransformPatch)
      modifies this
      ensures Snapshot() == SetTransformStep(old(Snapshot()), t)
    {
      var base := t.baseScale.GetOr(baseScale);
      var factor := t.scaleFactor.GetOr(scaleFactor);
      var nextScale := t.scale.GetOr(scale);
      if t.baseScale.Some? || t.scaleFactor.Some? {
        nextScale := base * factor;
      }
      scale, baseScale, scaleFactor := nextScale, base, factor;
      offsetX, offsetY := t.offsetX.GetOr(offsetX), t.offsetY.GetOr(offsetY);
    }

    method SetUI(ui: UIPatch)
      modifies this
      ensures Snapshot() == SetUIStep(old(Snapshot()), ui)
    {
      showOutline, showCanvas := ui.showOutline.GetOr(showOutline), ui.showCanvas.GetOr(showCanvas);
      isDarkCanvas, isProcessing := ui.isDarkCanvas.GetOr(isDarkCanvas), ui.isProcessing.GetOr(isProcessing);
    }

    method SetAnchor(a: Point)
      modifies this
      ensures Snapshot() == SetAnchorStep(old(Snapshot()), a)
    {
      anchor := Some(a);
    }

    method SetInitialTransform(t: Placement)
      modifies this
      ensures Snapshot() == SetInitialTransformStep(old(Snapshot()), t)
    {
      initialTransform := Some(t);
    }

    method RestoreInitialTransform()
      modifies this
      ensures Snapshot() == RestoreStep(old(Snapshot()))
    {
      if initialTransform.None? {
        return;
      }
      var t := initialTransform.value;
      scale, offsetX, offsetY := t.scale, t.offsetX, t.offsetY;
    }

    method Center(bounds: Option<Bounds>, maskCenter: Point)
      modifies this
      ensures Snapshot() == CenterStep(old(Snapshot()), bounds, maskCenter)
    {
      if logoData.None? || logoData.value == [] {
        return;
      }
      if initialTransform.Some? {
        offsetX, offsetY := initialTransform.value.offsetX, initialTransform.value.offsetY;
        return;
      }
      if bounds.None? {
        return;
      }
      var b := bounds.value;
      var logoCenterX := b.minX + b.width / 2.0;
      var logoCenterY := b.minY + b.height / 2.0;
      offsetX := maskCenter.x - logoCenterX * baseScale;
      offsetY := maskCenter.y - logoCenterY * baseScale;
    }

    method Reset()
      modifies this
      ensures Snapshot() == ResetStep(old(Snapshot()))
    {
      scale, offsetX, offsetY, padding := 1.0, 0.0, 0.0, 0.0;
    }

    method Refit(fit: Option<Placement>)
      modifies this
      ensures Snapshot() == RefitStep(old(Snapshot()), fit)
    {
      if logoData.None? || logoData.value == [] || fit.None? {
        return;
      }
      var f := fit.value;
      baseScale, scaleFactor, scale, offsetX, offsetY := f.scale, 1.0, f.scale, f.offsetX, f.offsetY;
    }
  }
}
