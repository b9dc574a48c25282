/** The upload rules the preview components share: which kind of logo a file is taken
    for, the declared size of a vectorised SVG, and the store updates a successful
    upload makes. */
module Upload {
  import opened Geometry
  import opened Text
  import opened LogoStore

  /** Which branch of `processFile` a file takes. */
  datatype Kind = SvgKind | RasterKind | NotHandled

  /** The store's logo type for a handled kind. */
  function TypeOf(k: Kind): LogoType
    requires k != NotHandled
  {
    if k == SvgKind then Svg else Raster
  }

  /** The dispatch of src/components/LockupPreview.tsx: SVG by MIME type or by a
      case-sensitive `.svg` suffix, otherwise raster for any `image/` type. */
  function Dispatch(file: FileInfo): Kind {
    if file.mimeType == "image/svg+xml" || EndsWith(file.name, ".svg") then SvgKind
    else if StartsWith(file.mimeType, "image/") then RasterKind
    else NotHandled
  }

  /** `isValidSVG` of the validating components: the SVG MIME type or a `.svg` suffix
      of the lower-cased name. */
  predicate IsValidSvg(file: FileInfo) {
    file.mimeType == "image/svg+xml" || EndsWith(ToLower(file.name), ".svg")
  }

  /** `isValidPNG`: the PNG MIME type or a `.png` suffix of the lower-cased name. */
  predicate IsValidPng(file: FileInfo) {
    file.mimeType == "image/png" || EndsWith(ToLower(file.name), ".png")
  }

  /** The validation of the other components: SVG is tried first, then PNG, and any
      other file is rejected. */
  function Validate(file: FileInfo): Kind {
    if IsValidSvg(file) then SvgKind else if IsValidPng(file) then RasterKind else NotHandled
  }

  /** A file is accepted exactly when it has one of the two MIME types or one of the
      two suffixes in any letter case; the SVG test wins when both match. */
  lemma ValidateAccepts(file: FileInfo)
    ensures Validate(file) != NotHandled
        <==> file.mimeType == "image/svg+xml" || file.mimeType == "image/png"
             || EndsWith(ToLower(file.name), ".svg") || EndsWith(ToLower(file.name), ".png")
    ensures IsValidSvg(file) ==> Validate(file) == SvgKind
    ensures Validate(file) == RasterKind ==> !IsValidSvg(file) && IsValidPng(file)
  {
  }

  /** For a name already in lower case, the SVG and PNG MIME types get the same branch
      from the dispatch and from the validation. */
  lemma DispatchAgreesOnLowerCaseNames(file: FileInfo)
    requires ToLower(file.name) == file.name
    requires file.mimeType == "image/svg+xml" || file.mimeType == "image/png"
    ensures Dispatch(file) == Validate(file)
  {
    assert StartsWith(file.mimeType, "image/");
  }

  /** The suffix test of the dispatch is case-sensitive and that of the validation is
      not: an upper-case `.SVG` name with no MIME type is skipped by the one and taken
      as SVG by the other, and a JPEG is taken as raster only by the dispatch. */
  lemma SuffixCase()
    ensures Dispatch(FileInfo("LOGO.SVG", "")) == NotHandled
    ensures Validate(FileInfo("LOGO.SVG", "")) == SvgKind
    ensures Dispatch(FileInfo("logo.jpg", "image/jpeg")) == RasterKind
    ensures Validate(FileInfo("logo.jpg", "image/jpeg")) == NotHandled
  {
    assert ToLower("LOGO.SVG") == "logo.svg";
    assert ToLower("logo.jpg") == "logo.jpg";
    assert "LOGO.SVG"[4..] != ".svg";
    assert "image/jpeg"[..6] == "image/";
  }

  /** `parseInt(svg.getAttribute(name) || '0')`: a missing or empty attribute reads as 0;
      `None` stands for `NaN`. */
  function AttributeNumber(attr: Option<string>): Option<int> {
    ParseInt(AttributeText(attr), Auto)
  }

  function AttributeText(attr: Option<string>): string {
    if attr.None? || attr.value == "" then "0" else attr.value
  }

  /** `getSVGDimensions`: the box from the origin to the declared width and height.
      `None` when either attribute does not parse (the source then returns `NaN`
      fields). */
  function GetSVGDimensions(width: Option<string>, height: Option<string>): (r: Option<Bounds>)
    ensures r.Some? <==> AttributeNumber(width).Some? && AttributeNumber(height).Some?
  {
    var w, h := AttributeNumber(width), AttributeNumber(height);
    if w.None? || h.None? then None
    else
      var wr, hr := w.value as real, h.value as real;
      Some(Bounds(0.0, wr, 0.0, hr, wr, hr))
  }

  /** A missing attribute counts as 0. */
  lemma MissingAttributeIsZero()
    ensures AttributeNumber(None) == Some(0) && AttributeNumber(Some("")) == Some(0)
  {
    ParseDecimalString(0, "", Auto);
    assert DecimalString(0) + "" == "0";
  }

  /** Reading attributes that hold written-out natural numbers gives the box
      `{0, w, 0, h, w, h}`, whose centre is `(w / 2, h / 2)`: the anchor the PNG
      branch of src/components/LogoPreview_fixed.tsx sets. */
  lemma DimensionsOfWrittenNumbers(w: nat, h: nat)
    ensures GetSVGDimensions(Some(DecimalString(w)), Some(DecimalString(h)))
         == Some(Bounds(0.0, w as real, 0.0, h as real, w as real, h as real))
    ensures BoundsCenter(GetSVGDimensions(Some(DecimalString(w)), Some(DecimalString(h))).value)
         == Point(w as real / 2.0, h as real / 2.0)
  {
    AttributeOfWrittenNumber(w);
    AttributeOfWrittenNumber(h);
  }

  /** An attribute holding a written-out natural number reads back as that number. */
  lemma AttributeOfWrittenNumber(n: nat)
    ensures AttributeNumber(Some(DecimalString(n))) == Some(n)
  {
    var d := DecimalString(n);
    assert d == NatString(n);
    assert d != "";
    ParseDecimalString(n, "", Auto);
    assert d + "" == d;
  }

  /** `setUI({ isProcessing: b })`. */
  function Busy(b: bool): UIPatch {
    UIPatch(None, None, None, Some(b))
  }

  /** What the asynchronous part of a successful upload produced: the SVG text stored
      as logo data, the bounds the branch measured, and the fitted placement
      (`fitIntoMask`, which is not part of this model, is an input). */
  datatype Loaded = Loaded(data: string, bounds: Bounds, fit: Placement)

  /** `setTransform({ baseScale: scale, scaleFactor: 1, scale, offsetX, offsetY })`. */
  function FitPatch(f: Placement): TransformPatch {
    TransformPatch(Some(f.scale), Some(f.scale), Some(1.0), Some(f.offsetX), Some(f.offsetY))
  }

  /** The four store calls of a successful branch, in the order of
      src/components/LockupPreview.tsx: anchor, logo data, transform, initial transform. */
  function LoadStep(s: State, t: LogoType, anchor: Point, data: string, fit: Placement): State {
    var a := SetAnchorStep(s, anchor);
    var b := SetLogoDataStep(a, data, t);
    var c := SetTransformStep(b, FitPatch(fit));
    SetInitialTransformStep(c, fit)
  }

  /** After a successful branch the fitted placement is both the current transform
      (as baseline with factor 1) and the saved initial one, so restoring it changes
      nothing; only the logo, the anchor, the transform, the saved transform and the
      processing flag change. */
  lemma LoadStepResult(s: State, t: LogoType, anchor: Point, data: string, fit: Placement)
    ensures var r := LoadStep(s, t, anchor, data, fit);
      r == s.(anchor := Some(anchor), logoData := Some(data), logoType := Some(t),
              isProcessing := false, scale := fit.scale, baseScale := fit.scale,
              scaleFactor := 1.0, offsetX := fit.offsetX, offsetY := fit.offsetY,
              initialTransform := Some(fit))
      && Coupled(r) && RestoreStep(r) == r
  {
    var r := LoadStep(s, t, anchor, data, fit);
    assert r.scale == fit.scale * 1.0;
  }
}
