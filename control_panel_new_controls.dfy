/** src/components/ControlPanel_new_controls.tsx: the control panel of the single-logo
    and lockup pages, with the export dialog and its file names, the nudge buttons, the
    scale slider and the two SVG exports. */
module ControlPanelNewControls {
  import opened Geometry
  import opened Text
  import opened LogoStore
  import opened LockupLayout
  import opened Upload
  import SvgTransform
  import ControlPanel

  // ---------------------------------------------------------------- export names

  predicate NotDotNorSlash(c: char) {
    c != '.' && c != '/'
  }

  predicate ExtensionText(ext: string) {
    forall i :: 0 <= i < |ext| ==> NotDotNorSlash(ext[i])
  }

  /** The length of the longest suffix free of `.` and `/`. */
  function TailLength(s: string): (k: nat)
    ensures k <= |s|
    ensures ExtensionText(s[|s| - k..])
    ensures k < |s| ==> !NotDotNorSlash(s[|s| - k - 1])
  {
    if |s| == 0 || !NotDotNorSlash(s[|s| - 1]) then 0
    else
      var k := TailLength(s[..|s| - 1]);
      assert s[|s| - (k + 1)..] == s[..|s| - 1][|s| - 1 - k..] + [s[|s| - 1]];
      k + 1
  }

  /** `name.replace(/\.[^/.]+$/, '')`: a final `.` followed by at least one character and
      no `.` or `/` is removed together with what follows it. Only the last `.` of a name
      can start that match. */
  function StripExtension(name: string): (r: string)
    ensures r == name
         || (|r| < |name| && name == r + "." + name[|r| + 1..]
             && |name[|r| + 1..]| > 0 && ExtensionText(name[|r| + 1..]))
  {
    var k := TailLength(name);
    if 0 < k < |name| && name[|name| - k - 1] == '.' then
      var r := name[..|name| - k - 1];
      assert name == r + "." + name[|r| + 1..];
      r
    else name
  }

  /** Conversely, a name that does end in such an extension loses exactly it, so the
      names left unchanged are those without one. */
  lemma StripExtensionRemoves(base: string, ext: string)
    requires |ext| > 0 && ExtensionText(ext)
    ensures StripExtension(base + "." + ext) == base
  {
    var name := base + "." + ext;
    assert name[|base|] == '.';
    assert name[|base| + 1..] == ext;
    var k := TailLength(name);
    assert k == |ext|;
    assert name[..|name| - k - 1] == base;
  }

  /** Removing the extension of a single- or double-extension name, and of a name that is
      all extension. */
  lemma StripExtensionExamples()
    ensures StripExtension("logo.svg") == "logo"
    ensures StripExtension("logo.min.png") == "logo.min"
    ensures StripExtension(".svg") == ""
  {
    StripExtensionRemoves("logo", "svg");
    StripExtensionRemoves("logo.min", "png");
    StripExtensionRemoves("", "svg");
    assert "logo" + "." + "svg" == "logo.svg";
    assert "logo.min" + "." + "png" == "logo.min.png";
    assert "" + "." + "svg" == ".svg";
  }

  /** Names left alone: one without a dot, one ending in a dot, and one whose only dot is
      in a folder name. */
  lemma StripExtensionKeeps()
    ensures StripExtension("logo") == "logo"
    ensures StripExtension("logo.") == "logo."
    ensures StripExtension("v1.2/logo") == "v1.2/logo"
  {
    var a := "logo";
    assert forall i :: 0 <= i < |a| ==> a[i] != '.';
    var b := "logo.";
    assert forall i :: 0 <= i < 4 ==> b[i] != '.';
    var c := "v1.2/logo";
    assert forall i :: 0 <= i < |c| && i != 2 ==> c[i] != '.';
    assert c[3..][1] == '/';
  }

  /** The orientation letter of the file name: `v` only for `'vertical'`. */
  function OrientationLetter(o: Orientation): string {
    if o == Vertical then "v" else "h"
  }

  function ThemeName(dark: bool): string {
    if dark then "on-dark" else "on-light"
  }

  /** The lockup naming convention `nvidia-and-<name>-partnership-<v|h>-<theme>`. */
  function LockupName(name: string, o: Orientation, dark: bool): string {
    "nvidia-and-" + name + "-partnership-" + OrientationLetter(o) + "-" + ThemeName(dark)
  }

  /** The lockup name can be read back: it starts with `nvidia-and-`, holds the name
      right after that, then `-partnership-`, the orientation letter and the theme. */
  lemma LockupNameReadsBack(name: string, o: Orientation, dark: bool)
    ensures var r := LockupName(name, o, dark);
      StartsWith(r, "nvidia-and-") && r[11..11 + |name|] == name
      && r[11 + |name|..] == "-partnership-" + OrientationLetter(o) + "-" + ThemeName(dark)
  {
    var r := LockupName(name, o, dark);
    assert r == "nvidia-and-" + name + ("-partnership-" + OrientationLetter(o) + "-" + ThemeName(dark));
  }

  /** The name ends in `-on-dark` exactly for the dark canvas, and carries `v` before the
      theme exactly for the vertical orientation. */
  lemma LockupNameTells(name: string, o: Orientation, dark: bool)
    ensures var r := LockupName(name, o, dark);
      (EndsWith(r, "-on-dark") <==> dark)
      && (r[|r| - |ThemeName(dark)| - 2] == 'v' <==> o == Vertical)
  {
    var p := "nvidia-and-" + name + "-partnership-";
    assert LockupName(name, o, dark) == p + OrientationLetter(o) + "-" + ThemeName(dark);
    ThemeSuffix(p + OrientationLetter(o), dark);
    LetterBeforeTheme(p, o, dark);
  }

  lemma ThemeSuffix(p: string, dark: bool)
    ensures EndsWith(p + "-" + ThemeName(dark), "-on-dark") <==> dark
  {
    var r := p + "-" + ThemeName(dark);
    var tail := "-" + ThemeName(dark);
    assert r == p + tail;
    assert r[|r| - |tail|..] == tail;
    if !dark {
      assert r[|r| - 8..] == tail[1..];
      assert tail[1..][0] == 'o';
    }
  }

  lemma LetterBeforeTheme(p: string, o: Orientation, dark: bool)
    ensures var r := p + OrientationLetter(o) + "-" + ThemeName(dark);
      r[|r| - |ThemeName(dark)| - 2] == OrientationLetter(o)[0]
  {
    var r := p + OrientationLetter(o) + "-" + ThemeName(dark);
    assert r == p + (OrientationLetter(o) + "-" + ThemeName(dark));
  }

  /** `handleExport`'s default name: with an uploaded file, its name without the
      extension, wrapped in the lockup convention on the lockup page; without one, the
      `CHANGE` placeholder in the convention, or `logo-in-mask`. */
  function DefaultExportName(file: Option<FileInfo>, lockupPage: bool, o: Orientation, dark: bool): string {
    if file.Some? then
      var name := StripExtension(file.value.name);
      if lockupPage then LockupName(name, o, dark) else name
    else if lockupPage then LockupName("CHANGE", o, dark)
    else "logo-in-mask"
  }

  /** For an uploaded `acme.svg` the default name is `acme`, in the lockup convention on
      the lockup page; before any upload the lockup page uses the `CHANGE` placeholder. */
  lemma DefaultExportNameExamples(o: Orientation, dark: bool)
    ensures DefaultExportName(Some(FileInfo("acme.svg", "image/svg+xml")), false, o, dark) == "acme"
    ensures DefaultExportName(Some(FileInfo("acme.svg", "image/svg+xml")), true, o, dark) == LockupName("acme", o, dark)
    ensures DefaultExportName(None, true, o, dark) == LockupName("CHANGE", o, dark)
    ensures DefaultExportName(None, false, o, dark) == "logo-in-mask"
  {
    StripExtensionRemoves("acme", "svg");
    assert "acme" + "." + "svg" == "acme.svg";
  }

  /** When no orientation is set, the layout is the vertical one but the file name says
      `h`. */
  lemma UnsetNameDisagreesWithLayout(name: string, dark: bool)
    ensures !IsHorizontal(Unset) && NvidiaExport(Unset) == NvidiaExport(Vertical)
    ensures OrientationLetter(Unset) == "h" && OrientationLetter(Vertical) == "v"
    ensures LockupName(name, Unset, dark) != LockupName(name, Vertical, dark)
  {
    var t := ThemeName(dark);
    var a, b := LockupName(name, Unset, dark), LockupName(name, Vertical, dark);
    assert a[|a| - |t| - 2] != b[|b| - |t| - 2];
  }

  /** The letter the layout evidently calls for: `h` exactly for the horizontal layout. */
  function LayoutLetter(o: Orientation): (r: string)
    ensures r == "h" <==> IsHorizontal(o)
    ensures r == "v" <==> !IsHorizontal(o)
  {
    if IsHorizontal(o) then "h" else "v"
  }

  /** With the letter taken from the layout, the name and the drawn lockup agree for every
      orientation, and nothing changes for a set one. */
  lemma LayoutLetterAgrees(o: Orientation)
    ensures o != Unset ==> LayoutLetter(o) == OrientationLetter(o)
    ensures LayoutLetter(o) == LayoutLetter(Vertical) <==> NvidiaExport(o) == NvidiaExport(Vertical)
  {
    if o == Horizontal {
      assert NvidiaExport(o).width != NvidiaExport(Vertical).width;
    }
  }

  /** `handleConfirmExport`'s file name: the trimmed input, or the page's fallback when
      that is empty. */
  function ConfirmedName(input: string, lockupPage: bool): string {
    var t := Trim(input);
    if t != [] then t else FallbackName(lockupPage)
  }

  /** The name used when the input is blank. */
  function FallbackName(lockupPage: bool): string {
    if lockupPage then "logo-lockup" else "logo-in-mask"
  }

  /** The confirmed name is never empty and has no surrounding white space; it is the
      trimmed input whenever that is not empty. */
  lemma ConfirmedNameTrimmed(input: string, lockupPage: bool)
    ensures var r := ConfirmedName(input, lockupPage);
      r != [] && Trim(r) == r
      && (Trim(input) != [] ==> r == Trim(input))
      && (Trim(input) == [] ==> r == FallbackName(lockupPage))
  {
    if Trim(input) != [] {
      TrimIdempotent(input);
    } else {
      FallbackNameTrimmed(lockupPage);
    }
  }

  lemma FallbackNameTrimmed(lockupPage: bool)
    ensures FallbackName(lockupPage) != [] && Trim(FallbackName(lockupPage)) == FallbackName(lockupPage)
  {
    var r := FallbackName(lockupPage);
    assert r[0] == 'l' && r[|r| - 1] in {'p', 'k'};
    TrimUnpadded(r);
  }

  /** A text that neither starts nor ends with white space is its own trim. */
  lemma TrimUnpadded(s: string)
    requires |s| > 0 && !IsSpace(s[0]) && !IsSpace(s[|s| - 1])
    ensures Trim(s) == s
  {
    assert TrimStart(s) == s;
    assert TrimEnd(s) == s;
  }

  datatype ExportRequest = LockupExport(name: string, format: string) | SingleExport(name: string, format: string)

  /** `handleConfirmExport`: the lockup page exports the canvas, the other page the
      single logo, under the confirmed name. */
  function ConfirmExport(input: string, lockupPage: bool, format: string): (r: ExportRequest)
    ensures r.LockupExport? <==> lockupPage
    ensures r.name == ConfirmedName(input, lockupPage) && r.format == format && r.name != []
  {
    var name := ConfirmedName(input, lockupPage);
    ConfirmedNameTrimmed(input, lockupPage);
    if lockupPage then LockupExport(name, format) else SingleExport(name, format)
  }

  // ---------------------------------------------------------------- nudge and slider

  const NudgeAmount: real := 5.0

  /** `handleNudge`: only the moved offset is sent. */
  function NudgePatch(s: State, d: ControlPanel.Direction): TransformPatch {
    match d
    case Up => TransformPatch(None, None, None, None, Some(s.offsetY - NudgeAmount))
    case Down => TransformPatch(None, None, None, None, Some(s.offsetY + NudgeAmount))
    case Left => TransformPatch(None, None, None, Some(s.offsetX - NudgeAmount), None)
    case Right => TransformPatch(None, None, None, Some(s.offsetX + NudgeAmount), None)
  }

  method Nudge(store: Store, d: ControlPanel.Direction)
    modifies store
    ensures store.Snapshot() == SetTransformStep(old(store.Snapshot()), NudgePatch(old(store.Snapshot()), d))
  {
    var s := store.Snapshot();
    store.SetTransform(NudgePatch(s, d));
  }

  /** Sending one offset has the same effect as the older panel's nudge by 5, which sends
      both: exactly one offset moves by 5 and the opposite nudge undoes it. */
  lemma NudgeMovesFive(s: State, d: ControlPanel.Direction)
    ensures SetTransformStep(s, NudgePatch(s, d)) == SetTransformStep(s, ControlPanel.NudgePatch(s, d, 5.0))
    ensures var r := SetTransformStep(s, NudgePatch(s, d));
      r == s.(offsetX := r.offsetX, offsetY := r.offsetY)
      && (d == ControlPanel.Left ==> r.offsetX == s.offsetX - 5.0 && r.offsetY == s.offsetY)
      && (d == ControlPanel.Right ==> r.offsetX == s.offsetX + 5.0 && r.offsetY == s.offsetY)
      && (d == ControlPanel.Up ==> r.offsetY == s.offsetY - 5.0 && r.offsetX == s.offsetX)
      && (d == ControlPanel.Down ==> r.offsetY == s.offsetY + 5.0 && r.offsetX == s.offsetX)
    ensures var r := SetTransformStep(s, NudgePatch(s, d));
      SetTransformStep(r, NudgePatch(r, ControlPanel.Opposite(d))) == s
  {
    var r := SetTransformStep(s, NudgePatch(s, d));
    ControlPanel.NudgeMovesOneAxis(s, d, 5.0);
    ControlPanel.NudgeOppositeRestores(s, d, 5.0);
    assert SetTransformStep(r, NudgePatch(r, ControlPanel.Opposite(d)))
        == SetTransformStep(r, ControlPanel.NudgePatch(r, ControlPanel.Opposite(d), 5.0));
  }

  /** The scale slider's change handler for the value `v`: factor `v / 100`, and the
      scale the baseline times that factor. */
  function SliderPatch(s: State, v: real): TransformPatch {
    var factor := v / 100.0;
    TransformPatch(Some(s.baseScale * factor), None, Some(factor), None, None)
  }

  method Slide(store: Store, v: real)
    modifies store
    ensures store.Snapshot() == SetTransformStep(old(store.Snapshot()), SliderPatch(old(store.Snapshot()), v))
  {
    var s := store.Snapshot();
    store.SetTransform(SliderPatch(s, v));
  }

  /** A slider position `v` in 0..200 sets the factor to `v / 100`, within 0..2, keeps
      the scale the baseline times the factor and changes nothing else; the slider and
      the percentage label read back `v`. */
  lemma SliderResult(s: State, v: int)
    requires 0 <= v <= 200
    ensures var r := SetTransformStep(s, SliderPatch(s, v as real));
      r == s.(scaleFactor := v as real / 100.0, scale := s.baseScale * (v as real / 100.0))
      && 0.0 <= r.scaleFactor <= 2.0 && Coupled(r)
      && r.scaleFactor * 100.0 == v as real && Round(r.scaleFactor * 100.0) == v
  {
  }

  // ---------------------------------------------------------------- lockup export

  /** The export's margins: 50 on every side, and the left region up to the separator. */
  const ExportPadding: real := 50.0
  const AvailableLeftWidth: real := CanvasWidth / 2.0 - ExportPadding - SeparatorWidth / 2.0
  const AvailableHeight: real := CanvasHeight - ExportPadding * 2.0

  /** The NVIDIA logo's placement in the lockup export: its scale, its offset and its
      drawn size. */
  datatype NvidiaPlacement = NvidiaPlacement(scale: real, offsetX: real, offsetY: real, width: real, height: real)

  /** The horizontal lockup logo is 694 x 133 drawn 692 wide; the vertical one is
      480 x 372 drawn at most 478 wide; the drawn box is centred in the left region. */
  function NvidiaExport(o: Orientation): NvidiaPlacement {
    var isHorizontal := IsHorizontal(o);
    var actualWidth := if isHorizontal then 694.0 else 480.0;
    var actualHeight := if isHorizontal then 133.0 else 372.0;
    var maxAllowedWidth := if isHorizontal then 692.0 else Min(478.0, AvailableLeftWidth);
    var scale := maxAllowedWidth / actualWidth;
    var w, h := actualWidth * scale, actualHeight * scale;
    NvidiaPlacement(scale, ExportPadding + (AvailableLeftWidth - w) / 2.0,
                    ExportPadding + (AvailableHeight - h) / 2.0, w, h)
  }

  /** `translate(offset) scale(s)`, the NVIDIA group's transform. */
  function NvidiaTransforms(o: Orientation): seq<SvgTransform.TransformOp> {
    var n := NvidiaExport(o);
    [SvgTransform.Translate(n.offsetX, n.offsetY), SvgTransform.Scale(n.scale)]
  }

  /** The drawn NVIDIA logo is centred on (503, 540), the middle of the left region; it
      is 692 wide horizontally and 478 (at most 478) vertically, keeps the file's aspect
      ratio and lies inside the left region. */
  lemma NvidiaExportCentred(o: Orientation)
    ensures var n := NvidiaExport(o);
      n.offsetX + n.width / 2.0 == ExportPadding + AvailableLeftWidth / 2.0 == 503.0
      && n.offsetY + n.height / 2.0 == ExportPadding + AvailableHeight / 2.0 == 540.0
      && (if IsHorizontal(o) then n.width == 692.0 && n.height * 694.0 == 692.0 * 133.0
          else n.width == 478.0 && n.height * 480.0 == 478.0 * 372.0)
      && n.width <= 692.0 && (!IsHorizontal(o) ==> n.width <= 478.0)
      && ExportPadding <= n.offsetX && n.offsetX + n.width <= ExportPadding + AvailableLeftWidth
      && ExportPadding <= n.offsetY && n.offsetY + n.height <= ExportPadding + AvailableHeight
  {
    if IsHorizontal(o) {
      NvidiaExportHorizontal();
    } else {
      NvidiaExportVertical();
    }
  }

  lemma NvidiaExportHorizontal()
    ensures NvidiaExport(Horizontal)
         == NvidiaPlacement(692.0 / 694.0, 157.0, 50.0 + (980.0 - 133.0 * 692.0 / 694.0) / 2.0,
                            692.0, 133.0 * 692.0 / 694.0)
  {
    assert 694.0 * (692.0 / 694.0) == 692.0;
    assert 133.0 * (692.0 / 694.0) == 133.0 * 692.0 / 694.0;
  }

  lemma NvidiaExportVertical()
    ensures NvidiaExport(Vertical)
         == NvidiaPlacement(478.0 / 480.0, 264.0, 50.0 + (980.0 - 372.0 * 478.0 / 480.0) / 2.0,
                            478.0, 372.0 * 478.0 / 480.0)
  {
    assert AvailableLeftWidth == 906.0;
    assert 480.0 * (478.0 / 480.0) == 478.0;
    assert 372.0 * (478.0 / 480.0) == 372.0 * 478.0 / 480.0;
  }

  /** The NVIDIA group's transform maps the logo file's box, from the origin to its size,
      onto the drawn box. */
  lemma NvidiaTransformsMapBox(o: Orientation)
    ensures var n := NvidiaExport(o);
      var aw := if IsHorizontal(o) then 694.0 else 480.0;
      var ah := if IsHorizontal(o) then 133.0 else 372.0;
      SvgTransform.NoRotation(NvidiaTransforms(o))
      && SvgTransform.Apply(NvidiaTransforms(o), Point(0.0, 0.0)) == Point(n.offsetX, n.offsetY)
      && SvgTransform.Apply(NvidiaTransforms(o), Point(aw, ah)) == Point(n.offsetX + n.width, n.offsetY + n.height)
  {
    var n := NvidiaExport(o);
    var aw := if IsHorizontal(o) then 694.0 else 480.0;
    var ah := if IsHorizontal(o) then 133.0 else 372.0;
    assert n.scale * aw == n.width && n.scale * ah == n.height by {
      if IsHorizontal(o) {
        NvidiaExportHorizontal();
      } else {
        NvidiaExportVertical();
      }
    }
    TranslateScaleMaps(n.offsetX, n.offsetY, n.scale, Point(0.0, 0.0));
    TranslateScaleMaps(n.offsetX, n.offsetY, n.scale, Point(aw, ah));
  }

  /** `translate(t) scale(k)` sends `p` to `k * p + t`. */
  lemma TranslateScaleMaps(tx: real, ty: real, k: real, p: Point)
    ensures var ops := [SvgTransform.Translate(tx, ty), SvgTransform.Scale(k)];
      SvgTransform.NoRotation(ops) && SvgTransform.Apply(ops, p) == Point(k * p.x + tx, k * p.y + ty)
  {
    var ops := [SvgTransform.Translate(tx, ty), SvgTransform.Scale(k)];
    assert ops[1..] == [SvgTransform.Scale(k)] && ops[1..][1..] == [];
    assert SvgTransform.Apply(ops[1..], p) == Point(k * p.x, k * p.y);
  }

  /** The export does not draw the NVIDIA logo where the previews show it: the previews
      centre it on x = 480 and draw the vertical logo 477 wide. */
  lemma NvidiaExportVersusPreview(o: Orientation)
    ensures RectCenter(PreviewNvidiaLogo(o, ComputeLayout(o, 120.0).nvidiaArea)).x == 480.0
    ensures RectCenter(PreviewNvidiaLogo(o, ComputeLayout(o, 50.0).nvidiaArea)).x == 480.0
    ensures NvidiaExport(o).offsetX + NvidiaExport(o).width / 2.0 == 503.0
    ensures !IsHorizontal(o) ==> PreviewNvidiaLogo(o, ComputeLayout(o, 120.0).nvidiaArea).width == 477.0
                                 && NvidiaExport(o).width == 478.0
  {
    NvidiaExportCentred(o);
    PreviewNvidiaLogoCentred(o, ComputeLayout(o, 120.0).nvidiaArea);
    PreviewNvidiaLogoCentred(o, ComputeLayout(o, 50.0).nvidiaArea);
  }

  /** The NVIDIA logo file: the lockup art horizontally, the stacked one otherwise, in
      the dark or light variant (the dark lockup's path is spelt as in the source). */
  function NvidiaLogoPath(o: Orientation, dark: bool): string {
    if IsHorizontal(o) then (if dark then "/nvidia-logo-lcokup-dark.svg" else "/nvidia-logo-lockup.svg")
    else (if dark then "/nvidia-logo-dark.svg" else "/nvidia-logo.svg")
  }

  /** The separator of the export: 8 wide on the canvas midline, vertically centred. */
  function ExportSeparator(o: Orientation): Rect {
    var h := if IsHorizontal(o) then 304.0 else 550.0;
    Rect(CanvasWidth / 2.0 - SeparatorWidth / 2.0, (CanvasHeight - h) / 2.0, SeparatorWidth, h)
  }

  /** The export's separator is the one the previews draw, at x = 956. */
  lemma ExportSeparatorMatchesPreview(o: Orientation, padding: real)
    ensures ExportSeparator(o) == ComputeLayout(o, padding).separator
    ensures ExportSeparator(o).x == 956.0
    ensures ExportSeparator(o).y == (if IsHorizontal(o) then 388.0 else 265.0)
  {
  }

  /** The partner logo's transform list of both exports: the previews' shape of list,
      but scaling about the centre of the declared size `dims` (`GetSVGDimensions` of the
      logo data) rather than about a preview's own pivot. `None` when that centre is needed (the scale is not 1) and the size
      did not parse, where the source computes a list holding `NaN`. */
  function PartnerList(s: State, dims: Option<Bounds>): (r: Option<seq<SvgTransform.TransformOp>>)
    ensures r.None? <==> s.scale != 1.0 && dims.None?
  {
    if dims.Some? then Some(SvgTransform.CenteredList(s.offsetX, s.offsetY, s.scale, BoundsCenter(dims.value)))
    else if s.scale != 1.0 then None
    else Some(SvgTransform.ShiftList(s.offsetX, s.offsetY))
  }

  /** The partner list scales about the centre of the declared size and then shifts by the
      store's offset, so that centre is drawn at itself plus the offset; the list is empty
      exactly when the offset is zero and the scale 1. */
  lemma PartnerListMeaning(s: State, dims: Option<Bounds>)
    requires PartnerList(s, dims).Some?
    ensures var ops := PartnerList(s, dims).value;
      (|ops| > 0 <==> s.offsetX != 0.0 || s.offsetY != 0.0 || s.scale != 1.0)
      && (dims.Some? ==> SvgTransform.ScalesAbout(ops, s.offsetX, s.offsetY, s.scale, BoundsCenter(dims.value)))
      && (dims.Some? ==> var c := BoundsCenter(dims.value);
            SvgTransform.Apply(ops, c) == Point(c.x + s.offsetX, c.y + s.offsetY))
      && (s.scale == 1.0 ==> SvgTransform.ScalesAbout(ops, s.offsetX, s.offsetY, 1.0, Point(0.0, 0.0)))
  {
    var ops := PartnerList(s, dims).value;
    var c := if dims.Some? then BoundsCenter(dims.value) else Point(0.0, 0.0);
    SvgTransform.CenteredListEntries(s.offsetX, s.offsetY, s.scale, c);
    SvgTransform.CenteredListScalesAbout(s.offsetX, s.offsetY, s.scale, c);
    SvgTransform.CenteredListPivot(s.offsetX, s.offsetY, s.scale, c);
    if s.scale == 1.0 {
      assert ops == SvgTransform.CenteredList(s.offsetX, s.offsetY, 1.0, Point(0.0, 0.0));
      SvgTransform.CenteredListScalesAbout(s.offsetX, s.offsetY, 1.0, Point(0.0, 0.0));
    }
  }

  /** What the lockup export draws, back to front: the background fill, the NVIDIA group's
      transform, the separator and its fill, and the partner group's transform. */
  datatype LockupPlan = LockupPlan(background: string, nvidia: seq<SvgTransform.TransformOp>,
                                   separator: Rect, separatorFill: string,
                                   partner: Option<seq<SvgTransform.TransformOp>>)

  /** `exportLockupCanvas`: nothing without logo data; otherwise the plan for the
      orientation and the canvas theme. */
  function LockupExportPlan(s: State, o: Orientation, widthAttr: Option<string>, heightAttr: Option<string>): (r: Option<LockupPlan>)
    ensures r.None? <==> !HasLogoData(s)
    ensures r.Some? ==> r.value.background == (if s.isDarkCanvas then "#000000" else "#ffffff")
                        && r.value.separatorFill == (if s.isDarkCanvas then "#333333" else "#cccccc")
  {
    if !HasLogoData(s) then None
    else Some(LockupPlan(if s.isDarkCanvas then "#000000" else "#ffffff", NvidiaTransforms(o),
                         ExportSeparator(o), if s.isDarkCanvas then "#333333" else "#cccccc",
                         PartnerList(s, GetSVGDimensions(widthAttr, heightAttr))))
  }
}
