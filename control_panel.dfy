/** src/components/ControlPanel.tsx: the single-logo control panel with its nudge and
    Center buttons and its SVG export. */
module ControlPanel {
  import opened Geometry
  import opened LogoStore
  import opened Text
  import SvgTransform

  datatype Direction = Up | Down | Left | Right

  /** `handleNudge`'s default amount, and the amount the arrow buttons pass. */
  const DefaultNudge: real := 1.0
  const ButtonNudge: real := 5.0

  /** The offset record `handleNudge` computes: left and right move x, up and down move
      y (up is negative in SVG coordinates); both offsets are always sent. */
  function NudgePatch(s: State, d: Direction, amount: real): TransformPatch {
    var dx := if d == Left then -amount else if d == Right then amount else 0.0;
    var dy := if d == Up then -amount else if d == Down then amount else 0.0;
    TransformPatch(None, None, None, Some(s.offsetX + dx), Some(s.offsetY + dy))
  }

  /** `handleNudge`: writes the new offsets through `setTransform`. */
  method Nudge(store: Store, d: Direction, amount: real)
    modifies store
    ensures store.Snapshot() == SetTransformStep(old(store.Snapshot()), NudgePatch(old(store.Snapshot()), d, amount))
  {
    var s := store.Snapshot();
    store.SetTransform(NudgePatch(s, d, amount));
  }

  function Opposite(d: Direction): Direction {
    match d
    case Up => Down
    case Down => Up
    case Left => Right
    case Right => Left
  }

  /** A nudge moves exactly one offset by the amount, in the named direction, and
      changes nothing else. */
  lemma NudgeMovesOneAxis(s: State, d: Direction, amount: real)
    ensures var r := SetTransformStep(s, NudgePatch(s, d, amount));
      r == s.(offsetX := r.offsetX, offsetY := r.offsetY)
      && (d == Left ==> r.offsetX == s.offsetX - amount && r.offsetY == s.offsetY)
      && (d == Right ==> r.offsetX == s.offsetX + amount && r.offsetY == s.offsetY)
      && (d == Up ==> r.offsetY == s.offsetY - amount && r.offsetX == s.offsetX)
      && (d == Down ==> r.offsetY == s.offsetY + amount && r.offsetX == s.offsetX)
  {
  }

  /** Nudging back the other way by the same amount restores the state. */
  lemma NudgeOppositeRestores(s: State, d: Direction, amount: real)
    ensures var r := SetTransformStep(s, NudgePatch(s, d, amount));
      SetTransformStep(r, NudgePatch(r, Opposite(d), amount)) == s
  {
  }

  /** An arrow button: a nudge by 5 in its direction. */
  method ArrowButton(store: Store, d: Direction)
    modifies store
    ensures store.Snapshot() == SetTransformStep(old(store.Snapshot()), NudgePatch(old(store.Snapshot()), d, ButtonNudge))
  {
    Nudge(store, d, ButtonNudge);
  }

  /** The Center button: `setTransform({ offsetX: 200, offsetY: 175 })`. */
  method CenterPreset(store: Store)
    modifies store
    ensures store.Snapshot() == SetTransformStep(old(store.Snapshot()), CenterPatch)
  {
    store.SetTransform(CenterPatch);
  }

  const CenterPatch: TransformPatch := TransformPatch(None, None, None, Some(200.0), Some(175.0))

  /** The Center button puts the offsets at exactly (200, 175), whatever they were, and
      leaves the scale and everything else alone. */
  lemma CenterPresetResult(s: State)
    ensures SetTransformStep(s, CenterPatch) == s.(offsetX := 200.0, offsetY := 175.0)
  {
  }

  /** The export's transform list: `translate(offset)` when the offset is not zero,
      `scale(s)` about the origin when the scale is not 1, and `rotate(rotation, 400, 350)`
      when the rotation is not 0. The store declares no `rotation` field and starts
      without one; the rotation slider adds it through the object spread of
      `setTransform`, as do the `[` and `]` keys. `None` is the `undefined` read before
      either first sets it. */
  function ExportList(offsetX: real, offsetY: real, scale: real, rotation: Option<real>): seq<SvgTransform.TransformOp> {
    SvgTransform.ShiftList(offsetX, offsetY)
    + (if scale != 1.0 then [SvgTransform.Scale(scale)] else [])
    + (if rotation != Some(0.0) then [SvgTransform.Rotate(rotation, 400.0, 350.0)] else [])
  }

  /** The export builder, pushing entries in that order. */
  method ExportTransforms(offsetX: real, offsetY: real, scale: real, rotation: Option<real>)
    returns (ops: seq<SvgTransform.TransformOp>)
    ensures ops == ExportList(offsetX, offsetY, scale, rotation)
  {
    ops := [];
    if offsetX != 0.0 || offsetY != 0.0 {
      ops := ops + [SvgTransform.Translate(offsetX, offsetY)];
    }
    if scale != 1.0 {
      ops := ops + [SvgTransform.Scale(scale)];
    }
    if rotation != Some(0.0) {
      ops := ops + [SvgTransform.Rotate(rotation, 400.0, 350.0)];
    }
  }

  /** `handleExport`: without logo data there is no export at all (only a toast);
      otherwise the export list of the store's transform. */
  function Export(s: State, rotation: Option<real>): (r: Option<seq<SvgTransform.TransformOp>>)
    ensures r.None? <==> !HasLogoData(s)
  {
    if !HasLogoData(s) then None else Some(ExportList(s.offsetX, s.offsetY, s.scale, rotation))
  }

  /** With a rotation of 0 the list holds no rotation and moves each point `p` to
      `scale * p + offset` (a scale about the origin, then the shift); the attribute is
      set exactly when the offset is not zero or the scale is not 1. */
  lemma ExportListUnrotated(offsetX: real, offsetY: real, scale: real, fmt: real -> string)
    ensures var ops := ExportList(offsetX, offsetY, scale, Some(0.0));
      SvgTransform.ScalesAbout(ops, offsetX, offsetY, scale, Point(0.0, 0.0))
      && (SvgTransform.Attribute(ops, fmt).Some? <==> offsetX != 0.0 || offsetY != 0.0 || scale != 1.0)
  {
    var ops := ExportList(offsetX, offsetY, scale, Some(0.0));
    var tail := if scale != 1.0 then [SvgTransform.Scale(scale)] else [];
    assert ops == SvgTransform.ShiftList(offsetX, offsetY) + tail;
    forall p
      ensures SvgTransform.Apply(ops, p)
           == Point(SvgTransform.ScaleAbout(scale, Point(0.0, 0.0), p).x + offsetX,
                    SvgTransform.ScaleAbout(scale, Point(0.0, 0.0), p).y + offsetY)
    {
      assert SvgTransform.Apply(tail, p) == SvgTransform.ScaleAbout(scale, Point(0.0, 0.0), p) by {
        assert p.x - 0.0 == p.x && p.y - 0.0 == p.y;
        if scale == 1.0 {
          assert 1.0 * p.x == p.x && 1.0 * p.y == p.y;
        }
      }
      if offsetX != 0.0 || offsetY != 0.0 {
        SvgTransform.ApplyTranslateFirst(offsetX, offsetY, tail, p);
      }
    }
  }

  /** As written, while the store holds no `rotation` (from the start until the rotation
      slider or a rotate key first sets it) it reads `undefined`, which is not 0, so the
      export ends with `rotate(undefined, 400, 350)` and always gets a transform
      attribute, even when the offset is zero and the scale is 1. */
  lemma ExportAlwaysRotates(offsetX: real, offsetY: real, scale: real, fmt: real -> string)
    ensures var ops := ExportList(offsetX, offsetY, scale, None);
      |ops| > 0 && ops[|ops| - 1] == SvgTransform.Rotate(None, 400.0, 350.0)
      && !SvgTransform.NoRotation(ops)
      && SvgTransform.Attribute(ops, fmt).Some?
  {
  }

  /** That entry's text starts with `rotate(undefined`. */
  lemma UndefinedRotationText(fmt: real -> string)
    ensures StartsWith(SvgTransform.RenderOp(SvgTransform.Rotate(None, 400.0, 350.0), fmt), "rotate(undefined")
  {
    var t := SvgTransform.RenderOp(SvgTransform.Rotate(None, 400.0, 350.0), fmt);
    assert t == "rotate(" + "undefined" + (", " + fmt(400.0) + ", " + fmt(350.0) + ")");
    assert t[..16] == "rotate(" + "undefined";
  }

  /** The rotation the export evidently means: an absent rotation is no rotation. */
  function StoreRotation(rotation: Option<real>): real {
    rotation.GetOr(0.0)
  }

  /** The corrected export list, reading an absent rotation as 0: with no rotation set
      it is the plain shift-and-scale, set exactly when the transform is not the
      identity. */
  function CorrectedExportList(offsetX: real, offsetY: real, scale: real, rotation: Option<real>): seq<SvgTransform.TransformOp> {
    ExportList(offsetX, offsetY, scale, Some(StoreRotation(rotation)))
  }

  lemma CorrectedExportUnrotated(offsetX: real, offsetY: real, scale: real, fmt: real -> string)
    ensures var ops := CorrectedExportList(offsetX, offsetY, scale, None);
      SvgTransform.ScalesAbout(ops, offsetX, offsetY, scale, Point(0.0, 0.0))
      && (SvgTransform.Attribute(ops, fmt).Some? <==> offsetX != 0.0 || offsetY != 0.0 || scale != 1.0)
    ensures CorrectedExportList(0.0, 0.0, 1.0, None) == []
  {
    ExportListUnrotated(offsetX, offsetY, scale, fmt);
  }
}
