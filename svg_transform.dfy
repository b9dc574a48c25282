/** The SVG `transform` attribute that the previews and the exports put on the logo
    group: a list of `translate`, `scale` and `rotate` entries joined with spaces.
    As in SVG, the entries act right to left: the last one is applied to a point
    first. */
module SvgTransform {
  import opened Geometry

  /** One entry of a transform list. A `rotate` angle of `None` is the JavaScript
      value `undefined`, which the template literal writes as the word itself. */
  datatype TransformOp =
    | Translate(tx: real, ty: real)
    | Scale(factor: real)
    | Rotate(angle: Option<real>, cx: real, cy: real)

  /** The list holds no rotation, so its meaning is an affine map the model can state
      (rotation needs trigonometry and is kept uninterpreted). */
  predicate NoRotation(ops: seq<TransformOp>) {
    forall i :: 0 <= i < |ops| ==> !ops[i].Rotate?
  }

  /** Where one `translate` or `scale` entry sends a point. */
  function ApplyOp(op: TransformOp, p: Point): Point
    requires !op.Rotate?
  {
    match op
    case Translate(tx, ty) => Point(p.x + tx, p.y + ty)
    case Scale(f) => Point(f * p.x, f * p.y)
  }

  /** Where a rotation-free list sends a point: the first entry is applied last. */
  function Apply(ops: seq<TransformOp>, p: Point): Point
    requires NoRotation(ops)
  {
    if |ops| == 0 then p else ApplyOp(ops[0], Apply(ops[1..], p))
  }

  /** The text of one entry; `fmt` is JavaScript's conversion of a number to a string. */
  function RenderOp(op: TransformOp, fmt: real -> string): string {
    match op
    case Translate(tx, ty) => "translate(" + fmt(tx) + ", " + fmt(ty) + ")"
    case Scale(f) => "scale(" + fmt(f) + ")"
    case Rotate(a, cx, cy) =>
      "rotate(" + (if a.None? then "undefined" else fmt(a.value)) + ", " + fmt(cx) + ", " + fmt(cy) + ")"
  }

  /** `parts.join(sep)`. */
  function Join(parts: seq<string>, sep: string): (r: string)
    ensures |parts| == 0 ==> r == ""
    ensures |parts| == 1 ==> r == parts[0]
    ensures |parts| > 1 ==> r == parts[0] + sep + Join(parts[1..], sep)
  {
    if |parts| == 0 then "" else if |parts| == 1 then parts[0] else parts[0] + sep + Join(parts[1..], sep)
  }

  function RenderAll(ops: seq<TransformOp>, fmt: real -> string): (r: seq<string>)
    ensures |r| == |ops| && forall i :: 0 <= i < |ops| ==> r[i] == RenderOp(ops[i], fmt)
  {
    seq(|ops|, i requires 0 <= i < |ops| => RenderOp(ops[i], fmt))
  }

  /** The `transform` attribute: set to the joined entries when the list is not empty,
      and not set at all otherwise. */
  function Attribute(ops: seq<TransformOp>, fmt: real -> string): (r: Option<string>)
    ensures r.Some? <==> |ops| > 0
    ensures |ops| == 1 ==> r == Some(RenderOp(ops[0], fmt))
  {
    if |ops| == 0 then None else Some(Join(RenderAll(ops, fmt), " "))
  }

  /** The entries the previews push for an offset and a scale about the pivot `c`:
      `translate(offset)` when the offset is not zero, then `translate(c) scale(s)
      translate(-c)` when the scale is not 1. */
  function CenteredList(offsetX: real, offsetY: real, scale: real, c: Point): seq<TransformOp> {
    ShiftList(offsetX, offsetY) + ScaleList(scale, c)
  }

  function ShiftList(offsetX: real, offsetY: real): seq<TransformOp> {
    if offsetX != 0.0 || offsetY != 0.0 then [Translate(offsetX, offsetY)] else []
  }

  function ScaleList(scale: real, c: Point): seq<TransformOp> {
    if scale != 1.0 then [Translate(c.x, c.y), Scale(scale), Translate(-c.x, -c.y)] else []
  }

  /** The pivot taken from the store's anchor: `anchor?.[0] || 0` and
      `anchor?.[1] || 0`, which is the origin when there is no anchor (and keeps a
      zero coordinate as zero). */
  function AnchorPivot(anchor: Option<Point>): (c: Point)
    ensures anchor.None? ==> c == Point(0.0, 0.0)
    ensures anchor.Some? ==> c == anchor.value
  {
    anchor.GetOr(Point(0.0, 0.0))
  }

  /** The list builder: starts from an empty array and pushes the entries that apply. */
  method CenteredTransforms(offsetX: real, offsetY: real, scale: real, c: Point)
    returns (ops: seq<TransformOp>)
    ensures ops == CenteredList(offsetX, offsetY, scale, c)
  {
    ops := [];
    if offsetX != 0.0 || offsetY != 0.0 {
      ops := ops + [Translate(offsetX, offsetY)];
    }
    if scale != 1.0 {
      ops := ops + [Translate(c.x, c.y)];
      ops := ops + [Scale(scale)];
      ops := ops + [Translate(-c.x, -c.y)];
    }
  }

  /** Whatever entries are left out, the list moves a point `p` to
      `c + scale * (p - c) + offset`: it scales about `c`, then shifts by the offset. */
  lemma CenteredListMeaning(offsetX: real, offsetY: real, scale: real, c: Point, p: Point)
    ensures NoRotation(CenteredList(offsetX, offsetY, scale, c))
    ensures Apply(CenteredList(offsetX, offsetY, scale, c), p)
         == Point(ScaleAbout(scale, c, p).x + offsetX, ScaleAbout(scale, c, p).y + offsetY)
  {
    if offsetX != 0.0 || offsetY != 0.0 {
      ShiftedMeaning(offsetX, offsetY, scale, c, p);
    } else {
      assert CenteredList(offsetX, offsetY, scale, c) == ScaleList(scale, c);
      ScaleListMeaning(scale, c, p);
    }
  }

  lemma ShiftedMeaning(offsetX: real, offsetY: real, scale: real, c: Point, p: Point)
    requires offsetX != 0.0 || offsetY != 0.0
    ensures NoRotation(CenteredList(offsetX, offsetY, scale, c))
    ensures Apply(CenteredList(offsetX, offsetY, scale, c), p)
         == Point(ScaleAbout(scale, c, p).x + offsetX, ScaleAbout(scale, c, p).y + offsetY)
  {
    var tail := ScaleList(scale, c);
    ScaleListMeaning(scale, c, p);
    assert CenteredList(offsetX, offsetY, scale, c) == [Translate(offsetX, offsetY)] + tail;
    ApplyTranslateFirst(offsetX, offsetY, tail, p);
  }

  /** The scale entries, when present, scale about `c`; when absent the point stays,
      which is the same as scaling by 1. */
  lemma ScaleListMeaning(scale: real, c: Point, p: Point)
    ensures NoRotation(ScaleList(scale, c))
    ensures Apply(ScaleList(scale, c), p) == ScaleAbout(scale, c, p)
  {
    if scale != 1.0 {
      ScaleAboutMeaning(scale, c, p);
    } else {
      assert 1.0 * (p.x - c.x) == p.x - c.x && 1.0 * (p.y - c.y) == p.y - c.y;
    }
  }

  /** A leading translate shifts whatever the rest of the list gives. */
  lemma ApplyTranslateFirst(tx: real, ty: real, rest: seq<TransformOp>, p: Point)
    requires NoRotation(rest)
    ensures NoRotation([Translate(tx, ty)] + rest)
    ensures Apply([Translate(tx, ty)] + rest, p) == Point(Apply(rest, p).x + tx, Apply(rest, p).y + ty)
  {
    assert ([Translate(tx, ty)] + rest)[1..] == rest;
  }

  /** The three centre-scale entries scale a point about `c`. */
  lemma ScaleAboutMeaning(scale: real, c: Point, p: Point)
    ensures Apply([Translate(c.x, c.y), Scale(scale), Translate(-c.x, -c.y)], p) == ScaleAbout(scale, c, p)
  {
    var d := Point(p.x - c.x, p.y - c.y);
    assert Apply([Translate(-c.x, -c.y)], p) == d;
    assert Apply([Scale(scale), Translate(-c.x, -c.y)], p) == Point(scale * d.x, scale * d.y);
  }

  /** `c + scale * (p - c)`: the point `p` scaled by `scale` about `c`. */
  function ScaleAbout(scale: real, c: Point, p: Point): Point {
    Point(c.x + scale * (p.x - c.x), c.y + scale * (p.y - c.y))
  }

  /** The translate entry is there exactly when the offset is not zero and the three
      scale entries exactly when the scale is not 1. */
  lemma CenteredListEntries(offsetX: real, offsetY: real, scale: real, c: Point)
    ensures var ops := CenteredList(offsetX, offsetY, scale, c);
      |ops| == (if offsetX != 0.0 || offsetY != 0.0 then 1 else 0) + (if scale != 1.0 then 3 else 0)
      && ((offsetX != 0.0 || offsetY != 0.0) ==> ops[0] == Translate(offsetX, offsetY))
      && (scale != 1.0 ==> ops[|ops| - 2] == Scale(scale))
  {
  }

  /** The attribute is set exactly when the offset is not zero or the scale is not 1. */
  lemma CenteredListAttribute(offsetX: real, offsetY: real, scale: real, c: Point, fmt: real -> string)
    ensures Attribute(CenteredList(offsetX, offsetY, scale, c), fmt).Some?
        <==> offsetX != 0.0 || offsetY != 0.0 || scale != 1.0
  {
    CenteredListEntries(offsetX, offsetY, scale, c);
  }

  /** The list is rotation-free and moves every point `p` to
      `c + scale * (p - c) + offset`. */
  ghost predicate ScalesAbout(ops: seq<TransformOp>, offsetX: real, offsetY: real, scale: real, c: Point) {
    NoRotation(ops) &&
    forall p :: Apply(ops, p) == Point(ScaleAbout(scale, c, p).x + offsetX, ScaleAbout(scale, c, p).y + offsetY)
  }

  lemma CenteredListScalesAbout(offsetX: real, offsetY: real, scale: real, c: Point)
    ensures ScalesAbout(CenteredList(offsetX, offsetY, scale, c), offsetX, offsetY, scale, c)
  {
    forall p {
      CenteredListMeaning(offsetX, offsetY, scale, c, p);
    }
  }

  /** With no offset and scale 1 the attribute is left off and the logo is drawn
      where it is. */
  lemma CenteredListIdentity(c: Point, p: Point, fmt: real -> string)
    ensures CenteredList(0.0, 0.0, 1.0, c) == []
    ensures Attribute(CenteredList(0.0, 0.0, 1.0, c), fmt).None?
    ensures Apply(CenteredList(0.0, 0.0, 1.0, c), p) == p
  {
  }

  /** The pivot is a fixed point of the scale: it lands exactly on `c + offset`. */
  lemma CenteredListPivot(offsetX: real, offsetY: real, scale: real, c: Point)
    ensures NoRotation(CenteredList(offsetX, offsetY, scale, c))
    ensures Apply(CenteredList(offsetX, offsetY, scale, c), c) == Point(c.x + offsetX, c.y + offsetY)
  {
    CenteredListMeaning(offsetX, offsetY, scale, c, c);
  }
}
