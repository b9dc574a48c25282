/** src/lib/kaizenBridge.ts: the theme bridge that reads the page's computed colours,
    converts them and a pop colour to the `H S% L%` form of the CSS variables, and
    derives a muted colour from the text colour. */
module KaizenBridge {
  import opened Geometry
  import opened Text

  // ---------------------------------------------------------------- the HSL formula

  /** A number as the template literal writes it after `Math.round`: an integer,
      `Infinity`, or `NaN`. */
  datatype Rounded = Finite(n: int) | Infinity | NotANumber

  function RenderRounded(x: Rounded): string {
    match x
    case Finite(n) => DecimalString(n)
    case Infinity => "Infinity"
    case NotANumber => "NaN"
  }

  /** Hue in degrees, saturation and lightness in percent, as rounded for the output. */
  datatype Hsl = Hsl(h: Rounded, s: Rounded, l: Rounded)

  /** The output `${h} ${s}% ${l}%`. */
  function HslText(c: Hsl): string {
    RenderRounded(c.h) + " " + RenderRounded(c.s) + "% " + RenderRounded(c.l) + "%"
  }

  function Max3(a: real, b: real, c: real): real { Max(Max(a, b), c) }

  function Min3(a: real, b: real, c: real): real { Min(Min(a, b), c) }

  /** The hue, as a fraction of the full turn, of a colour whose lightest component is
      `mx` and whose spread is `diff`: the `switch (max)` tries red, green and blue in
      that order. */
  function HueFraction(r: real, g: real, b: real, mx: real, diff: real): real
    requires diff != 0.0
  {
    var h6 :=
      if mx == r then (g - b) / diff + (if g < b then 6.0 else 0.0)
      else if mx == g then (b - r) / diff + 2.0
      else if mx == b then (r - g) / diff + 4.0
      else 0.0;
    h6 / 6.0
  }

  /** The saturation of a colour with a non-zero spread; `None` is the `Infinity` of a
      zero denominator, which only components outside 0..1 reach. */
  function Saturation(mx: real, mn: real): Option<real> {
    var diff, l := mx - mn, (mx + mn) / 2.0;
    if l > 0.5 then (if 2.0 - mx - mn == 0.0 then None else Some(diff / (2.0 - mx - mn)))
    else (if mx + mn == 0.0 then None else Some(diff / (mx + mn)))
  }

  /** The conversion shared, line for line, by `rgbToHsl` and `hexToHsl`, on the
      components divided by 255. */
  function HslOf(r: real, g: real, b: real): Hsl {
    var mx, mn := Max3(r, g, b), Min3(r, g, b);
    var diff, l := mx - mn, (mx + mn) / 2.0;
    var light := Finite(Round(l * 100.0));
    if diff == 0.0 then Hsl(Finite(0), Finite(0), light)
    else
      var s := Saturation(mx, mn);
      Hsl(Finite(Round(HueFraction(r, g, b, mx, diff) * 360.0)),
          if s.None? then Infinity else Finite(Round(s.value * 100.0)), light)
  }

  /** A grey (equal components) has hue 0 and saturation 0, and its lightness is the
      component in percent. */
  lemma AchromaticHsl(x: real)
    ensures HslOf(x, x, x) == Hsl(Finite(0), Finite(0), Finite(Round(x * 100.0)))
  {
    assert (x + x) / 2.0 == x;
  }

  /** The lightness is a number that lies between the smallest and the largest
      component, in percent, and depends only on which values the components take, not
      on which channel holds which: swapping any two channels keeps it. */
  lemma LightnessIsMidrange(r: real, g: real, b: real)
    ensures HslOf(r, g, b).l.Finite?
    ensures Round(Min3(r, g, b) * 100.0) <= HslOf(r, g, b).l.n <= Round(Max3(r, g, b) * 100.0)
    ensures HslOf(g, r, b).l == HslOf(r, g, b).l
    ensures HslOf(r, b, g).l == HslOf(r, g, b).l
    ensures HslOf(b, g, r).l == HslOf(r, g, b).l
  {
    var mx, mn := Max3(r, g, b), Min3(r, g, b);
    RoundMonotone(mn * 100.0, (mx + mn) / 2.0 * 100.0);
    RoundMonotone((mx + mn) / 2.0 * 100.0, mx * 100.0);
  }

  /** Rounding never reverses an order. */
  lemma RoundMonotone(x: real, y: real)
    requires x <= y
    ensures Round(x) <= Round(y)
  {
  }

  /** An exact half in the domain: rgb(248, 247, 246) has saturation exactly 12.5%,
      which the exact model rounds up to 13. */
  lemma SaturationAtHalf()
    ensures Saturation(248.0 / 255.0, 246.0 / 255.0) == Some(0.125)
    ensures HslOf(248.0 / 255.0, 247.0 / 255.0, 246.0 / 255.0).s == Finite(13)
  {
    assert Max3(248.0 / 255.0, 247.0 / 255.0, 246.0 / 255.0) == 248.0 / 255.0;
    assert Min3(248.0 / 255.0, 247.0 / 255.0, 246.0 / 255.0) == 246.0 / 255.0;
    assert Round(0.125 * 100.0) == 13;
  }

  /** For components within 0..1 every part is a number: the hue within 0..360 and the
      saturation and the lightness within 0..100. */
  lemma HslBounds(r: real, g: real, b: real)
    requires 0.0 <= r <= 1.0 && 0.0 <= g <= 1.0 && 0.0 <= b <= 1.0
    ensures var c := HslOf(r, g, b);
      c.h.Finite? && c.s.Finite? && c.l.Finite?
      && 0 <= c.h.n <= 360 && 0 <= c.s.n <= 100 && 0 <= c.l.n <= 100
  {
    var mx, mn := Max3(r, g, b), Min3(r, g, b);
    var diff := mx - mn;
    RoundWithin((mx + mn) / 2.0 * 100.0, 100);
    if diff != 0.0 {
      HueWithin(r, g, b, mx, mn);
      RoundWithin(HueFraction(r, g, b, mx, diff) * 360.0, 360);
      SaturationWithin(mx, mn);
      RoundWithin(Saturation(mx, mn).value * 100.0, 100);
    }
  }

  lemma RoundWithin(x: real, top: int)
    requires 0.0 <= x <= top as real
    ensures 0 <= Round(x) <= top
  {
  }

  /** `a / d` lies within `lo..hi` when `a` lies within `lo * d..hi * d`. */
  lemma DivWithin(a: real, d: real, lo: real, hi: real)
    requires d > 0.0 && lo * d <= a <= hi * d
    ensures lo <= a / d <= hi
  {
    assert a / d * d == a;
  }

  lemma HueWithin(r: real, g: real, b: real, mx: real, mn: real)
    requires mx == Max3(r, g, b) && mn == Min3(r, g, b) && mx - mn != 0.0
    ensures 0.0 <= HueFraction(r, g, b, mx, mx - mn) <= 1.0
  {
    var diff := mx - mn;
    assert diff > 0.0;
    if mx == r {
      DivWithin(g - b, diff, -1.0, 1.0);
      if g < b {
        DivWithin(g - b, diff, -1.0, 0.0);
      } else {
        DivWithin(g - b, diff, 0.0, 1.0);
      }
    } else if mx == g {
      DivWithin(b - r, diff, -1.0, 1.0);
    } else {
      DivWithin(r - g, diff, -1.0, 1.0);
    }
  }

  lemma SaturationWithin(mx: real, mn: real)
    requires 0.0 <= mn < mx <= 1.0
    ensures Saturation(mx, mn).Some? && 0.0 <= Saturation(mx, mn).value <= 1.0
  {
    if (mx + mn) / 2.0 > 0.5 {
      DivWithin(mx - mn, 2.0 - mx - mn, 0.0, 1.0);
    } else {
      DivWithin(mx - mn, mx + mn, 0.0, 1.0);
    }
  }

  /** Pure red and pure green: hue 0 and 120, full saturation, half lightness. */
  lemma PrimaryHsl()
    ensures HslOf(1.0, 0.0, 0.0) == Hsl(Finite(0), Finite(100), Finite(50))
    ensures HslOf(0.0, 1.0, 0.0) == Hsl(Finite(120), Finite(100), Finite(50))
    ensures HslOf(0.0, 0.0, 1.0) == Hsl(Finite(240), Finite(100), Finite(50))
  {
    assert HueFraction(0.0, 1.0, 0.0, 1.0, 1.0) * 360.0 == 120.0;
    assert HueFraction(0.0, 0.0, 1.0, 1.0, 1.0) * 360.0 == 240.0;
  }

  // ---------------------------------------------------------------- rgbToHsl

  predicate AllDigits(d: string) {
    forall i :: 0 <= i < |d| ==> DigitValue(d[i]) < 10
  }

  /** A `(\d+)` group at the start of `t`: the longest run of decimal digits, and what
      follows it. */
  function DigitGroup(t: string): (r: Option<(string, string)>)
    ensures r.Some? ==> |r.value.0| > 0 && AllDigits(r.value.0) && t == r.value.0 + r.value.1
                        && (r.value.1 == [] || DigitValue(r.value.1[0]) >= 10)
  {
    var n := DigitRun(t, 10);
    if n == 0 then None else Some((t[..n], t[n..]))
  }

  /** The length of the run of digits and dots at the start of `t` (`[\d.]+`). */
  function DecimalRun(t: string): (n: nat)
    ensures n <= |t|
  {
    if |t| > 0 && (DigitValue(t[0]) < 10 || t[0] == '.') then 1 + DecimalRun(t[1..]) else 0
  }

  /** The three captured groups of the colour pattern. */
  datatype RgbGroups = RgbGroups(red: string, green: string, blue: string)

  /** `rgba?\(` at the start of `t`: what follows the parenthesis. */
  function AfterOpen(t: string): Option<string> {
    if !StartsWith(t, "rgb") then None
    else
      var u := if |t| > 3 && t[3] == 'a' then t[4..] else t[3..];
      if |u| > 0 && u[0] == '(' then Some(u[1..]) else None
  }

  /** `,\s*(\d+)`: a comma, optional white space and a digit group. */
  function CommaGroup(v: string): Option<(string, string)> {
    if |v| > 0 && v[0] == ',' then DigitGroup(TrimStart(v[1..])) else None
  }

  /** `(?:,\s*[\d.]+)?\)`: the optional alpha part, then the closing parenthesis. */
  predicate Closes(x: string) {
    (|x| > 0 && x[0] == ')') ||
    (|x| > 0 && x[0] == ',' &&
     var y := TrimStart(x[1..]);
     var m := DecimalRun(y);
     0 < m < |y| && y[m] == ')')
  }

  /** The pattern `rgba?\((\d+),\s*(\d+),\s*(\d+)(?:,\s*[\d.]+)?\)` matched at the start
      of `t`. Every part is determined by the next character, so no other way of
      matching exists. */
  function MatchRgbPrefix(t: string): Option<RgbGroups> {
    var u := AfterOpen(t);
    if u.None? then None
    else
      var a := DigitGroup(u.value);
      if a.None? then None
      else
        var b := CommaGroup(a.value.1);
        if b.None? then None
        else
          var c := CommaGroup(b.value.1);
          if c.None? || !Closes(c.value.1) then None
          else Some(RgbGroups(a.value.0, b.value.0, c.value.0))
  }

  /** `match`: the leftmost position where the pattern matches. */
  function FindRgb(t: string): Option<RgbGroups>
    decreases |t|
  {
    if MatchRgbPrefix(t).Some? then MatchRgbPrefix(t)
    else if |t| == 0 then None
    else FindRgb(t[1..])
  }

  /** `parseInt(group, 10)` of a captured group of decimal digits. */
  function ComponentValue(d: string): nat {
    DigitsValue(d, 10)
  }

  /** A captured group is read by `parseInt` as its digits' value. */
  lemma ComponentValueIsParseInt(d: string)
    requires |d| > 0 && AllDigits(d)
    ensures ParseInt(d, Decimal) == Some(ComponentValue(d))
  {
    DigitRunOfPrefix(d, 10, |d|);
    assert d[..|d|] == d;
    assert !HasHexPrefix(d);
    ParseIntDigits(d, Decimal, DigitsValue(d, 10));
  }

  /** `rgbToHsl`: black, `0 0% 0%`, when the text holds no `rgb(...)` or `rgba(...)`
      colour; otherwise the conversion of the first one, each component divided by 255. */
  function RgbToHsl(rgbString: string): string {
    var m := FindRgb(rgbString);
    if m.None? then "0 0% 0%"
    else
      ComponentsHsl(ComponentValue(m.value.red), ComponentValue(m.value.green), ComponentValue(m.value.blue))
  }

  /** The conversion of three component values, each divided by 255. */
  function ComponentsHsl(r: int, g: int, b: int): string {
    HslText(HslOf(r as real / 255.0, g as real / 255.0, b as real / 255.0))
  }

  /** A text in which `rgb` never occurs gives black. */
  lemma RgbFallback(t: string)
    requires forall i :: 0 <= i <= |t| ==> !StartsWith(t[i..], "rgb")
    ensures RgbToHsl(t) == "0 0% 0%"
  {
    FindRgbNone(t);
  }

  lemma {:induction false} FindRgbNone(t: string)
    requires forall i :: 0 <= i <= |t| ==> !StartsWith(t[i..], "rgb")
    ensures FindRgb(t) == None
    decreases |t|
  {
    assert t[0..] == t;
    if |t| > 0 {
      forall i | 0 <= i <= |t[1..]|
        ensures !StartsWith(t[1..][i..], "rgb")
      {
        assert t[1..][i..] == t[i + 1..];
      }
      FindRgbNone(t[1..]);
    }
  }

  /** A run of digits is read back as one captured group. */
  lemma DigitGroupOf(d: string, rest: string)
    requires |d| > 0 && AllDigits(d)
    requires rest == [] || DigitValue(rest[0]) >= 10
    ensures DigitGroup(d + rest) == Some((d, rest))
  {
    var t := d + rest;
    DigitRunOfPrefix(t, 10, |d|);
    assert t[..|d|] == d && t[|d|..] == rest;
  }

  /** `, ` and a run of digits are read back as the next captured group. */
  lemma CommaGroupOf(d: string, rest: string)
    requires |d| > 0 && AllDigits(d)
    requires rest == [] || DigitValue(rest[0]) >= 10
    ensures CommaGroup(", " + d + rest) == Some((d, rest))
  {
    assert ", " + d + rest == ", " + (d + rest);
    DigitIsNoSpaceNorSign(d[0]);
    CommaSpaceSkipped(d + rest);
    DigitGroupOf(d, rest);
  }

  /** After `, ` the white space is skipped up to the first other character. */
  lemma CommaSpaceSkipped(x: string)
    requires |x| > 0 && !IsSpace(x[0])
    ensures CommaGroup(", " + x) == DigitGroup(x)
  {
    var v := ", " + x;
    assert v[1..] == [' '] + x;
    assert ([' '] + x)[1..] == x;
    TrimStartNoSpace(x);
  }

  /** `rgb(` is an opening with nothing skipped. */
  lemma AfterOpenOf(rest: string)
    ensures AfterOpen("rgb(" + rest) == Some(rest)
  {
    var t := "rgb(" + rest;
    assert t[..3] == "rgb";
    assert t[3] == '(';
    assert t[3..][1..] == rest;
  }

  /** The match is assembled from its parts. */
  lemma MatchOfParts(t: string, u: string, a: string, v: string, b: string, w: string, c: string, x: string)
    requires AfterOpen(t) == Some(u) && DigitGroup(u) == Some((a, v))
    requires CommaGroup(v) == Some((b, w)) && CommaGroup(w) == Some((c, x)) && Closes(x)
    ensures MatchRgbPrefix(t) == Some(RgbGroups(a, b, c))
  {
  }

  lemma RgbTextShape(dr: string, dg: string, db: string)
    ensures "rgb(" + dr + ", " + dg + ", " + db + ")" == "rgb(" + (dr + (", " + dg + (", " + db + ")")))
  {
  }

  /** `rgb(R, G, B)` written with digit runs is matched with those runs as its groups. */
  lemma MatchOfDigits(dr: string, dg: string, db: string)
    requires |dr| > 0 && AllDigits(dr) && |dg| > 0 && AllDigits(dg) && |db| > 0 && AllDigits(db)
    ensures MatchRgbPrefix("rgb(" + dr + ", " + dg + ", " + db + ")") == Some(RgbGroups(dr, dg, db))
  {
    var tail2 := ", " + db + ")";
    var tail1 := ", " + dg + tail2;
    var t := "rgb(" + dr + ", " + dg + ", " + db + ")";
    RgbTextShape(dr, dg, db);
    AfterOpenOf(dr + tail1);
    DigitGroupOf(dr, tail1);
    CommaGroupOf(dg, tail2);
    CommaGroupOf(db, ")");
    MatchOfParts(t, dr + tail1, dr, tail1, dg, tail2, db, ")");
  }

  /** The colour text `getComputedStyle` produces: `rgb(R, G, B)`. */
  function RgbString(r: nat, g: nat, b: nat): string {
    "rgb(" + DecimalString(r) + ", " + DecimalString(g) + ", " + DecimalString(b) + ")"
  }

  /** A text whose first colour has the groups `m` converts from their values. */
  lemma RgbToHslOfMatch(t: string, m: RgbGroups)
    requires FindRgb(t) == Some(m)
    ensures RgbToHsl(t) == ComponentsHsl(ComponentValue(m.red), ComponentValue(m.green), ComponentValue(m.blue))
  {
  }

  /** `rgb(R, G, B)` is converted from exactly R, G and B. */
  lemma RgbStringConverts(r: nat, g: nat, b: nat)
    ensures RgbToHsl(RgbString(r, g, b)) == ComponentsHsl(r, g, b)
  {
    var dr, dg, db := NatString(r), NatString(g), NatString(b);
    MatchOfDigits(dr, dg, db);
    var m := RgbGroups(dr, dg, db);
    assert FindRgb(RgbString(r, g, b)) == Some(m);
    RgbToHslOfMatch(RgbString(r, g, b), m);
    NatStringValue(r);
    NatStringValue(g);
    NatStringValue(b);
  }

  // ---------------------------------------------------------------- hexToHsl

  /** `s.replace(c, '')` with a one-character string pattern: the first occurrence only. */
  function RemoveFirst(s: string, c: char): (r: string)
    ensures c !in s ==> r == s
    ensures |s| > 0 && s[0] == c ==> r == s[1..]
  {
    if |s| == 0 then s
    else if s[0] == c then s[1..]
    else [s[0]] + RemoveFirst(s[1..], c)
  }

  function MinNat(a: nat, b: nat): nat { if a <= b then a else b }

  /** `substring(start, end)`: both ends clamped to the text, swapped when reversed. */
  function Substring(s: string, start: nat, end: nat): string {
    var a, b := MinNat(start, |s|), MinNat(end, |s|);
    if a <= b then s[a..b] else s[b..a]
  }

  /** `parseInt(hex.substring(i, i + 2), 16)`; `None` stands for `NaN`. */
  function HexComponent(hex: string, i: nat): Option<int> {
    ParseInt(Substring(hex, i, i + 2), Hexadecimal)
  }

  /** `hexToHsl`: the first `#` is removed and characters 0-1, 2-3 and 4-5 are read in
      base 16. A component that does not parse makes the maximum, the minimum and so the
      saturation and the lightness `NaN`, while the hue, matched by no `case`, stays 0. */
  function HexToHsl(hex: string): string {
    var h := RemoveFirst(hex, '#');
    var r, g, b := HexComponent(h, 0), HexComponent(h, 2), HexComponent(h, 4);
    if r.None? || g.None? || b.None? then HslText(Hsl(Finite(0), NotANumber, NotANumber))
    else ComponentsHsl(r.value, g.value, b.value)
  }

  predicate HexPair(p: string) {
    |p| == 2 && DigitValue(p[0]) < 16 && DigitValue(p[1]) < 16
  }

  /** Two hexadecimal digits are read in base 16. */
  lemma HexPairValue(p: string)
    requires HexPair(p)
    ensures ParseInt(p, Hexadecimal) == Some(DigitsValue(p, 16))
  {
    TrimStartNoSpace(p);
    assert ParseSigned(p, Hexadecimal) == ParseUnsigned(p, Hexadecimal);
    DigitRunOfPrefix(p, 16, 2);
    assert p[..2] == p;
  }

  /** `#RRGGBB` is converted from the three pairs read in base 16. */
  lemma HexDigitsConvert(p1: string, p2: string, p3: string)
    requires HexPair(p1) && HexPair(p2) && HexPair(p3)
    ensures HexToHsl("#" + p1 + p2 + p3) == ComponentsHsl(DigitsValue(p1, 16), DigitsValue(p2, 16), DigitsValue(p3, 16))
  {
    var h := p1 + p2 + p3;
    assert ("#" + p1 + p2 + p3)[1..] == h;
    assert Substring(h, 0, 2) == p1 && Substring(h, 2, 4) == p2 && Substring(h, 4, 6) == p3;
    HexPairValue(p1);
    HexPairValue(p2);
    HexPairValue(p3);
  }

  /** `hexToHsl("#RRGGBB")` and `rgbToHsl("rgb(R, G, B)")` agree for the same component
      values. */
  lemma HexAgreesWithRgb(p1: string, p2: string, p3: string)
    requires HexPair(p1) && HexPair(p2) && HexPair(p3)
    ensures HexToHsl("#" + p1 + p2 + p3)
         == RgbToHsl(RgbString(DigitsValue(p1, 16), DigitsValue(p2, 16), DigitsValue(p3, 16)))
  {
    HexDigitsConvert(p1, p2, p3);
    RgbStringConverts(DigitsValue(p1, 16), DigitsValue(p2, 16), DigitsValue(p3, 16));
  }

  /** Two hexadecimal digits hold a value within 0..255, so a `#RRGGBB` colour converts
      to numbers within the HSL ranges. */
  lemma HexPairRange(p: string)
    requires HexPair(p)
    ensures DigitsValue(p, 16) <= 255
  {
    assert DigitsValue(p[..1], 16) == DigitValue(p[0]) by {
      assert p[..1][..0] == [];
    }
  }

  /** `#FF0000`, `#00FF00` and `#0000FF` are the primaries. */
  lemma HexPrimaries()
    ensures HexToHsl("#FF0000") == HslText(Hsl(Finite(0), Finite(100), Finite(50)))
    ensures HexToHsl("#00FF00") == HslText(Hsl(Finite(120), Finite(100), Finite(50)))
    ensures HexToHsl("#0000FF") == HslText(Hsl(Finite(240), Finite(100), Finite(50)))
  {
    HexFF();
    HexPairZero();
    assert "#FF0000" == "#" + "FF" + "00" + "00";
    assert "#00FF00" == "#" + "00" + "FF" + "00";
    assert "#0000FF" == "#" + "00" + "00" + "FF";
    HexDigitsConvert("FF", "00", "00");
    HexDigitsConvert("00", "FF", "00");
    HexDigitsConvert("00", "00", "FF");
    PrimaryHsl();
    assert 255 as real / 255.0 == 1.0 && 0 as real / 255.0 == 0.0;
  }

  lemma HexFF()
    ensures HexPair("FF") && DigitsValue("FF", 16) == 255
  {
    assert "FF"[..1] == "F" && "F"[..0] == [];
  }

  lemma HexPairZero()
    ensures HexPair("00") && DigitsValue("00", 16) == 0
  {
    assert "00"[..1] == "0" && "0"[..0] == [];
  }

  /** The written form of a whole colour: `H S% L%`, here `0 100% 50%`. */
  lemma RedText()
    ensures HslText(Hsl(Finite(0), Finite(100), Finite(50))) == "0 100% 50%"
  {
    assert NatString(100) == "100" by {
      assert NatString(10) == "10";
    }
    assert NatString(50) == "50";
  }

  /** The default pop colour `#76B900` is `82 100% 36%`. */
  lemma DefaultPopColorHsl()
    ensures HexToHsl(DefaultPopColor) == HslText(Hsl(Finite(82), Finite(100), Finite(36)))
  {
    assert DefaultPopColor == "#" + "76" + "B9" + "00";
    assert HexPair("76") && DigitsValue("76", 16) == 118 by {
      assert "76"[..1] == "7" && "7"[..0] == [];
    }
    assert HexPair("B9") && DigitsValue("B9", 16) == 185 by {
      assert "B9"[..1] == "B" && "B"[..0] == [];
    }
    HexPairZero();
    HexDigitsConvert("76", "B9", "00");
    PopColorComponents();
  }

  lemma PopColorComponents()
    ensures HslOf(118 as real / 255.0, 185 as real / 255.0, 0 as real / 255.0)
         == Hsl(Finite(82), Finite(100), Finite(36))
  {
    var r, g := 118.0 / 255.0, 185.0 / 255.0;
    assert Max3(r, g, 0.0) == g && Min3(r, g, 0.0) == 0.0;
    assert (g + 0.0) / 2.0 * 100.0 == 18500.0 / 510.0;
    assert (0.0 - r) / g + 2.0 == 252.0 / 185.0;
    assert Saturation(g, 0.0) == Some(1.0);
  }

  // ------------------------------------------------------------- muted colour

  /** `Math.min(parseInt(textHsl.split(' ')[2]) + 20, 90)`: the third word read as an
      integer, lightened by 20 and capped at 90. A missing third word is `undefined`
      and an unreadable one gives `NaN`, which the minimum keeps. */
  function MutedLightness(textHsl: string): Rounded {
    var parts := Split(textHsl, ' ');
    if |parts| <= 2 then NotANumber
    else
      var v := ParseInt(parts[2], Auto);
      if v.None? then NotANumber
      else Finite(if v.value + 20 <= 90 then v.value + 20 else 90)
  }

  /** The length of the run of decimal digits at the end of `s`. */
  function DigitSuffix(s: string): (k: nat)
    ensures k <= |s|
  {
    if |s| > 0 && DigitValue(s[|s| - 1]) < 10 then 1 + DigitSuffix(s[..|s| - 1]) else 0
  }

  /** `s.replace(/\d+%$/, replacement)`: the digits and the `%` that end the text, when
      it ends so, are replaced; otherwise the text is unchanged. */
  function ReplaceTrailingPercent(s: string, replacement: string): string {
    if |s| > 0 && s[|s| - 1] == '%' then
      var body := s[..|s| - 1];
      var k := DigitSuffix(body);
      if k > 0 then body[..|body| - k] + replacement else s
    else s
  }

  /** The muted colour: the text colour with its lightness replaced. */
  function MutedHsl(textHsl: string): string {
    ReplaceTrailingPercent(textHsl, RenderRounded(MutedLightness(textHsl)) + "%")
  }

  lemma RenderedHasNoSpace(x: Rounded)
    ensures ' ' !in RenderRounded(x)
  {
    if x.Finite? {
      var d := NatString(if x.n < 0 then -x.n else x.n);
      assert forall i :: 0 <= i < |d| ==> d[i] != ' ';
    }
  }

  lemma {:induction false} DigitSuffixOf(pre: string, d: string)
    requires |d| > 0 && AllDigits(d)
    requires |pre| > 0 && DigitValue(pre[|pre| - 1]) >= 10
    ensures DigitSuffix(pre + d) == |d|
    decreases |d|
  {
    var t := pre + d;
    assert t[|t| - 1] == d[|d| - 1];
    assert t[..|t| - 1] == pre + d[..|d| - 1];
    if |d| == 1 {
      assert pre + d[..0] == pre;
    } else {
      DigitSuffixOf(pre, d[..|d| - 1]);
    }
  }

  /** The cap of the muted lightness. */
  function Lightened(l: int): int {
    if l + 20 <= 90 then l + 20 else 90
  }

  /** The lightness of a written colour is read back from its third word, so the muted
      lightness is 20 higher, capped at 90. */
  lemma MutedLightnessOfHslText(h: Rounded, s: Rounded, l: nat)
    ensures MutedLightness(HslText(Hsl(h, s, Finite(l)))) == Finite(Lightened(l))
  {
    var a, b, c := RenderRounded(h), RenderRounded(s) + "%", DecimalString(l) + "%";
    RenderedHasNoSpace(h);
    RenderedHasNoSpace(s);
    RenderedHasNoSpace(Finite(l));
    assert HslText(Hsl(h, s, Finite(l))) == a + " " + b + " " + c;
    MutedLightnessOfWords(a, b, l);
  }

  /** The third word `L%` is read as `L`. */
  lemma MutedLightnessOfWords(a: string, b: string, l: nat)
    requires ' ' !in a && ' ' !in b && ' ' !in DecimalString(l) + "%"
    ensures MutedLightness(a + " " + b + " " + (DecimalString(l) + "%")) == Finite(Lightened(l))
  {
    ThirdWord(a, b, DecimalString(l) + "%");
    ParseDecimalString(l, "%", Auto);
  }

  /** The third word of three words separated by single spaces. */
  lemma ThirdWord(a: string, b: string, c: string)
    requires ' ' !in a && ' ' !in b && ' ' !in c
    ensures |Split(a + " " + b + " " + c, ' ')| == 3 && Split(a + " " + b + " " + c, ' ')[2] == c
  {
    assert a + " " + b + " " + c == a + [' '] + (b + [' '] + c);
    SplitAt(a, ' ', b + [' '] + c);
    SplitAt(b, ' ', c);
    SplitNoSeparator(c, ' ');
  }

  /** Replacing the trailing `L%` of a written colour writes it with another lightness. */
  lemma ReplaceLightness(h: Rounded, s: Rounded, l: nat, m: Rounded)
    ensures ReplaceTrailingPercent(HslText(Hsl(h, s, Finite(l))), RenderRounded(m) + "%") == HslText(Hsl(h, s, m))
  {
    var pre := RenderRounded(h) + " " + RenderRounded(s) + "% ";
    assert HslText(Hsl(h, s, Finite(l))) == pre + NatString(l) + "%";
    assert HslText(Hsl(h, s, m)) == pre + (RenderRounded(m) + "%");
    ReplaceTrailingOf(pre, NatString(l), RenderRounded(m) + "%");
  }

  /** The digits and `%` ending a text are exactly what is replaced. */
  lemma ReplaceTrailingOf(pre: string, d: string, replacement: string)
    requires |d| > 0 && AllDigits(d)
    requires |pre| > 0 && DigitValue(pre[|pre| - 1]) >= 10
    ensures ReplaceTrailingPercent(pre + d + "%", replacement) == pre + replacement
  {
    var t := pre + d + "%";
    assert t[..|t| - 1] == pre + d;
    DigitSuffixOf(pre, d);
    assert (pre + d)[..|pre|] == pre;
  }

  /** The muted colour is the same colour with the lightness 20 higher, capped at 90. */
  lemma MutedOfHslText(h: Rounded, s: Rounded, l: nat)
    ensures MutedLightness(HslText(Hsl(h, s, Finite(l)))) == Finite(Lightened(l))
    ensures MutedHsl(HslText(Hsl(h, s, Finite(l)))) == HslText(Hsl(h, s, Finite(Lightened(l))))
  {
    MutedLightnessOfHslText(h, s, l);
    ReplaceLightness(h, s, l, Finite(Lightened(l)));
  }

  /** A colour read from `rgb(...)` with components within 0..255 has a lightness, so
      its muted colour is that lightness plus 20, capped at 90. */
  lemma MutedOfComponents(r: int, g: int, b: int)
    requires 0 <= r <= 255 && 0 <= g <= 255 && 0 <= b <= 255
    ensures var c := HslOf(r as real / 255.0, g as real / 255.0, b as real / 255.0);
      c.l.Finite? && 0 <= c.l.n <= 100
      && MutedLightness(ComponentsHsl(r, g, b)) == Finite(Lightened(c.l.n))
      && MutedHsl(ComponentsHsl(r, g, b)) == HslText(c.(l := Finite(Lightened(c.l.n))))
  {
    var c := HslOf(r as real / 255.0, g as real / 255.0, b as real / 255.0);
    HslBounds(r as real / 255.0, g as real / 255.0, b as real / 255.0);
    MutedOfHslText(c.h, c.s, c.l.n);
  }

  // ---------------------------------------------------------- applyKaizenBridge

  /** The default of the `popColor` parameter. */
  const DefaultPopColor: string := "#76B900"

  /** The inline style of the document root: its custom properties. */
  class RootStyle {
    var properties: map<string, string>

    constructor()
      ensures properties == map[]
    {
      properties := map[];
    }

    /** `style.setProperty(name, value)`. */
    method SetProperty(name: string, value: string)
      modifies this
      ensures properties == old(properties)[name := value]
    {
      properties := properties[name := value];
    }
  }

  /** The theme's colours from the body's background and text colours and the pop
      colour. */
  datatype Theme = Theme(background: string, text: string, pop: string, muted: string)

  function ThemeOf(backgroundColor: string, textColor: string, popColor: string): Theme {
    var textHsl := RgbToHsl(textColor);
    Theme(RgbToHsl(backgroundColor), textHsl, HexToHsl(popColor), MutedHsl(textHsl))
  }

  const White: string := "0 0% 100%"
  const Destructive: string := "0 84% 60%"

  /** The properties after the bridge: each one it sets, in its order, over those the
      root already had. */
  function ThemeUpdate(m: map<string, string>, t: Theme): map<string, string> {
    m["--background" := t.background]["--foreground" := t.text]
     ["--card" := t.background]["--card-foreground" := t.text]
     ["--primary" := t.pop]["--primary-foreground" := White]
     ["--accent" := t.pop]["--accent-foreground" := White]
     ["--muted" := t.muted]["--muted-foreground" := t.text]
     ["--border" := t.muted]["--ring" := t.pop]
     ["--destructive" := Destructive]["--destructive-foreground" := White]
     ["--popover" := t.background]["--popover-foreground" := t.text]
  }

  /** The names the bridge sets. */
  const ThemeNames: set<string> := {
    "--background", "--foreground", "--card", "--card-foreground",
    "--primary", "--primary-foreground", "--accent", "--accent-foreground",
    "--muted", "--muted-foreground", "--border", "--ring",
    "--destructive", "--destructive-foreground", "--popover", "--popover-foreground"}

  /** `applyKaizenBridge`: the body's computed colours are parameters; the probe button
      whose colours are read and never used is left out. */
  method ApplyKaizenBridge(root: RootStyle, backgroundColor: string, textColor: string, popColor: string)
    modifies root
    ensures root.properties == ThemeUpdate(old(root.properties), ThemeOf(backgroundColor, textColor, popColor))
  {
    var bgHsl := RgbToHsl(backgroundColor);
    var textHsl := RgbToHsl(textColor);
    var popHsl := HexToHsl(popColor);
    root.SetProperty("--background", bgHsl);
    root.SetProperty("--foreground", textHsl);
    root.SetProperty("--card", bgHsl);
    root.SetProperty("--card-foreground", textHsl);
    root.SetProperty("--primary", popHsl);
    root.SetProperty("--primary-foreground", White);
    root.SetProperty("--accent", popHsl);
    root.SetProperty("--accent-foreground", White);
    var mutedHsl := ReplaceTrailingPercent(textHsl, RenderRounded(MutedLightness(textHsl)) + "%");
    root.SetProperty("--muted", mutedHsl);
    root.SetProperty("--muted-foreground", textHsl);
    root.SetProperty("--border", mutedHsl);
    root.SetProperty("--ring", popHsl);
    root.SetProperty("--destructive", Destructive);
    root.SetProperty("--destructive-foreground", White);
    root.SetProperty("--popover", bgHsl);
    root.SetProperty("--popover-foreground", textHsl);
  }

  /** The bridge sets exactly its sixteen names and keeps every other property. */
  lemma ThemeUpdateKeepsOthers(m: map<string, string>, t: Theme, k: string)
    ensures k in ThemeUpdate(m, t).Keys <==> k in m.Keys || k in ThemeNames
    ensures k !in ThemeNames && k in m ==> ThemeUpdate(m, t)[k] == m[k]
  {
  }

  /** The background, the card and the popover share the body's background colour. */
  lemma ThemeSurfaces(m: map<string, string>, t: Theme)
    ensures var r := ThemeUpdate(m, t);
      r["--background"] == r["--card"] == r["--popover"] == t.background
  {
  }

  /** The foregrounds of those surfaces, and the muted foreground, share the body's text
      colour. */
  lemma ThemeForegrounds(m: map<string, string>, t: Theme)
    ensures var r := ThemeUpdate(m, t);
      r["--foreground"] == r["--card-foreground"] == r["--popover-foreground"]
      == r["--muted-foreground"] == t.text
  {
  }

  /** The primary, the accent and the ring share the pop colour, with white text on the
      primary and the accent. */
  lemma ThemeAccents(m: map<string, string>, t: Theme)
    ensures var r := ThemeUpdate(m, t);
      r["--primary"] == r["--accent"] == r["--ring"] == t.pop
      && r["--primary-foreground"] == r["--accent-foreground"] == White
  {
  }

  /** The muted colour is also the border; the destructive colour is fixed, with white
      text on it. */
  lemma ThemeMutedAndDestructive(m: map<string, string>, t: Theme)
    ensures var r := ThemeUpdate(m, t);
      r["--muted"] == r["--border"] == t.muted
      && r["--destructive"] == Destructive && r["--destructive-foreground"] == White
  {
  }
}
