/** The JavaScript string built-ins the core relies on, on `seq<char>`:
    `trim`, `toLowerCase`, `startsWith`, `endsWith`, `split` with a one-character
    separator, `parseInt`, and `String(n)` for integers. */
module Text {
  import opened Geometry

  /** The characters `trim` and the regular-expression class `\s` treat as white space:
      tab, the line terminators, vertical tab, form feed, the byte-order mark and the
      space separators of Unicode. */
  predicate IsSpace(c: char) {
    c == ' ' || c == '\t' || c == '\n' || c == '\r' || c == '\U{000B}' || c == '\U{000C}'
    || c == '\U{00A0}' || c == '\U{FEFF}' || c == '\U{1680}' || '\U{2000}' <= c <= '\U{200A}'
    || c == '\U{2028}' || c == '\U{2029}' || c == '\U{202F}' || c == '\U{205F}' || c == '\U{3000}'
  }

  predicate StartsWith(s: string, prefix: string) {
    |prefix| <= |s| && s[..|prefix|] == prefix
  }

  predicate EndsWith(s: string, suffix: string) {
    |suffix| <= |s| && s[|s| - |suffix|..] == suffix
  }

  function LowerChar(c: char): char {
    if 'A' <= c <= 'Z' then (c as int + 32) as char else c
  }

  /** `toLowerCase`, restricted to the ASCII letters. */
  function ToLower(s: string): (r: string)
    ensures |r| == |s|
    ensures forall i :: 0 <= i < |s| ==> r[i] == LowerChar(s[i])
  {
    seq(|s|, i requires 0 <= i < |s| => LowerChar(s[i]))
  }

  /** `trimStart`: drops the leading white space. */
  function TrimStart(s: string): (r: string)
    ensures |r| <= |s| && r == s[|s| - |r|..]
    ensures forall k :: 0 <= k < |s| - |r| ==> IsSpace(s[k])
    ensures r == [] || !IsSpace(r[0])
  {
    if |s| > 0 && IsSpace(s[0]) then TrimStart(s[1..]) else s
  }

  /** `trimEnd`: drops the trailing white space. */
  function TrimEnd(s: string): (r: string)
    ensures |r| <= |s| && r == s[..|r|]
    ensures forall k :: |r| <= k < |s| ==> IsSpace(s[k])
    ensures r == [] || !IsSpace(r[|r| - 1])
  {
    if |s| > 0 && IsSpace(s[|s| - 1]) then TrimEnd(s[..|s| - 1]) else s
  }

  /** `trim`: the input without its leading and trailing white space. */
  function Trim(s: string): (r: string)
    ensures r == [] || (!IsSpace(r[0]) && !IsSpace(r[|r| - 1]))
    ensures r == [] <==> forall k :: 0 <= k < |s| ==> IsSpace(s[k])
    ensures exists i, j ::
              0 <= i <= j <= |s| && r == s[i..j]
              && (forall k :: 0 <= k < i ==> IsSpace(s[k])) && (forall k :: j <= k < |s| ==> IsSpace(s[k]))
  {
    var t := TrimStart(s);
    var r := TrimEnd(t);
    var i := |s| - |t|;
    assert r == s[i..i + |r|];
    assert forall k :: i + |r| <= k < |s| ==> s[k] == t[k - i];
    r
  }

  lemma {:induction false} TrimIdempotent(s: string)
    ensures Trim(Trim(s)) == Trim(s)
  {
    var r := Trim(s);
    if r != [] {
      assert TrimStart(r) == r;
      assert TrimEnd(r) == r;
    }
  }

  /** The value of a character read as a digit of a radix up to 36; 36 for a
      character that is no digit in any radix. */
  function DigitValue(c: char): (d: nat)
    ensures d <= 36
  {
    if '0' <= c <= '9' then c as int - '0' as int
    else if 'a' <= c <= 'z' then c as int - 'a' as int + 10
    else if 'A' <= c <= 'Z' then c as int - 'A' as int + 10
    else 36
  }

  /** The length of the longest prefix of `s` made of digits of radix `base`. */
  function DigitRun(s: string, base: nat): (n: nat)
    ensures n <= |s|
    ensures forall i :: 0 <= i < n ==> DigitValue(s[i]) < base
    ensures n < |s| ==> DigitValue(s[n]) >= base
  {
    if |s| > 0 && DigitValue(s[0]) < base then 1 + DigitRun(s[1..], base) else 0
  }

  /** The value of a string of digits of radix `base`, most significant first (the digit
      run `parseInt` has already delimited). */
  function DigitsValue(s: string, base: nat): nat
  {
    if |s| == 0 then 0 else DigitsValue(s[..|s| - 1], base) * base + DigitValue(s[|s| - 1])
  }

  /** The radix argument of `parseInt`: 10, 16, or left out. */
  datatype Radix = Decimal | Hexadecimal | Auto

  /** `parseInt(s, radix)`: leading white space and one sign are skipped, then the
      unsigned part is read by `ParseUnsigned`. `None` stands for `NaN`. */
  function ParseInt(s: string, radix: Radix): (r: Option<int>)
  {
    ParseSigned(TrimStart(s), radix)
  }

  /** `parseInt` after the leading white space: one `-` negates, one `+` is dropped. */
  function ParseSigned(t: string, radix: Radix): Option<int> {
    if |t| > 0 && t[0] == '-' then Negate(ParseUnsigned(t[1..], radix))
    else if |t| > 0 && t[0] == '+' then ParseUnsigned(t[1..], radix)
    else ParseUnsigned(t, radix)
  }

  function Negate(p: Option<int>): Option<int> {
    if p.None? then None else Some(-p.value)
  }

  /** Whether `u` starts with `0x` or `0X`. */
  predicate HasHexPrefix(u: string) {
    |u| >= 2 && u[0] == '0' && (u[1] == 'x' || u[1] == 'X')
  }

  /** The unsigned part of `parseInt`: a `0x` prefix is dropped when the radix is 16
      or left out (and selects radix 16 in the second case), then the longest run of
      digits of the radix is read; an empty run gives `None`. */
  function ParseUnsigned(u: string, radix: Radix): (r: Option<int>)
    ensures r.Some? ==> r.value >= 0
  {
    var base := if radix == Decimal then 10 else if radix == Hexadecimal || HasHexPrefix(u) then 16 else 10;
    var w := if base == 16 && HasHexPrefix(u) then u[2..] else u;
    var n := DigitRun(w, base);
    if n == 0 then None else Some(DigitsValue(w[..n], base))
  }

  function DigitChar(d: nat): char
    requires d < 10
  {
    ('0' as int + d) as char
  }

  /** The decimal digits of a natural number, without leading zeros. */
  function NatString(n: nat): (s: string)
    ensures |s| >= 1
    ensures forall i :: 0 <= i < |s| ==> DigitValue(s[i]) < 10
  {
    if n < 10 then [DigitChar(n)] else NatString(n / 10) + [DigitChar(n % 10)]
  }

  /** `String(n)` for an integer `n`. */
  function DecimalString(n: int): string {
    if n < 0 then "-" + NatString(-n) else NatString(n)
  }

  lemma {:induction false} NatStringValue(n: nat)
    ensures DigitsValue(NatString(n), 10) == n
  {
    if n >= 10 {
      NatStringValue(n / 10);
      var s := NatString(n);
      assert s[..|s| - 1] == NatString(n / 10);
    }
  }

  lemma {:induction false} DigitRunOfPrefix(s: string, base: nat, k: nat)
    requires k <= |s|
    requires forall i :: 0 <= i < k ==> DigitValue(s[i]) < base
    requires k < |s| ==> DigitValue(s[k]) >= base
    ensures DigitRun(s, base) == k
  {
    if k > 0 {
      DigitRunOfPrefix(s[1..], base, k - 1);
    }
  }

  /** Only zero is written with a leading `0`. */
  lemma {:induction false} NatStringLeadingZero(m: nat)
    ensures NatString(m)[0] == '0' ==> m == 0 && NatString(m) == "0"
  {
    if m >= 10 {
      NatStringLeadingZero(m / 10);
      assert NatString(m)[0] == NatString(m / 10)[0];
    }
  }

  /** The unsigned part of `parseInt` reads back the digits `String` writes for a
      natural number when the next character is neither a letter nor a digit. */
  lemma ParseUnsignedNatString(m: int, rest: string, radix: Radix)
    requires m >= 0
    requires radix != Hexadecimal
    requires rest == [] || DigitValue(rest[0]) == 36
    ensures ParseUnsigned(NatString(m) + rest, radix) == Some(m)
  {
    var d := NatString(m);
    var u := d + rest;
    assert !HasHexPrefix(u) by {
      if HasHexPrefix(u) {
        assert d[0] == u[0];
        NatStringLeadingZero(m);
      }
    }
    DigitRunOfPrefix(u, 10, |d|);
    assert u[..|d|] == d;
    NatStringValue(m);
  }

  /** `parseInt` reads back what `String` writes for a natural number, whatever
      follows it provided the next character is neither a letter nor a digit. */
  lemma ParseDecimalString(n: int, rest: string, radix: Radix)
    requires n >= 0
    requires radix != Hexadecimal
    requires rest == [] || DigitValue(rest[0]) == 36
    ensures ParseInt(DecimalString(n) + rest, radix) == Some(n)
  {
    assert DecimalString(n) == NatString(n);
    ParseUnsignedNatString(n, rest, radix);
    ParseIntDigits(NatString(n) + rest, radix, n);
  }

  /** `parseInt` of a string that starts with a digit is its unsigned part. */
  lemma ParseIntDigits(s: string, radix: Radix, v: int)
    requires |s| > 0 && DigitValue(s[0]) < 10
    requires ParseUnsigned(s, radix) == Some(v)
    ensures ParseInt(s, radix) == Some(v)
  {
    DigitIsNoSpaceNorSign(s[0]);
    TrimStartNoSpace(s);
    assert ParseSigned(s, radix) == ParseUnsigned(s, radix);
  }

  lemma DigitIsNoSpaceNorSign(c: char)
    requires DigitValue(c) < 10
    ensures !IsSpace(c) && c != '-' && c != '+'
  {
  }

  lemma TrimStartNoSpace(s: string)
    requires |s| > 0 && !IsSpace(s[0])
    ensures TrimStart(s) == s
  {
  }

  /** `parseInt` of a string that starts with `-` is the negated unsigned part of the rest. */
  lemma ParseIntMinus(s: string, radix: Radix, v: int)
    requires |s| > 0 && s[0] == '-'
    requires ParseUnsigned(s[1..], radix) == Some(v)
    ensures ParseInt(s, radix) == Some(-v)
  {
    TrimStartNoSpace(s);
    assert ParseSigned(s, radix) == Negate(ParseUnsigned(s[1..], radix));
  }

  /** `s.split(c)` for a one-character separator: the pieces between the separators,
      empty pieces included. */
  function Split(s: string, c: char): (r: seq<string>)
    ensures |r| >= 1
  {
    if |s| == 0 then [""]
    else if s[0] == c then [""] + Split(s[1..], c)
    else
      var rest := Split(s[1..], c);
      [[s[0]] + rest[0]] + rest[1..]
  }

  lemma {:induction false} SplitNoSeparator(s: string, c: char)
    requires c !in s
    ensures Split(s, c) == [s]
  {
    if |s| > 0 {
      SplitNoSeparator(s[1..], c);
      assert [s[0]] + s[1..] == s;
    }
  }

  lemma {:induction false} SplitAt(a: string, c: char, b: string)
    requires c !in a
    ensures Split(a + [c] + b, c) == [a] + Split(b, c)
  {
    if |a| == 0 {
      assert a + [c] + b == [c] + b;
      assert ([c] + b)[1..] == b;
    } else {
      SplitAt(a[1..], c, b);
      assert (a + [c] + b)[1..] == a[1..] + [c] + b;
      assert [a[0]] + a[1..] == a;
    }
  }
}
