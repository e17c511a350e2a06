/** The JavaScript string and number built-ins the dashboard relies on:
    digit tests, `toLowerCase`, `includes`, `trim`, `String(n)`, `parseInt`
    on digit groups, `parseFloat` and the default `Array.prototype.sort`
    comparison of strings. */
module Strings {
  import opened Wrappers

  predicate IsDigit(c: char) { '0' <= c <= '9' }

  predicate IsDigits(s: string) { forall i :: 0 <= i < |s| ==> IsDigit(s[i]) }

  /** The regular expression `/^\d+$/`. */
  predicate AllDigits(s: string) { |s| > 0 && IsDigits(s) }

  /** `toLowerCase` on one character (ASCII letters only). */
  function LowerChar(c: char): char {
    if 'A' <= c <= 'Z' then (c as int + 32) as char else c
  }

  /** `s.toLowerCase()` (ASCII letters only). */
  function Lower(s: string): (r: string)
    ensures |r| == |s|
    ensures forall i :: 0 <= i < |s| ==> r[i] == LowerChar(s[i])
  {
    if s == [] then [] else [LowerChar(s[0])] + Lower(s[1..])
  }

  predicate StartsWith(s: string, prefix: string) {
    |prefix| <= |s| && s[..|prefix|] == prefix
  }

  /** `s.includes(t)`. */
  predicate Contains(s: string, t: string)
    decreases |s|
  {
    StartsWith(s, t) || (s != [] && Contains(s[1..], t))
  }

  /** The characters `String.prototype.trim` removes: white space and line
      terminators. */
  predicate IsSpace(c: char) {
    c == ' ' || c == '\t' || c == '\n' || c == '\r' || c == '\U{B}' || c == '\U{C}'
    || c == '\U{A0}' || c == '\U{1680}' || ('\U{2000}' <= c <= '\U{200A}')
    || c == '\U{2028}' || c == '\U{2029}' || c == '\U{202F}' || c == '\U{205F}'
    || c == '\U{3000}' || c == '\U{FEFF}'
  }

  function TrimStart(s: string): string {
    if s != [] && IsSpace(s[0]) then TrimStart(s[1..]) else s
  }

  function TrimEnd(s: string): string {
    if s != [] && IsSpace(s[|s| - 1]) then TrimEnd(s[..|s| - 1]) else s
  }

  /** `s.trim()`. */
  function Trim(s: string): string {
    TrimEnd(TrimStart(s))
  }

  // ---------------------------------------------------------------------
  // Decimal numbers

  function DigitChar(d: nat): char
    requires d < 10
  {
    ('0' as int + d) as char
  }

  function DigitValue(c: char): nat
    requires IsDigit(c)
  {
    c as int - '0' as int
  }

  /** `String(n)` for a non-negative integer: its decimal digits, without
      leading zeros. */
  function NatText(n: nat): (r: string)
    ensures AllDigits(r)
  {
    if n < 10 then [DigitChar(n)] else NatText(n / 10) + [DigitChar(n % 10)]
  }

  /** `String(i)` for an integer. */
  function IntText(i: int): string {
    if i < 0 then "-" + NatText(-i) else NatText(i)
  }

  /** `parseInt` of a group of decimal digits: leading zeros are ignored. */
  function DigitsValue(s: string): nat
    requires IsDigits(s)
  {
    if s == [] then 0 else DigitsValue(s[..|s| - 1]) * 10 + DigitValue(s[|s| - 1])
  }

  function Pow10(n: nat): (r: nat)
    ensures r > 0
  {
    if n == 0 then 1 else 10 * Pow10(n - 1)
  }

  lemma {:induction false} DigitsValueBound(s: string)
    requires IsDigits(s)
    ensures DigitsValue(s) < Pow10(|s|)
    decreases |s|
  {
    if s != [] {
      DigitsValueBound(s[..|s| - 1]);
    }
  }

  /** Up to `k` decimal digits of a fraction in [0, 1), stopping once it is
      exhausted. */
  function FractionText(f: real, k: nat): string
    requires 0.0 <= f < 1.0
    decreases k
  {
    if k == 0 || f == 0.0 then ""
    else
      var t := f * 10.0;
      var d := t.Floor;
      [DigitChar(d)] + FractionText(t - d as real, k - 1)
  }

  /** `String(x)` for a number: integers exactly; other values as their
      integral part, a point and up to 16 fraction digits. */
  function NumberText(x: real): string {
    if x == x.Floor as real then IntText(x.Floor)
    else
      var a := if x < 0.0 then -x else x;
      (if x < 0.0 then "-" else "") + NatText(a.Floor) + "." + FractionText(a - a.Floor as real, 16)
  }

  /** `s.replace(/[^0-9.-]/g, '')`. */
  function KeepNumeric(s: string): (r: string)
    ensures forall i :: 0 <= i < |r| ==> IsDigit(r[i]) || r[i] == '.' || r[i] == '-'
  {
    if s == [] then ""
    else (if IsDigit(s[0]) || s[0] == '.' || s[0] == '-' then [s[0]] else "") + KeepNumeric(s[1..])
  }

  /** The longest prefix of `s` made of digits. */
  function DigitPrefix(s: string): (r: string)
    ensures |r| <= |s| && r == s[..|r|] && IsDigits(r)
    ensures |r| < |s| ==> !IsDigit(s[|r|])
  {
    if s != [] && IsDigit(s[0]) then [s[0]] + DigitPrefix(s[1..]) else ""
  }

  /** `parseFloat(s)` for a string of digits, points and minus signs (the
      only characters left after KeepNumeric): an optional minus sign,
      digits, and optionally a point and more digits, read as far as they
      go. `None` stands for NaN, when no digit is found. */
  function ParseFloat(s: string): Option<real> {
    var negative := s != [] && s[0] == '-';
    var body := if negative then s[1..] else s;
    var whole := DigitPrefix(body);
    var rest := body[|whole|..];
    var fraction := if rest != [] && rest[0] == '.' then DigitPrefix(rest[1..]) else "";
    if whole == [] && fraction == [] then None
    else
      var v := DigitsValue(whole) as real + FractionValue(fraction);
      Some(if negative then -v else v)
  }

  /** The value of the digits after a decimal point. */
  function FractionValue(f: string): (r: real)
    requires IsDigits(f)
    ensures f == [] ==> r == 0.0
  {
    DigitsValue(f) as real / Pow10(|f|) as real
  }

  lemma {:induction false} DigitsValueOfNatText(n: nat)
    ensures DigitsValue(NatText(n)) == n
  {
    if n >= 10 {
      var r := NatText(n / 10) + [DigitChar(n % 10)];
      assert r[..|r| - 1] == NatText(n / 10);
      DigitsValueOfNatText(n / 10);
    }
  }

  lemma NatTextInjective(a: nat, b: nat)
    requires NatText(a) == NatText(b)
    ensures a == b
  {
    DigitsValueOfNatText(a);
    DigitsValueOfNatText(b);
  }

  lemma {:induction false} KeepNumericOfNatText(n: nat)
    ensures KeepNumeric(NatText(n)) == NatText(n)
  {
    KeepNumericOfDigits(NatText(n));
  }

  lemma {:induction false} KeepNumericOfDigits(s: string)
    requires IsDigits(s)
    ensures KeepNumeric(s) == s
    decreases |s|
  {
    if s != [] {
      KeepNumericOfDigits(s[1..]);
    }
  }

  /** Reading back the decimal text of an integer gives the integer:
      `parseFloat(String(i).replace(/[^0-9.-]/g, '')) === i`. */
  lemma ParseFloatOfIntText(i: int)
    ensures ParseFloat(KeepNumeric(IntText(i))) == Some(i as real)
  {
    if i < 0 {
      ParseFloatOfNegIntText(i);
    } else {
      assert IntText(i) == NatText(i);
      ParseFloatOfNatText(i);
    }
  }

  lemma ParseFloatOfNatText(n: nat)
    ensures ParseFloat(KeepNumeric(NatText(n))) == Some(n as real)
  {
    KeepNumericOfNatText(n);
    DigitsValueOfNatText(n);
    ParseFloatOfDigits(NatText(n));
  }

  lemma ParseFloatOfNegIntText(i: int)
    requires i < 0
    ensures ParseFloat(KeepNumeric(IntText(i))) == Some(i as real)
  {
    var n: nat := -i;
    KeepNumericOfNatText(n);
    DigitsValueOfNatText(n);
    var t := "-" + NatText(n);
    assert IntText(i) == t;
    assert KeepNumeric(t) == t;
    ParseFloatOfNegated(NatText(n));
    assert ParseFloat(t) == Some(-(n as real));
  }

  lemma ParseFloatOfDigits(s: string)
    requires IsDigits(s) && s != []
    ensures ParseFloat(s) == Some(DigitsValue(s) as real)
  {
    DigitPrefixAll(s);
    assert s[0] != '-';
    assert s[|s|..] == [];
  }

  lemma {:induction false} DigitPrefixAll(s: string)
    requires IsDigits(s)
    ensures DigitPrefix(s) == s
    decreases |s|
  {
    if s != [] {
      DigitPrefixAll(s[1..]);
    }
  }

  lemma ParseFloatOfNegated(s: string)
    requires IsDigits(s) && s != []
    ensures ParseFloat("-" + s) == Some(-(DigitsValue(s) as real))
  {
    var t := "-" + s;
    assert t[0] == '-' && t[1..] == s;
    DigitPrefixAll(s);
    assert s[|s|..] == [];
  }

  /** Two-digit bound on `String(n)`, used for day and month numbers. */
  lemma NatTextLength(n: nat)
    ensures n < 10 ==> |NatText(n)| == 1
    ensures 10 <= n < 100 ==> |NatText(n)| == 2
  {
  }

  // ---------------------------------------------------------------------
  // The default string order of `Array.prototype.sort`

  /** `a <= b` in code-point order. JavaScript compares UTF-16 code units;
      the two orders agree except between a character above U+FFFF and one
      in U+E000–U+FFFF. */
  predicate LexLe(a: string, b: string)
    decreases |a|
  {
    a == [] || (b != [] && (a[0] < b[0] || (a[0] == b[0] && LexLe(a[1..], b[1..]))))
  }

  lemma {:induction false} LexLeTotal(a: string, b: string)
    ensures LexLe(a, b) || LexLe(b, a)
    decreases |a|
  {
    if a != [] && b != [] && a[0] == b[0] {
      LexLeTotal(a[1..], b[1..]);
    }
  }

  lemma {:induction false} LexLeTransitive(a: string, b: string, c: string)
    requires LexLe(a, b) && LexLe(b, c)
    ensures LexLe(a, c)
    decreases |a|
  {
    if a != [] && b != [] && c != [] && a[0] == b[0] && b[0] == c[0] {
      LexLeTransitive(a[1..], b[1..], c[1..]);
    }
  }

  lemma {:induction false} LexLeAntisymmetric(a: string, b: string)
    requires LexLe(a, b) && LexLe(b, a)
    ensures a == b
    decreases |a|
  {
    if a != [] && b != [] {
      LexLeAntisymmetric(a[1..], b[1..]);
      assert a == [a[0]] + a[1..];
      assert b == [b[0]] + b[1..];
    }
  }
}
