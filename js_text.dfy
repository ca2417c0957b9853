/**
 * The JavaScript string built-ins the form relies on: the white-space class
 * shared by `String.prototype.trimStart`, `parseInt` and the regular-expression
 * class `\s`, the UTF-16 length of a string, `String.prototype.substring`, and
 * the global `parseInt` called with no radix (ECMAScript sections 22.1.3.25
 * and 19.2.5). `parseInt` is modelled with an exact integer result; see
 * `MaxSafeInteger` for the range in which that agrees with the double it returns.
 */
module JsText {
  import opened Wrappers

  /** WhiteSpace or LineTerminator code points of ECMAScript. */
  predicate IsJsWhitespace(c: char) {
    c == '\t' || c == '\n' || c == '\U{B}' || c == '\U{C}' || c == '\r' || c == ' '
    || c == '\U{A0}' || c == '\U{1680}' || ('\U{2000}' <= c <= '\U{200A}')
    || c == '\U{2028}' || c == '\U{2029}' || c == '\U{202F}' || c == '\U{205F}'
    || c == '\U{3000}' || c == '\U{FEFF}'
  }

  /** The number of UTF-16 code units of a string: two for a code point above U+FFFF. */
  function Utf16Length(s: string): (n: nat)
    ensures n >= |s|
  {
    if s == [] then 0 else (if s[0] as int > 0xFFFF then 2 else 1) + Utf16Length(s[1..])
  }

  /** The string with its leading white space removed. */
  function TrimStart(s: string): (r: string)
    ensures |r| <= |s| && r == s[|s| - |r|..]
    ensures forall i :: 0 <= i < |s| - |r| ==> IsJsWhitespace(s[i])
    ensures r == [] || !IsJsWhitespace(r[0])
  {
    if s != [] && IsJsWhitespace(s[0]) then TrimStart(s[1..]) else s
  }

  /** An index argument of `substring`, clamped to the string's bounds. */
  function ClampIndex(x: int, len: nat): (r: nat)
    ensures r <= len
    ensures 0 <= x <= len ==> r == x
  {
    if x < 0 then 0 else if x > len then len else x
  }

  /**
   * `s.substring(start, end)`: both indices are clamped to `[0, |s|]` and the
   * smaller one is taken as the start.
   */
  function JsSubstring(s: string, start: int, end: int): string {
    var a := ClampIndex(start, |s|);
    var b := ClampIndex(end, |s|);
    if a <= b then s[a..b] else s[b..a]
  }

  /** The value of a digit character in radices up to 36; 36 for any other character. */
  function DigitValue(c: char): (v: nat)
    ensures v <= 36
  {
    if '0' <= c <= '9' then c as int - '0' as int
    else if 'a' <= c <= 'z' then c as int - 'a' as int + 10
    else if 'A' <= c <= 'Z' then c as int - 'A' as int + 10
    else 36
  }

  predicate IsRadixDigit(c: char, radix: nat) {
    DigitValue(c) < radix
  }

  predicate AllRadixDigits(z: string, radix: nat) {
    forall i :: 0 <= i < |z| ==> IsRadixDigit(z[i], radix)
  }

  /** The longest prefix of `s` made of digits of the given radix. */
  function DigitPrefix(s: string, radix: nat): (z: string)
    ensures z <= s && AllRadixDigits(z, radix)
    ensures |z| < |s| ==> !IsRadixDigit(s[|z|], radix)
  {
    if s != [] && IsRadixDigit(s[0], radix) then [s[0]] + DigitPrefix(s[1..], radix) else []
  }

  /** The number a string of digits denotes in the given radix, most significant digit first. */
  function DigitsValue(z: string, radix: nat): nat
    requires AllRadixDigits(z, radix)
  {
    if z == [] then 0 else DigitsValue(z[..|z| - 1], radix) * radix + DigitValue(z[|z| - 1])
  }

  /**
   * `parseInt(s)` with no radix argument: leading white space is skipped, one
   * sign is read, a `0x`/`0X` prefix switches to radix 16, and the longest run
   * of digits that follows is the value. No digit there gives NaN, here `None`.
   */
  function ParseInt(s: string): Option<int> {
    var t := TrimStart(s);
    var sign := if t != [] && t[0] == '-' then -1 else 1;
    var u := if t != [] && (t[0] == '-' || t[0] == '+') then t[1..] else t;
    match ParseMagnitude(u)
    case None => None
    case Some(v) => Some(sign * v)
  }

  /** The unsigned part of `parseInt`: an optional `0x`/`0X` prefix, then the longest run of digits. */
  function ParseMagnitude(u: string): Option<nat> {
    var hex := |u| >= 2 && u[0] == '0' && (u[1] == 'x' || u[1] == 'X');
    var radix := if hex then 16 else 10;
    var z := DigitPrefix(if hex then u[2..] else u, radix);
    if z == [] then None else Some(DigitsValue(z, radix))
  }

  /** `Number.MAX_SAFE_INTEGER`: up to this magnitude every integer is exactly a double. */
  const MaxSafeInteger: int := 0x1F_FFFF_FFFF_FFFF

  function DigitChar(d: nat): (c: char)
    requires d < 10
    ensures IsRadixDigit(c, 10) && DigitValue(c) == d
  {
    ('0' as int + d) as char
  }

  /** The decimal numeral of a natural number, without leading zeros. */
  function NatToDecimal(n: nat): (s: string)
    ensures |s| >= 1 && AllRadixDigits(s, 10)
    ensures s[0] == '0' ==> n == 0 && s == "0"
  {
    if n < 10 then [DigitChar(n)] else NatToDecimal(n / 10) + [DigitChar(n % 10)]
  }

  /** The decimal numeral of an integer, as `String(n)` writes it. */
  function IntToDecimal(n: int): string {
    if n < 0 then "-" + NatToDecimal(-n) else NatToDecimal(n)
  }

  lemma {:induction false} NatToDecimalValue(n: nat)
    ensures DigitsValue(NatToDecimal(n), 10) == n
  {
    if n >= 10 {
      var p := NatToDecimal(n / 10);
      var s := p + [DigitChar(n % 10)];
      assert s[..|s| - 1] == p;
      NatToDecimalValue(n / 10);
    }
  }

  /** A run of digits stops at the first character that is not one. */
  lemma {:induction false} DigitPrefixOfDigits(z: string, rest: string, radix: nat)
    requires AllRadixDigits(z, radix)
    requires rest == [] || !IsRadixDigit(rest[0], radix)
    ensures DigitPrefix(z + rest, radix) == z
  {
    if z != [] {
      assert (z + rest)[1..] == z[1..] + rest;
      DigitPrefixOfDigits(z[1..], rest, radix);
    } else {
      assert z + rest == rest;
    }
  }

  /**
   * `parseInt` reads back the decimal numeral of any integer, whatever follows
   * it that is neither a decimal digit nor an `x` (such as `.5` or `e3`).
   */
  lemma ParseIntDecimal(n: int, rest: string)
    requires rest == [] || (!IsRadixDigit(rest[0], 10) && rest[0] != 'x' && rest[0] != 'X')
    ensures ParseInt(IntToDecimal(n) + rest) == Some(n)
  {
    if n < 0 {
      ParseIntNegativeDecimal(n, rest);
    } else {
      var u := NatToDecimal(n) + rest;
      ParseMagnitudeDecimal(n, rest);
      ParseIntUnsigned(u);
      assert ParseInt(u) == Some(n);
      assert IntToDecimal(n) + rest == u;
    }
  }

  lemma ParseIntNegativeDecimal(n: int, rest: string)
    requires n < 0
    requires rest == [] || (!IsRadixDigit(rest[0], 10) && rest[0] != 'x' && rest[0] != 'X')
    ensures ParseInt(IntToDecimal(n) + rest) == Some(n)
  {
    NegativeNumeral(n, rest);
    ParseIntMinusNumeral(IntToDecimal(n) + rest, -n, rest);
  }

  lemma NegativeNumeral(n: int, rest: string)
    requires n < 0
    ensures IntToDecimal(n) + rest == "-" + (NatToDecimal(-n) + rest)
  {
  }

  lemma ParseIntMinusNumeral(s: string, m: nat, rest: string)
    requires rest == [] || (!IsRadixDigit(rest[0], 10) && rest[0] != 'x' && rest[0] != 'X')
    requires s == "-" + (NatToDecimal(m) + rest)
    ensures ParseInt(s) == Some(-(m as int))
  {
    ParseMagnitudeDecimal(m, rest);
    ParseIntNegative(NatToDecimal(m) + rest);
  }

  lemma ParseIntUnsigned(u: string)
    requires u != [] && IsRadixDigit(u[0], 10)
    ensures ParseInt(u) == ParseMagnitude(u)
  {
    NoSignedStart(u);
    assert TrimStart(u) == u;
  }

  lemma ParseIntNegative(u: string)
    requires u != [] && IsRadixDigit(u[0], 10)
    ensures ParseInt("-" + u).Some? == ParseMagnitude(u).Some?
    ensures ParseMagnitude(u).Some? ==> ParseInt("-" + u).value == -(ParseMagnitude(u).value as int)
  {
    var s := "-" + u;
    assert s[0] == '-';
    assert !IsJsWhitespace(s[0]);
    assert TrimStart(s) == s;
    assert s[1..] == u;
  }

  /** A decimal numeral starts with neither a sign nor white space. */
  lemma NoSignedStart(u: string)
    requires u != [] && IsRadixDigit(u[0], 10)
    ensures u[0] != '-' && u[0] != '+' && !IsJsWhitespace(u[0])
  {
  }

  lemma ParseMagnitudeDecimal(m: nat, rest: string)
    requires rest == [] || (!IsRadixDigit(rest[0], 10) && rest[0] != 'x' && rest[0] != 'X')
    ensures ParseMagnitude(NatToDecimal(m) + rest) == Some(m)
  {
    var d := NatToDecimal(m);
    var u := d + rest;
    assert !(|u| >= 2 && u[0] == '0' && (u[1] == 'x' || u[1] == 'X')) by {
      if |u| >= 2 && u[0] == '0' {
        assert d == "0" && u[1] == rest[0];
      }
    }
    NatToDecimalValue(m);
    DigitPrefixOfDigits(d, rest, 10);
  }

  /** Text with no decimal digit at all parses to NaN. */
  lemma ParseIntNoDigit(s: string)
    requires forall i :: 0 <= i < |s| ==> !IsRadixDigit(s[i], 10)
    ensures ParseInt(s) == None
  {
    var t := TrimStart(s);
    var u := if t != [] && (t[0] == '-' || t[0] == '+') then t[1..] else t;
    assert forall i :: 0 <= i < |u| ==> !IsRadixDigit(u[i], 10);
    ParseMagnitudeNoDigit(u);
  }

  lemma ParseMagnitudeNoDigit(u: string)
    requires u == [] || !IsRadixDigit(u[0], 10)
    ensures ParseMagnitude(u) == None
  {
  }
}
