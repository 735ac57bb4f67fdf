/**
 * The few JavaScript number operations the gate relies on: the global
 * `parseInt` (called without a radix), `Number.prototype.toString` for
 * integers, and the `<` comparison, which is false whenever NaN is involved.
 * Only integer values and NaN occur on these paths, so a number is an `int`
 * or NaN; precision loss above 2^53 is not modelled.
 */
module JsNumbers {
  import opened Wrappers

  datatype JsNumber = Num(value: int) | NaN

  /** JavaScript's `a < b` on numbers: false as soon as either side is NaN. */
  predicate Less(a: JsNumber, b: JsNumber)
  {
    a.Num? && b.Num? && a.value < b.value
  }

  predicate IsDecimalDigit(c: char)
  {
    '0' <= c <= '9'
  }

  predicate IsHexDigit(c: char)
  {
    IsDecimalDigit(c) || 'a' <= c <= 'f' || 'A' <= c <= 'F'
  }

  /** A digit of radix 16 when `hex` holds, of radix 10 otherwise. */
  predicate IsRadixDigit(c: char, hex: bool)
  {
    if hex then IsHexDigit(c) else IsDecimalDigit(c)
  }

  function Radix(hex: bool): nat
  {
    if hex then 16 else 10
  }

  function DigitValue(c: char): (d: nat)
    requires IsHexDigit(c)
    ensures IsDecimalDigit(c) ==> d < 10
    ensures d < 16
  {
    if IsDecimalDigit(c) then c as nat - '0' as nat
    else if 'a' <= c <= 'f' then c as nat - 'a' as nat + 10
    else c as nat - 'A' as nat + 10
  }

  predicate AllRadixDigits(s: string, hex: bool)
  {
    forall i :: 0 <= i < |s| ==> IsRadixDigit(s[i], hex)
  }

  /** The value of a string of digits, most significant digit first. */
  function DigitsValue(s: string, hex: bool): nat
    requires AllRadixDigits(s, hex)
  {
    if s == [] then 0
    else DigitsValue(s[..|s| - 1], hex) * Radix(hex) + DigitValue(s[|s| - 1])
  }

  /** The longest prefix of `s` made of digits: where `parseInt` stops reading. */
  function DigitPrefix(s: string, hex: bool): (p: string)
    ensures |p| <= |s| && p == s[..|p|]
    ensures AllRadixDigits(p, hex)
    ensures |p| < |s| ==> !IsRadixDigit(s[|p|], hex)
  {
    if s == [] || !IsRadixDigit(s[0], hex) then []
    else [s[0]] + DigitPrefix(s[1..], hex)
  }

  /**
   * The characters `parseInt` skips before the number: the WhiteSpace and
   * LineTerminator characters of ECMAScript (section 7.2 and 7.3 of ECMA-262).
   */
  predicate IsJsWhitespace(c: char)
  {
    c == '\t' || c == '\n' || c == '\U{000B}' || c == '\U{000C}' || c == '\r' || c == ' '
    || c == '\U{00A0}' || c == '\U{1680}' || '\U{2000}' <= c <= '\U{200A}'
    || c == '\U{2028}' || c == '\U{2029}' || c == '\U{202F}' || c == '\U{205F}'
    || c == '\U{3000}' || c == '\U{FEFF}'
  }

  function TrimStart(s: string): (t: string)
    ensures |t| <= |s| && t == s[|s| - |t|..]
    ensures t == [] || !IsJsWhitespace(t[0])
    ensures s != [] && !IsJsWhitespace(s[0]) ==> t == s
  {
    if s != [] && IsJsWhitespace(s[0]) then TrimStart(s[1..]) else s
  }

  /** A `0x` or `0X` prefix, which switches `parseInt` to radix 16. */
  predicate HasHexPrefix(u: string)
  {
    |u| >= 2 && u[0] == '0' && (u[1] == 'x' || u[1] == 'X')
  }

  /** The magnitude `parseInt` reads after the sign, if there are any digits. */
  function ParseMagnitude(u: string): Option<nat>
  {
    var hex := HasHexPrefix(u);
    var digits := DigitPrefix(if hex then u[2..] else u, hex);
    if digits == [] then None else Some(DigitsValue(digits, hex))
  }

  /**
   * `parseInt(s)` with no radix: skip leading white space, read an optional
   * sign, read a `0x`/`0X` prefix as radix 16, then the longest run of digits;
   * NaN when that run is empty.
   */
  function ParseInt(s: string): JsNumber
  {
    var t := TrimStart(s);
    var signed := |t| > 0 && (t[0] == '-' || t[0] == '+');
    match ParseMagnitude(if signed then t[1..] else t)
    case None => NaN
    case Some(m) => if signed && t[0] == '-' then Num(-(m as int)) else Num(m)
  }

  function DigitChar(d: nat): (c: char)
    requires d < 10
    ensures IsDecimalDigit(c) && DigitValue(c) == d
  {
    ('0' as nat + d) as char
  }

  /** The decimal numeral of a natural number, as `toString()` writes it. */
  function DecimalString(n: nat): (s: string)
    ensures |s| > 0 && AllRadixDigits(s, false)
    ensures DigitsValue(s, false) == n
    ensures s[0] == '0' <==> n == 0
    ensures n < 10 ==> |s| == 1
  {
    if n < 10 then [DigitChar(n)]
    else
      var s := DecimalString(n / 10) + [DigitChar(n % 10)];
      assert s[..|s| - 1] == DecimalString(n / 10);
      s
  }

  /** `String(x)` or a template literal `${x}` for the numbers of this model. */
  function NumberToString(x: JsNumber): string
  {
    match x
    case NaN => "NaN"
    case Num(v) => if v < 0 then "-" + DecimalString(-v) else DecimalString(v)
  }

  /** Reading back what `toString()` wrote gives the same integer. */
  lemma {:induction false} ParseIntOfToString(v: int)
    ensures ParseInt(NumberToString(Num(v))) == Num(v)
  {
    var d := DecimalString(if v < 0 then -v else v);
    if v < 0 {
      var s := "-" + d;
      assert s[1..] == d;
      ParseIntOfNumeral(s, d);
    } else {
      ParseIntOfNumeral(d, d);
    }
  }

  /** `s` is an optional minus sign followed by the numeral `d`. */
  lemma {:induction false} ParseIntOfNumeral(s: string, d: string)
    requires |d| > 0 && AllRadixDigits(d, false) && (d[0] == '0' ==> |d| == 1)
    requires s == d || s == "-" + d
    ensures ParseInt(s) == Num(if s == d then DigitsValue(d, false) else -(DigitsValue(d, false) as int))
  {
    assert !IsJsWhitespace(s[0]);
    assert TrimStart(s) == s;
    ParseMagnitudeOfNumeral(d);
  }

  lemma {:induction false} ParseMagnitudeOfNumeral(d: string)
    requires |d| > 0 && AllRadixDigits(d, false) && (d[0] == '0' ==> |d| == 1)
    ensures ParseMagnitude(d) == Some(DigitsValue(d, false))
  {
    assert !HasHexPrefix(d);
    DigitPrefixOfDigits(d, false);
  }

  /** On a string of digits, `parseInt` reads all of it. */
  lemma DigitPrefixOfDigits(s: string, hex: bool)
    requires AllRadixDigits(s, hex)
    ensures DigitPrefix(s, hex) == s
  {
  }

  /** Strings without any digit parse to NaN. */
  lemma NoDigitsIsNaN(s: string)
    requires forall i :: 0 <= i < |s| ==> !IsDecimalDigit(s[i])
    ensures ParseInt(s) == NaN
  {
  }
}
