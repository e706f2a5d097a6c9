/**
 * The JavaScript value semantics the controllers rely on: the scalars a JSON request
 * carries, truthiness and `== null`, and the conversions `Number(v)`, `parseInt(v, 10)`,
 * `parseFloat(v)` and `String.prototype.trim`.
 *
 * Numbers are exact reals. A conversion yields NaN or a finite value; `Number` reads the
 * spellings "Infinity", "0x..", "0b.." and "0o.." as NaN, and `parseFloat` reads
 * "Infinity" as NaN (see README, "Left out").
 */
module Js {
  import opened Results

  /** A JSON scalar as it arrives in a request body, a query string or a stored column. */
  datatype Json = Undefined | Null | Bool(b: bool) | Num(n: real) | Str(s: string)

  /** A JavaScript number produced by a conversion. */
  datatype Number = NaN | Finite(x: real)

  /** `!!v` */
  predicate Truthy(v: Json) {
    match v
    case Undefined => false
    case Null => false
    case Bool(b) => b
    case Num(n) => n != 0.0
    case Str(s) => s != ""
  }

  /** `v == null` (loose equality: true of both undefined and null) */
  predicate IsNullish(v: Json) {
    v.Undefined? || v.Null?
  }

  // ---------------------------------------------------------------------------
  // Comparisons with a number: every comparison involving NaN is false.

  predicate Less(a: Number, b: real) {
    a.Finite? && a.x < b
  }

  predicate Greater(a: Number, b: real) {
    a.Finite? && a.x > b
  }

  predicate AtLeast(a: Number, b: real) {
    a.Finite? && a.x >= b
  }

  predicate AtMost(a: Number, b: real) {
    a.Finite? && a.x <= b
  }

  // ---------------------------------------------------------------------------
  // Whitespace and trimming

  /** The WhiteSpace and LineTerminator code points that `trim` and the number parsers skip. */
  predicate IsSpace(c: char) {
    var n := c as int;
    (0x09 <= n <= 0x0D) || n == 0x20 || n == 0xA0 || n == 0x1680 || (0x2000 <= n <= 0x200A)
    || n == 0x2028 || n == 0x2029 || n == 0x202F || n == 0x205F || n == 0x3000 || n == 0xFEFF
  }

  predicate AllSpace(s: string) {
    forall i :: 0 <= i < |s| ==> IsSpace(s[i])
  }

  /** `s` without its leading whitespace. */
  function TrimStart(s: string): (r: string)
    ensures |r| <= |s| && r == s[|s| - |r|..]
    ensures r == [] || !IsSpace(r[0])
    ensures AllSpace(s[..|s| - |r|])
  {
    if s != [] && IsSpace(s[0]) then TrimStart(s[1..]) else s
  }

  /** `s` without its trailing whitespace. */
  function TrimEnd(s: string): (r: string)
    ensures |r| <= |s| && r == s[..|r|]
    ensures r == [] || !IsSpace(r[|r| - 1])
    ensures AllSpace(s[|r|..])
  {
    if s != [] && IsSpace(s[|s| - 1]) then
      var r := TrimEnd(s[..|s| - 1]);
      assert forall i :: 0 <= i < |s| - 1 - |r| ==> s[|r|..][i] == s[..|s| - 1][|r|..][i];
      assert s[|r|..][|s| - 1 - |r|] == s[|s| - 1];
      r
    else s
  }

  /** `s.trim()`: the longest infix of `s` that starts and ends with a non-space. */
  function Trim(s: string): (r: string)
    ensures r == [] || (!IsSpace(r[0]) && !IsSpace(r[|r| - 1]))
    ensures r == [] <==> AllSpace(s)
    ensures exists i, j :: 0 <= i <= j <= |s| && r == s[i..j] && AllSpace(s[..i]) && AllSpace(s[j..])
  {
    var t := TrimStart(s);
    var r := TrimEnd(t);
    assert t != [] ==> !IsSpace(s[|s| - |t|]);
    assert r == [] ==> t[|r|..] == t;
    assert t == [] ==> s[..|s|] == s;
    TrimBounds(s, t, r);
    r
  }

  /** Trimming both ends cuts `s` at two points with only whitespace outside them. */
  lemma TrimBounds(s: string, t: string, r: string)
    requires |t| <= |s| && t == s[|s| - |t|..] && AllSpace(s[..|s| - |t|])
    requires |r| <= |t| && r == t[..|r|] && AllSpace(t[|r|..])
    ensures var i := |s| - |t|; r == s[i..i + |r|] && AllSpace(s[..i]) && AllSpace(s[i + |r|..])
  {
    var i := |s| - |t|;
    assert s[i + |r|..] == t[|r|..];
  }

  /** Trimming is idempotent: a trimmed string has nothing left to trim. */
  lemma TrimIdempotent(s: string)
    ensures Trim(Trim(s)) == Trim(s)
  {
  }

  // ---------------------------------------------------------------------------
  // Decimal digits

  predicate IsDigit(c: char) {
    '0' <= c <= '9'
  }

  predicate AllDigits(s: string) {
    forall i :: 0 <= i < |s| ==> IsDigit(s[i])
  }

  /** The length of the longest prefix of `s` made of digits. */
  function DigitCount(s: string): (n: nat)
    ensures n <= |s|
    ensures AllDigits(s[..n])
    ensures n == |s| || !IsDigit(s[n])
  {
    if s != [] && IsDigit(s[0]) then
      var n := 1 + DigitCount(s[1..]);
      assert s[..n] == [s[0]] + s[1..][..n - 1];
      n
    else 0
  }

  /** The value of a string of decimal digits. */
  function DigitsValue(d: string): nat
    requires AllDigits(d)
  {
    if d == [] then 0
    else 10 * DigitsValue(d[..|d| - 1]) + ((d[|d| - 1] as int) - ('0' as int))
  }

  /** The value of the digits after a decimal point: `0.d1d2...`. */
  function FractionValue(d: string): real
    requires AllDigits(d)
  {
    if d == [] then 0.0
    else (((d[0] as int) - ('0' as int)) as real + FractionValue(d[1..])) / 10.0
  }

  /** `m * 10^e`, one power of ten at a time. */
  function Scale(m: real, e: int): real
    decreases if e >= 0 then e else -e
  {
    if e == 0 then m
    else if e > 0 then Scale(m * 10.0, e - 1)
    else Scale(m / 10.0, e + 1)
  }

  predicate IsSign(c: char) {
    c == '+' || c == '-'
  }

  /** An exponent part `e[+-]digits`, or nothing: its value and its length. */
  function ExponentPrefix(s: string): (r: (int, nat))
    ensures r.1 <= |s|
  {
    if s != [] && (s[0] == 'e' || s[0] == 'E') then
      var signLen := if |s| > 1 && IsSign(s[1]) then 1 else 0;
      var digits := s[1 + signLen..];
      var n := DigitCount(digits);
      if n == 0 then (0, 0)
      else
        var v: int := DigitsValue(digits[..n]);
        (if signLen == 1 && s[1] == '-' then -v else v, 1 + signLen + n)
    else (0, 0)
  }

  /**
   * Digits, optionally followed by a point and more digits, at the start of `s`, with at
   * least one digit in all: the value and the length, or None.
   */
  function MantissaPrefix(s: string): (r: Option<(real, nat)>)
    ensures r.Some? ==> 0 < r.value.1 <= |s|
  {
    var intLen := DigitCount(s);
    var afterInt := s[intLen..];
    if afterInt != [] && afterInt[0] == '.' then
      var fracLen := DigitCount(afterInt[1..]);
      if intLen + fracLen == 0 then None
      else Some((DigitsValue(s[..intLen]) as real + FractionValue(afterInt[1..][..fracLen]), intLen + 1 + fracLen))
    else if intLen == 0 then None
    else Some((DigitsValue(s[..intLen]) as real, intLen))
  }

  /** An unsigned decimal literal at the start of `s`: a mantissa and an optional exponent. */
  function UnsignedPrefix(s: string): (r: Option<(real, nat)>)
    ensures r.Some? ==> 0 < r.value.1 <= |s|
  {
    match MantissaPrefix(s)
    case None => None
    case Some(m) =>
      var e := ExponentPrefix(s[m.1..]);
      Some((Scale(m.0, e.0), m.1 + e.1))
  }

  /**
   * The longest prefix of `s` that reads as an optionally signed decimal literal
   * (digits, an optional fraction, an optional exponent; at least one digit before
   * the exponent): its value and its length, or None when there is no such prefix.
   */
  function DecimalPrefix(s: string): (r: Option<(real, nat)>)
    ensures r.Some? ==> 0 < r.value.1 <= |s|
  {
    if s != [] && IsSign(s[0]) then
      match UnsignedPrefix(s[1..])
      case None => None
      case Some(u) => Some((if s[0] == '-' then -u.0 else u.0, 1 + u.1))
    else UnsignedPrefix(s)
  }

  // ---------------------------------------------------------------------------
  // Conversions

  /** `Number(t)` for a string without surrounding whitespace: empty means 0. */
  function LiteralToNumber(t: string): Number {
    if t == [] then Finite(0.0)
    else
      match DecimalPrefix(t)
      case Some(p) => if p.1 == |t| then Finite(p.0) else NaN
      case None => NaN
  }

  /** `Number(s)` for a string: leading whitespace is skipped first. */
  function StringToNumber(s: string): Number
    decreases |s|, 1
  {
    if s != [] && IsSpace(s[0]) then StringToNumber(s[1..]) else TrimmedToNumber(s)
  }

  /** `Number(s)` for a string with no leading whitespace: trailing whitespace is skipped. */
  function TrimmedToNumber(s: string): Number
    decreases |s|, 0
  {
    if s != [] && IsSpace(s[|s| - 1]) then StringToNumber(s[..|s| - 1]) else LiteralToNumber(s)
  }

  /** `Number(s)` reads the literal that `s.trim()` leaves. */
  lemma {:induction false} StringToNumberTrims(s: string)
    ensures StringToNumber(s) == LiteralToNumber(Trim(s))
    decreases |s|, 1
  {
    if s != [] && IsSpace(s[0]) {
      StringToNumberTrims(s[1..]);
      assert TrimStart(s) == TrimStart(s[1..]);
    } else {
      assert TrimStart(s) == s;
      TrimmedToNumberTrims(s);
    }
  }

  lemma {:induction false} TrimmedToNumberTrims(s: string)
    requires s == [] || !IsSpace(s[0])
    ensures TrimmedToNumber(s) == LiteralToNumber(TrimEnd(s))
    decreases |s|, 0
  {
    if s != [] && IsSpace(s[|s| - 1]) {
      var u := s[..|s| - 1];
      StringToNumberTrims(u);
      assert TrimEnd(s) == TrimEnd(u);
      if u != [] {
        assert u[0] == s[0];
        assert TrimStart(u) == u;
      }
    }
  }

  /** `Number(v)` */
  function ToNumber(v: Json): Number {
    match v
    case Undefined => NaN
    case Null => Finite(0.0)
    case Bool(b) => Finite(if b then 1.0 else 0.0)
    case Num(n) => Finite(n)
    case Str(s) => StringToNumber(s)
  }

  /** `Math.trunc(x)` */
  function Trunc(x: real): (r: int)
    ensures 0.0 <= x ==> r as real <= x < r as real + 1.0
    ensures x < 0.0 ==> r as real - 1.0 < x <= r as real
  {
    if x >= 0.0 then x.Floor else -((-x).Floor)
  }

  /** `parseInt(s, 10)` for a string: leading whitespace, an optional sign, then digits. */
  function ParseIntString(s: string): (r: Number)
    ensures r.Finite? ==> r.x == r.x.Floor as real
  {
    var t := TrimStart(s);
    var signLen := if t != [] && IsSign(t[0]) then 1 else 0;
    var body := t[signLen..];
    var n := DigitCount(body);
    if n == 0 then NaN
    else
      var v: int := DigitsValue(body[..n]);
      var k: int := if signLen == 1 && t[0] == '-' then -v else v;
      Finite(k as real)
  }

  /** `parseInt(v, 10)`, which first converts `v` to a string. */
  function ParseInt(v: Json): (r: Number)
    ensures r.Finite? ==> r.x == r.x.Floor as real
    ensures v.Undefined? || v.Null? || v.Bool? ==> r == NaN
  {
    match v
    case Num(n) => Finite(Trunc(n) as real)
    case Str(s) => ParseIntString(s)
    case _ => NaN  // "undefined", "null", "true", "false" have no digits
  }

  /** `parseFloat(v)`, which first converts `v` to a string. */
  function ParseFloat(v: Json): Number {
    match v
    case Num(n) => Finite(n)
    case Str(s) =>
      (match DecimalPrefix(TrimStart(s))
       case Some(p) => Finite(p.0)
       case None => NaN)
    case _ => NaN
  }

  /** The digit count stops where the digits stop. */
  lemma {:induction false} DigitCountAppend(digits: string, rest: string)
    requires AllDigits(digits)
    requires rest == [] || !IsDigit(rest[0])
    ensures DigitCount(digits + rest) == |digits|
    decreases |digits|
  {
    if digits == [] {
      assert digits + rest == rest;
    } else {
      assert (digits + rest)[1..] == digits[1..] + rest;
      DigitCountAppend(digits[1..], rest);
    }
  }

  lemma MantissaOfDigits(digits: string, rest: string)
    requires digits != [] && AllDigits(digits)
    requires rest == [] || (!IsDigit(rest[0]) && rest[0] != '.')
    ensures MantissaPrefix(digits + rest) == Some((DigitsValue(digits) as real, |digits|))
  {
    var s := digits + rest;
    DigitCountAppend(digits, rest);
    assert s[..|digits|] == digits;
    assert s[|digits|..] == rest;
  }

  lemma UnsignedOfDigits(digits: string, rest: string)
    requires digits != [] && AllDigits(digits)
    requires rest == [] || (!IsDigit(rest[0]) && rest[0] != '.' && rest[0] != 'e' && rest[0] != 'E')
    ensures UnsignedPrefix(digits + rest) == Some((DigitsValue(digits) as real, |digits|))
  {
    MantissaOfDigits(digits, rest);
    assert (digits + rest)[|digits|..] == rest;
    assert ExponentPrefix(rest) == (0, 0);
    assert Scale(DigitsValue(digits) as real, 0) == DigitsValue(digits) as real;
  }

  /** A run of digits followed by text that cannot continue a number is read as that run. */
  lemma DecimalPrefixOfDigits(digits: string, rest: string)
    requires digits != [] && AllDigits(digits)
    requires rest == [] || (!IsDigit(rest[0]) && rest[0] != '.' && rest[0] != 'e' && rest[0] != 'E')
    ensures DecimalPrefix(digits + rest) == Some((DigitsValue(digits) as real, |digits|))
  {
    assert (digits + rest)[0] == digits[0];
    UnsignedOfDigits(digits, rest);
  }

  /** `parseFloat` reads the leading digits and ignores the text after them. */
  lemma ParseFloatLeadingDigits(digits: string, rest: string)
    requires digits != [] && AllDigits(digits)
    requires rest == [] || (!IsDigit(rest[0]) && rest[0] != '.' && rest[0] != 'e' && rest[0] != 'E')
    ensures ParseFloat(Str(digits + rest)) == Finite(DigitsValue(digits) as real)
  {
    var s := digits + rest;
    assert !IsSpace(s[0]) by { assert s[0] == digits[0] && IsDigit(digits[0]); }
    assert TrimStart(s) == s;
    DecimalPrefixOfDigits(digits, rest);
  }

  /** Text whose first non-space character cannot start a number reads as NaN. */
  lemma ParseFloatNoDigits(s: string)
    requires TrimStart(s) != []
    requires var c := TrimStart(s)[0]; !IsDigit(c) && !IsSign(c) && c != '.'
    ensures ParseFloat(Str(s)) == NaN
  {
    var t := TrimStart(s);
    assert t[0..] == t;
    assert DigitCount(t) == 0;
  }

  /** A number is first printed and then re-read, which drops its fraction toward zero. */
  lemma ParseIntOfNumber(n: real)
    ensures ParseInt(Num(n)) == Finite(Trunc(n) as real)
  {
  }

  /** `parseInt` reads a leading run of digits and ignores the text after it. */
  lemma {:induction false} ParseIntLeadingDigits(digits: string, rest: string)
    requires digits != [] && AllDigits(digits)
    requires rest == [] || !IsDigit(rest[0])
    ensures ParseInt(Str(digits + rest)) == Finite(DigitsValue(digits) as real)
  {
    var s := digits + rest;
    assert IsDigit(s[0]) && !IsSign(s[0]) by { assert s[0] == digits[0]; }
    assert TrimStart(s) == s by { TrimStartFixed(s); }
    assert s[0..] == s;
    assert DigitCount(s) == |digits| by { DigitCountAppend(digits, rest); }
    assert s[..|digits|] == digits;
  }

  /** A leading `+` or `-` sign is read and applied to the digits after it. */
  lemma {:induction false} ParseIntSignedDigits(sign: char, digits: string, rest: string)
    requires IsSign(sign)
    requires digits != [] && AllDigits(digits)
    requires rest == [] || !IsDigit(rest[0])
    ensures ParseInt(Str([sign] + digits + rest))
            == Finite(if sign == '-' then -(DigitsValue(digits) as real) else DigitsValue(digits) as real)
  {
    var s := [sign] + digits + rest;
    assert TrimStart(s) == s by { TrimStartFixed(s); }
    assert s[1..] == digits + rest;
    assert DigitCount(s[1..]) == |digits| by { DigitCountAppend(digits, rest); }
    assert s[1..][..|digits|] == digits;
  }

  lemma TrimStartFixed(s: string)
    requires s != [] && (IsDigit(s[0]) || IsSign(s[0]))
    ensures TrimStart(s) == s
  {
  }

  /** Text with no digit after the optional sign reads as NaN. */
  lemma ParseIntNoDigits(s: string)
    requires var t := TrimStart(s);
             var body := if t != [] && IsSign(t[0]) then t[1..] else t;
             body == [] || !IsDigit(body[0])
    ensures ParseInt(Str(s)) == NaN
  {
  }

  /** The integer a successful integer parse denotes. */
  function IntOf(n: Number): int
    requires n.Finite?
  {
    n.x.Floor
  }
}
