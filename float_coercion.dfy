/**
 * Python's `float(v)` on the values a YAML document can hold: the coercion
 * applied to every potential parameter. Text is read in the decimal forms
 * Python accepts (surrounding whitespace, a sign, digits with an optional
 * point, an optional exponent).
 */
module Coercion {
  import opened Wrappers
  import opened Yaml

  predicate IsDigit(c: char) { '0' <= c <= '9' }

  /**
   * The whitespace `float` strips around a number: ASCII space and tab
   * through carriage return, and the non-ASCII characters `str.isspace()`
   * accepts. The ASCII separators U+001C .. U+001F count as space for
   * `str.isspace()` but not for `float`.
   */
  predicate IsSpace(c: char) {
    || c == ' ' || '\t' <= c <= '\r'
    || c == '\U{85}' || c == '\U{a0}' || c == '\U{1680}' || '\U{2000}' <= c <= '\U{200a}'
    || c == '\U{2028}' || c == '\U{2029}' || c == '\U{202f}' || c == '\U{205f}' || c == '\U{3000}'
  }

  predicate AllSpace(s: string) { forall i :: 0 <= i < |s| ==> IsSpace(s[i]) }

  predicate AllDigits(s: string) { forall i :: 0 <= i < |s| ==> IsDigit(s[i]) }

  function DigitValue(c: char): nat
    requires IsDigit(c)
  {
    c as int - '0' as int
  }

  /** The number a string of decimal digits denotes (most significant first). */
  function DigitsValue(s: string): nat
    requires AllDigits(s)
  {
    if s == [] then 0 else DigitsValue(s[..|s| - 1]) * 10 + DigitValue(s[|s| - 1])
  }

  function Pow10(e: nat): (p: nat)
    ensures p >= 1
  {
    if e == 0 then 1 else 10 * Pow10(e - 1)
  }

  function StripLeft(s: string): (t: string)
    ensures |t| <= |s| && t == s[|s| - |t|..]
    ensures t == [] || !IsSpace(t[0])
    ensures forall i :: 0 <= i < |s| - |t| ==> IsSpace(s[i])
  {
    if s != [] && IsSpace(s[0]) then StripLeft(s[1..]) else s
  }

  function StripRight(s: string): (t: string)
    ensures |t| <= |s| && t == s[..|t|]
    ensures t == [] || !IsSpace(t[|t| - 1])
    ensures forall i :: |t| <= i < |s| ==> IsSpace(s[i])
  {
    if s != [] && IsSpace(s[|s| - 1]) then StripRight(s[..|s| - 1]) else s
  }

  /** Index of the first occurrence of `a` or `b`, or |s| when neither occurs. */
  function FirstOf(s: string, a: char, b: char): (i: nat)
    ensures i <= |s|
    ensures i < |s| ==> s[i] == a || s[i] == b
    ensures forall j :: 0 <= j < i ==> s[j] != a && s[j] != b
  {
    if s == [] then 0
    else if s[0] == a || s[0] == b then 0
    else 1 + FirstOf(s[1..], a, b)
  }

  /** The value of `w.f` where the fraction f has n digits: (w * 10^n + f) / 10^n. */
  function DecimalFraction(w: nat, f: nat, n: nat): (x: real)
    ensures 0.0 <= x
  {
    (w * Pow10(n) + f) as real / Pow10(n) as real
  }

  /** `ddd`, `ddd.`, `.ddd` or `ddd.ddd`, at least one digit. */
  function ParseMantissa(s: string): (r: Option<real>)
    ensures r.Some? ==> 0.0 <= r.value
    ensures r.Some? ==> exists i :: 0 <= i < |s| && IsDigit(s[i])
    ensures r.Some? ==> s != [] && (IsDigit(s[0]) || s[0] == '.')
  {
    var dot := FirstOf(s, '.', '.');
    var whole := s[..dot];
    var frac := if dot < |s| then s[dot + 1..] else [];
    if AllDigits(whole) && AllDigits(frac) && |whole| + |frac| > 0 then
      assert if |whole| > 0 then IsDigit(s[0]) else IsDigit(s[dot + 1]);
      Some(DecimalFraction(DigitsValue(whole), DigitsValue(frac), |frac|))
    else None
  }

  /** An optionally signed, non-empty run of digits. */
  function ParseExponent(s: string): (r: Option<int>)
    ensures r.Some? ==> s != [] && (r.value < 0 ==> s[0] == '-') && (s[0] == '-' ==> r.value <= 0)
  {
    var neg := |s| > 0 && s[0] == '-';
    var digits := if |s| > 0 && (s[0] == '+' || s[0] == '-') then s[1..] else s;
    if digits != [] && AllDigits(digits) then
      Some(if neg then -(DigitsValue(digits) as int) else DigitsValue(digits))
    else None
  }

  function Scale(x: real, e: int): (y: real)
    ensures 0.0 <= x ==> 0.0 <= y
  {
    if e >= 0 then x * Pow10(e) as real else x / Pow10(-e) as real
  }

  function ParseUnsigned(s: string): (r: Option<real>)
    ensures r.Some? ==> 0.0 <= r.value
    ensures r.Some? ==> s != [] && (IsDigit(s[0]) || s[0] == '.')
  {
    var e := FirstOf(s, 'e', 'E');
    match ParseMantissa(s[..e])
    case None => None
    case Some(m) =>
      if e == |s| then Some(m)
      else match ParseExponent(s[e + 1..])
        case None => None
        case Some(x) => Some(Scale(m, x))
  }

  /** Python's `float(s)` for a str: None where Python raises ValueError. */
  function ParseFloat(s: string): (r: Option<real>)
    ensures r.Some? && r.value < 0.0 ==> '-' in s
  {
    ParseSigned(StripRight(StripLeft(s)))
  }

  /** Stripped text: an optional sign, then an unsigned number. */
  function ParseSigned(t: string): (r: Option<real>)
    ensures r.Some? && r.value < 0.0 ==> t != [] && t[0] == '-'
  {
    if |t| > 0 && (t[0] == '+' || t[0] == '-') then
      match ParseUnsigned(t[1..])
      case None => None
      case Some(x) => Some(if t[0] == '-' then -x else x)
    else ParseUnsigned(t)
  }

  /**
   * Python's `float(v)`: booleans become 1.0 / 0.0, integers and floats keep
   * their value, strings are parsed; None, lists and mappings have no float
   * value (Python raises TypeError).
   */
  function ToFloat(v: Value): (r: Option<real>)
    ensures r.Some? <==> v.VBool? || v.VInt? || v.VFloat? || (v.VStr? && ParseFloat(v.s).Some?)
    ensures v.VInt? ==> r == Some(v.i as real)
    ensures v.VFloat? ==> r == Some(v.x)
  {
    match v
    case VBool(b) => Some(if b then 1.0 else 0.0)
    case VInt(i) => Some(i as real)
    case VFloat(x) => Some(x)
    case VStr(s) => ParseFloat(s)
    case _ => None
  }

  /** The decimal digits of `n`, as Python's `str(n)` prints them. */
  function Decimal(n: nat): (s: string)
    ensures s != [] && AllDigits(s)
  {
    if n < 10 then [('0' as int + n) as char]
    else Decimal(n / 10) + [('0' as int + n % 10) as char]
  }

  lemma {:induction false} DecimalValue(n: nat)
    ensures DigitsValue(Decimal(n)) == n
  {
    var s := Decimal(n);
    if n >= 10 {
      DecimalValue(n / 10);
      assert s[..|s| - 1] == Decimal(n / 10);
    }
  }

  lemma NoSpaceInDigits(s: string)
    requires AllDigits(s)
    ensures StripRight(StripLeft(s)) == s
  {
  }

  /** Text that neither starts nor ends with whitespace is left alone by stripping. */
  lemma NothingToStrip(x: string)
    requires x != [] && !IsSpace(x[0]) && !IsSpace(x[|x| - 1])
    ensures StripRight(StripLeft(x)) == x
  {
    assert StripLeft(x) == x;
  }

  lemma {:induction false} FirstOfMissing(s: string, a: char, b: char)
    requires forall j :: 0 <= j < |s| ==> s[j] != a && s[j] != b
    ensures FirstOf(s, a, b) == |s|
  {
    if s != [] {
      FirstOfMissing(s[1..], a, b);
    }
  }

  lemma MantissaWhole(s: string)
    requires s != [] && AllDigits(s)
    ensures ParseMantissa(s) == Some(DigitsValue(s) as real)
  {
    FirstOfMissing(s, '.', '.');
    assert s[..|s|] == s;
    assert Pow10(0) == 1;
  }

  lemma MantissaPointZero(s: string)
    requires s != [] && AllDigits(s)
    ensures ParseMantissa(s + ".0") == Some(DigitsValue(s) as real)
  {
    var t := s + ".0";
    assert FirstOf(t, '.', '.') == |s| by {
      FirstOfMissing(s, '.', '.');
      assert t[..|s|] == s;
      FirstOfPrefix(t, |s|, '.', '.');
    }
    var frac := t[|s| + 1..];
    assert t[..|s|] == s;
    assert frac == ['0'];
    assert DigitsValue(frac) == 0 by { assert frac[..0] == []; }
    var w := DigitsValue(s);
    assert Pow10(1) == 10 by { assert Pow10(0) == 1; }
    assert DecimalFraction(w, 0, 1) == w as real;
  }

  lemma UnsignedWithoutExponent(s: string)
    requires forall j :: 0 <= j < |s| ==> s[j] != 'e' && s[j] != 'E'
    ensures ParseUnsigned(s) == ParseMantissa(s)
  {
    FirstOfMissing(s, 'e', 'E');
    assert s[..|s|] == s;
  }

  /** The whole-number text PyYAML hands back for a quoted integer (`"5"`) coerces to that number. */
  lemma ParseFloatInteger(n: nat)
    ensures ParseFloat(Decimal(n)) == Some(n as real)
  {
    var s := Decimal(n);
    DecimalValue(n);
    NoSpaceInDigits(s);
    UnsignedWithoutExponent(s);
    MantissaWhole(s);
  }

  /** A quoted decimal with a zero fraction (`"5.0"`) coerces to the number it spells. */
  lemma ParseFloatPointZero(n: nat)
    ensures ParseFloat(Decimal(n) + ".0") == Some(n as real)
  {
    var s := Decimal(n);
    var t := s + ".0";
    DecimalValue(n);
    assert t[0] == s[0] && t[|t| - 1] == '0';
    NothingToStrip(t);
    UnsignedWithoutExponent(t);
    MantissaPointZero(s);
    assert ParseSigned(t) == ParseUnsigned(t);
  }

  lemma {:induction false} FirstOfPrefix(s: string, k: nat, a: char, b: char)
    requires k < |s| && (s[k] == a || s[k] == b)
    requires FirstOf(s[..k], a, b) == k
    ensures FirstOf(s, a, b) == k
  {
    if k > 0 {
      assert s[..k][1..] == s[1..][..k - 1];
      FirstOfPrefix(s[1..], k - 1, a, b);
    }
  }

  // --------------------------------------------------- whitespace and sign

  /** Leading whitespace is stripped away entirely. */
  lemma {:induction false} StripLeftSpacePrefix(w: string, x: string)
    requires AllSpace(w)
    ensures StripLeft(w + x) == StripLeft(x)
  {
    if w == [] {
      assert w + x == x;
    } else {
      assert (w + x)[1..] == w[1..] + x;
      StripLeftSpacePrefix(w[1..], x);
    }
  }

  /** Trailing whitespace is stripped away entirely. */
  lemma {:induction false} StripRightSpaceSuffix(x: string, w: string)
    requires AllSpace(w)
    ensures StripRight(x + w) == StripRight(x)
  {
    if w == [] {
      assert x + w == x;
    } else {
      var n := |w| - 1;
      assert (x + w)[..|x + w| - 1] == x + w[..n];
      StripRightSpaceSuffix(x, w[..n]);
    }
  }

  /** Stripping both ends ignores trailing whitespace, whatever precedes it. */
  lemma {:induction false} StripBothSpaceSuffix(x: string, w: string)
    requires AllSpace(w)
    ensures StripRight(StripLeft(x + w)) == StripRight(StripLeft(x))
  {
    if x == [] {
      assert x + w == w;
      StripLeftSpacePrefix(w, []);
      assert w + [] == w;
    } else if IsSpace(x[0]) {
      assert (x + w)[1..] == x[1..] + w;
      StripBothSpaceSuffix(x[1..], w);
    } else {
      StripRightSpaceSuffix(x, w);
    }
  }

  /** `float` ignores whitespace around the number: `float(" 5 ")` is `float("5")`. */
  lemma SurroundingSpaceIgnored(before: string, s: string, after: string)
    requires AllSpace(before) && AllSpace(after)
    ensures ParseFloat(before + s + after) == ParseFloat(s)
  {
    assert before + s + after == before + (s + after);
    StripLeftSpacePrefix(before, s + after);
    StripBothSpaceSuffix(s, after);
    assert StripRight(StripLeft(before + s + after)) == StripRight(StripLeft(s));
  }

  /** A leading `-` negates: for unsigned text without surrounding space, `float("-" + s)` is `-float(s)`. */
  lemma NegativeSign(s: string)
    requires s != [] && !IsSpace(s[0]) && !IsSpace(s[|s| - 1]) && s[0] != '+' && s[0] != '-'
    ensures ParseFloat(s).Some? <==> ParseFloat("-" + s).Some?
    ensures ParseFloat(s).Some? ==> ParseFloat("-" + s).value == -ParseFloat(s).value
  {
    var t := "-" + s;
    NothingToStrip(s);
    assert t[0] == '-' && t[|t| - 1] == s[|s| - 1];
    NothingToStrip(t);
    assert t[1..] == s;
    assert ParseSigned(s) == ParseUnsigned(s);
  }

  /**
   * The information separators U+001C .. U+001F are not stripped: `float`
   * rejects a number they precede.
   */
  lemma SeparatorNotStripped(c: char, s: string)
    requires '\U{1c}' <= c <= '\U{1f}'
    ensures ParseFloat([c] + s) == None
  {
    var t := StripRight(StripLeft([c] + s));
    assert StripLeft([c] + s) == [c] + s;
    assert t != [] ==> t[0] == c;
  }

}
