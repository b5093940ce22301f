/** JavaScript's `parseFloat`, which frontend/src/components/CreateProjectForm.tsx
    applies to the goal and milestone amount fields. It skips leading white
    space and reads the longest prefix that is a decimal literal (sign,
    digits, optional fraction, optional exponent); with no such prefix the
    result is NaN. Values are exact rationals, not doubles. */
module NumberParsing {

  /** A JavaScript number: NaN or a finite value. */
  datatype JsNumber = NaN | Num(value: real)

  predicate IsDigit(c: char) {
    '0' <= c <= '9'
  }

  /** JavaScript's white space and line terminators: tab, line feed,
      vertical tab, form feed, carriage return, the byte order mark, the
      line and paragraph separators, and every space separator (Unicode
      category Zs). */
  predicate IsSpace(c: char) {
    c == '\t' || c == '\n' || c as int == 0x0B || c as int == 0x0C || c == '\r'
    || c as int == 0xFEFF || c as int == 0x2028 || c as int == 0x2029
    || IsSpaceSeparator(c)
  }

  /** The Zs characters: space, no-break space, ogham space mark, the
      spaces U+2000 to U+200A, narrow no-break space, medium mathematical
      space and ideographic space. */
  predicate IsSpaceSeparator(c: char) {
    c == ' ' || c as int == 0xA0 || c as int == 0x1680 || 0x2000 <= c as int <= 0x200A
    || c as int == 0x202F || c as int == 0x205F || c as int == 0x3000
  }

  predicate AllDigits(s: string) {
    forall i :: 0 <= i < |s| ==> IsDigit(s[i])
  }

  function SkipSpace(s: string): string {
    if s != [] && IsSpace(s[0]) then SkipSpace(s[1..]) else s
  }

  /** Length of the run of digits at the start of `s`. */
  function DigitRun(s: string): (n: nat)
    ensures n <= |s| && AllDigits(s[..n])
    ensures n < |s| ==> !IsDigit(s[n])
  {
    if s != [] && IsDigit(s[0]) then 1 + DigitRun(s[1..]) else 0
  }

  /** The natural number a string of decimal digits denotes. */
  function DigitsValue(d: string): nat
    requires AllDigits(d)
  {
    if d == [] then 0 else DigitsValue(d[..|d| - 1]) * 10 + (d[|d| - 1] as int - '0' as int)
  }

  function Pow10(n: nat): (p: nat)
    ensures p >= 1
  {
    if n == 0 then 1 else 10 * Pow10(n - 1)
  }

  /** `m * 10^e` for a signed exponent. */
  function ScaleBy(m: real, e: int): real {
    if e >= 0 then m * Pow10(e) as real else m / Pow10(-e) as real
  }

  /** The value of an exponent part `e[+-]digits` at the start of `s`, or 0
      when `s` does not start with a complete one. */
  function ExponentOf(s: string): int {
    if |s| >= 2 && (s[0] == 'e' || s[0] == 'E') then
      var negative := s[1] == '-';
      var digits := if s[1] == '+' || s[1] == '-' then s[2..] else s[1..];
      var n := DigitRun(digits);
      if n == 0 then 0 else if negative then -(DigitsValue(digits[..n]) as int) else DigitsValue(digits[..n])
    else 0
  }

  /** The unsigned decimal literal at the start of `u` (digits, optional
      fraction, optional exponent), or NaN when `u` starts with neither a
      digit nor a point followed by a digit. */
  function ParseMagnitude(u: string): JsNumber {
    var intLen := DigitRun(u);
    var rest := u[intLen..];
    var hasPoint := rest != [] && rest[0] == '.';
    var fracLen := if hasPoint then DigitRun(rest[1..]) else 0;
    if intLen == 0 && fracLen == 0 then NaN
    else
      var fraction := if hasPoint then rest[1..][..fracLen] else "";
      var afterMantissa := if hasPoint then rest[1 + fracLen..] else rest;
      var mantissa := DigitsValue(u[..intLen]) as real + DigitsValue(fraction) as real / Pow10(fracLen) as real;
      Num(ScaleBy(mantissa, ExponentOf(afterMantissa)))
  }

  function Negate(x: JsNumber): JsNumber {
    match x
    case NaN => NaN
    case Num(v) => Num(-v)
  }

  /** `parseFloat(s)`. */
  function ParseFloat(s: string): JsNumber {
    var t := SkipSpace(s);
    if t != [] && t[0] == '-' then Negate(ParseMagnitude(t[1..]))
    else if t != [] && t[0] == '+' then ParseMagnitude(t[1..])
    else ParseMagnitude(t)
  }

  /** The decimal representation of a natural number, the partner of `DigitsValue`. */
  function ShowNat(n: nat): (s: string)
    ensures s != [] && AllDigits(s)
  {
    if n < 10 then ['0' + n as char] else ShowNat(n / 10) + ['0' + (n % 10) as char]
  }

  lemma {:induction false} DigitsValueOfShowNat(n: nat)
    ensures DigitsValue(ShowNat(n)) == n
  {
    if n >= 10 {
      var s := ShowNat(n);
      assert s[..|s| - 1] == ShowNat(n / 10);
      DigitsValueOfShowNat(n / 10);
    }
  }

  lemma {:induction false} DigitRunOfDigits(s: string)
    requires AllDigits(s)
    ensures DigitRun(s) == |s|
  {
    if s != [] {
      DigitRunOfDigits(s[1..]);
    }
  }

  /** A string of digits alone is read as the number it denotes. */
  lemma MagnitudeOfDigits(d: string)
    requires d != [] && AllDigits(d)
    ensures ParseMagnitude(d) == Num(DigitsValue(d) as real)
  {
    DigitRunOfDigits(d);
    assert d[..|d|] == d;
    assert d[|d|..] == [];
  }

  /** `parseFloat` reads back the decimal representation of every natural
      number, with or without a minus sign. */
  lemma ParseFloatOfShowNat(n: nat)
    ensures ParseFloat(ShowNat(n)) == Num(n as real)
    ensures ParseFloat("-" + ShowNat(n)) == Num(-(n as real))
  {
    var s := ShowNat(n);
    DigitsValueOfShowNat(n);
    MagnitudeOfDigits(s);
    assert !IsSpace(s[0]) && s[0] != '-' && s[0] != '+';
    assert SkipSpace(s) == s;
    var m := "-" + s;
    assert !IsSpace(m[0]);
    assert SkipSpace(m) == m;
    assert m[1..] == s;
  }

  /** Any one leading white space character, ASCII or a Unicode space
      separator, is skipped. */
  lemma ParseFloatSkipsLeadingSpace(c: char, s: string)
    requires IsSpace(c)
    ensures ParseFloat([c] + s) == ParseFloat(s)
  {
    assert ([c] + s)[1..] == s;
  }

  /** For example, an ideographic space before a numeral does not make it
      NaN. */
  lemma ParseFloatSkipsIdeographicSpace(n: nat)
    ensures ParseFloat([0x3000 as char] + ShowNat(n)) == Num(n as real)
  {
    var s := [0x3000 as char] + ShowNat(n);
    assert IsSpace(s[0]) && s[1..] == ShowNat(n);
    ParseFloatOfShowNat(n);
  }

  /** Strings without a digit before the first non-space, non-sign,
      non-point character are NaN; in particular the empty field. */
  lemma ParseFloatOfEmpty()
    ensures ParseFloat("") == NaN
    ensures ParseFloat(".") == NaN
  {
  }
}
