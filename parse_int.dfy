/**
 * `parseInt(text, 10)` as ECMAScript defines it (section 19.2.5 of ECMA-262): skip
 * leading white space and line terminators, take one optional sign, then the longest
 * run of decimal digits. No digit at all gives NaN, modelled as `None`.
 */
module IntParsing {
  import opened Wrappers

  /** ECMAScript WhiteSpace and LineTerminator code points (Unicode 15 space separators). */
  predicate IsJsWhitespace(c: char) {
    var n := c as int;
    n == 0x09 || n == 0x0A || n == 0x0B || n == 0x0C || n == 0x0D || n == 0x20
    || n == 0xA0 || n == 0x1680 || (0x2000 <= n <= 0x200A) || n == 0x2028 || n == 0x2029
    || n == 0x202F || n == 0x205F || n == 0x3000 || n == 0xFEFF
  }

  predicate IsDigit(c: char) {
    '0' <= c <= '9'
  }

  predicate AllDigits(s: string) {
    forall i :: 0 <= i < |s| ==> IsDigit(s[i])
  }

  predicate AllWhitespace(s: string) {
    forall i :: 0 <= i < |s| ==> IsJsWhitespace(s[i])
  }

  /** `s` is empty or does not begin with a digit, so a digit run before it ends there. */
  predicate StopsDigits(s: string) {
    s == [] || !IsDigit(s[0])
  }

  function DigitValue(c: char): (d: nat)
    requires IsDigit(c)
    ensures d < 10
  {
    c as int - '0' as int
  }

  function DigitChar(d: nat): (c: char)
    requires d < 10
    ensures IsDigit(c) && DigitValue(c) == d
  {
    (d + '0' as int) as char
  }

  /** TrimString(s, start): what is left after the white space that begins `s`. */
  function TrimStart(s: string): string
    decreases |s|
  {
    if s != [] && IsJsWhitespace(s[0]) then TrimStart(s[1..]) else s
  }

  /** The longest prefix of `s` made of decimal digits. */
  function LeadingDigits(s: string): (r: string)
    ensures r <= s
    ensures AllDigits(r)
    ensures StopsDigits(s[|r|..])
    decreases |s|
  {
    if s != [] && IsDigit(s[0]) then [s[0]] + LeadingDigits(s[1..]) else []
  }

  /** The mathematical value of a string of decimal digits, most significant first. */
  function DigitsValue(s: string): nat
    requires AllDigits(s)
    decreases |s|
  {
    if s == [] then 0 else DigitsValue(s[..|s| - 1]) * 10 + DigitValue(s[|s| - 1])
  }

  /** `parseInt(s, 10)`; `None` is NaN, and "-0" (negative zero) is folded into 0. */
  function ParseInt(s: string): Option<int> {
    ParseSigned(TrimStart(s))
  }

  /** What parseInt does once the white space is gone: one optional sign, then the digit run. */
  function ParseSigned(t: string): Option<int> {
    var sign := if t != [] && t[0] == '-' then -1 else 1;
    var digits := LeadingDigits(DropSign(t));
    if digits == [] then None else Some(sign * DigitsValue(digits))
  }

  /** `t` without its first character when that is a '+' or '-' sign. */
  function DropSign(t: string): string {
    if t != [] && (t[0] == '-' || t[0] == '+') then t[1..] else t
  }

  /** The decimal rendering of a natural number, without leading zeros (ToString on integers). */
  function DecimalText(n: nat): (r: string)
    ensures |r| > 0 && AllDigits(r)
    ensures r[0] == '0' ==> n == 0
    decreases n
  {
    if n < 10 then [DigitChar(n)] else DecimalText(n / 10) + [DigitChar(n % 10)]
  }

  lemma {:induction false} DigitsValueOfDecimalText(n: nat)
    ensures DigitsValue(DecimalText(n)) == n
    decreases n
  {
    if n >= 10 {
      var r := DecimalText(n);
      assert r[..|r| - 1] == DecimalText(n / 10);
      DigitsValueOfDecimalText(n / 10);
    }
  }

  /** A zero in front of a digit string does not change its value. */
  lemma {:induction false} LeadingZeroIgnored(s: string)
    requires AllDigits(s)
    ensures DigitsValue(['0'] + s) == DigitsValue(s)
    decreases |s|
  {
    if s != [] {
      var t := ['0'] + s;
      assert t[..|t| - 1] == ['0'] + s[..|s| - 1];
      LeadingZeroIgnored(s[..|s| - 1]);
    }
  }

  /**
   * TrimStart removes exactly the white space that begins `s`: what it drops is all white
   * space, and what it keeps is the rest of `s`, which does not begin with white space.
   */
  lemma {:induction false} TrimStartDropsWhitespacePrefix(s: string)
    ensures var r := TrimStart(s);
      && |r| <= |s| && r == s[|s| - |r|..]
      && AllWhitespace(s[..|s| - |r|])
      && (r == [] || !IsJsWhitespace(r[0]))
    decreases |s|
  {
    if s != [] && IsJsWhitespace(s[0]) {
      TrimStartDropsWhitespacePrefix(s[1..]);
      var r := TrimStart(s);
      assert s[1..][|s| - 1 - |r|..] == s[|s| - |r|..];
      var dropped, droppedLater := s[..|s| - |r|], s[1..][..|s| - 1 - |r|];
      forall i | 0 <= i < |dropped| ensures IsJsWhitespace(dropped[i]) {
        if i > 0 {
          assert dropped[i] == droppedLater[i - 1];
        }
      }
    }
  }

  lemma {:induction false} TrimStartSkipsWhitespace(ws: string, t: string)
    requires AllWhitespace(ws)
    ensures TrimStart(ws + t) == TrimStart(t)
    decreases |ws|
  {
    if ws != [] {
      assert (ws + t)[0] == ws[0];
      assert (ws + t)[1..] == ws[1..] + t;
      TrimStartSkipsWhitespace(ws[1..], t);
    } else {
      assert ws + t == t;
    }
  }

  /** Leading white space never changes what parseInt returns. */
  lemma ParseIntSkipsWhitespace(ws: string, t: string)
    requires AllWhitespace(ws)
    ensures ParseInt(ws + t) == ParseInt(t)
  {
    TrimStartSkipsWhitespace(ws, t);
  }

  /** A digit run followed by something that is not a digit is exactly the leading digits. */
  lemma LeadingDigitsOfRun(d: string, rest: string)
    requires AllDigits(d) && StopsDigits(rest)
    ensures LeadingDigits(d + rest) == d
  {
    var r := LeadingDigits(d + rest);
    assert r == (d + rest)[..|r|];
    assert d == (d + rest)[..|d|];
  }

  /** `sign` is empty or a single '+' or '-'. */
  predicate OptionalSign(sign: string) {
    sign == [] || (|sign| == 1 && (sign[0] == '+' || sign[0] == '-'))
  }

  /** The value `v` carries once the optional sign in front of it is applied. */
  function Signed(sign: string, v: nat): int {
    if sign != [] && sign[0] == '-' then -(v as int) else v
  }

  /** Signs and digits are not white space. */
  lemma SignOrDigitIsNotWhitespace(c: char)
    requires c == '+' || c == '-' || IsDigit(c)
    ensures !IsJsWhitespace(c)
  {
  }

  /** Text that does not begin with white space has none to trim. */
  lemma TrimStartNoop(t: string)
    requires t != [] && !IsJsWhitespace(t[0])
    ensures TrimStart(t) == t
  {
  }

  /** Text that begins with its leading digits `d` parses to their value. */
  lemma ParseIntOfUnsignedText(t: string, d: string)
    requires t != [] && IsDigit(t[0])
    requires d != [] && LeadingDigits(t) == d
    ensures ParseInt(t) == Some(DigitsValue(d))
  {
    SignOrDigitIsNotWhitespace(t[0]);
    TrimStartNoop(t);
  }

  /** Text that begins with a sign followed by the digits `d` parses to their value with that sign. */
  lemma ParseIntOfSignedText(t: string, d: string)
    requires t != [] && (t[0] == '+' || t[0] == '-')
    requires d != [] && LeadingDigits(t[1..]) == d
    ensures ParseInt(t) == Some(if t[0] == '-' then -(DigitsValue(d) as int) else DigitsValue(d))
  {
    SignOrDigitIsNotWhitespace(t[0]);
    TrimStartNoop(t);
  }

  lemma ParseIntOfUnsignedRun(d: string, rest: string)
    requires d != [] && AllDigits(d) && StopsDigits(rest)
    ensures ParseInt(d + rest) == Some(DigitsValue(d))
  {
    assert (d + rest)[0] == d[0];
    LeadingDigitsOfRun(d, rest);
    ParseIntOfUnsignedText(d + rest, d);
  }

  lemma ParseIntOfSignedRun(sign: string, d: string, rest: string)
    requires |sign| == 1 && (sign[0] == '+' || sign[0] == '-')
    requires d != [] && AllDigits(d) && StopsDigits(rest)
    ensures ParseInt(sign + d + rest) == Some(Signed(sign, DigitsValue(d)))
  {
    var t := sign + d + rest;
    assert t[0] == sign[0];
    assert t[1..] == d + rest;
    LeadingDigitsOfRun(d, rest);
    ParseIntOfSignedText(t, d);
  }

  /** An optional sign, then a digit run: the run's value with that sign. */
  lemma ParseIntOfOptionallySignedRun(sign: string, d: string, rest: string)
    requires OptionalSign(sign) && StopsDigits(rest)
    requires d != [] && AllDigits(d)
    ensures ParseInt(sign + d + rest) == Some(Signed(sign, DigitsValue(d)))
  {
    if sign == [] {
      assert sign + d + rest == d + rest;
      ParseIntOfUnsignedRun(d, rest);
    } else {
      ParseIntOfSignedRun(sign, d, rest);
    }
  }

  /** White space, an optional sign, then a digit run: the run's value with that sign. */
  lemma ParseIntOfRun(ws: string, sign: string, d: string, rest: string)
    requires AllWhitespace(ws) && OptionalSign(sign) && StopsDigits(rest)
    requires d != [] && AllDigits(d)
    ensures ParseInt(ws + sign + d + rest) == Some(Signed(sign, DigitsValue(d)))
  {
    var t := sign + d + rest;
    assert ws + sign + d + rest == ws + t;
    ParseIntSkipsWhitespace(ws, t);
    ParseIntOfOptionallySignedRun(sign, d, rest);
  }

  /**
   * Round trip: white space, an optional sign, the decimal rendering of `n` and any text
   * that does not continue the digit run parse back to `n` with that sign ("12abc" is 12).
   */
  lemma ParseIntOfDecimal(ws: string, sign: string, n: nat, rest: string)
    requires AllWhitespace(ws) && OptionalSign(sign) && StopsDigits(rest)
    ensures ParseInt(ws + sign + DecimalText(n) + rest) == Some(Signed(sign, n))
  {
    ParseIntOfRun(ws, sign, DecimalText(n), rest);
    DigitsValueOfDecimalText(n);
  }

  /** Text with no decimal digit anywhere is NaN ("abc", "", "-"). */
  lemma NoDigitIsNaN(s: string)
    requires forall i :: 0 <= i < |s| ==> !IsDigit(s[i])
    ensures ParseInt(s).None?
  {
    TrimStartDropsWhitespacePrefix(s);
    var t := TrimStart(s);
    var body := DropSign(t);
    if body != [] {
      assert body[0] == s[|s| - |body|];
    }
  }

  /**
   * parseInt gives NaN exactly when, after the leading white space and one optional sign,
   * the text does not go on with a digit.
   */
  lemma NaNExactlyWithoutDigitRun(s: string)
    ensures ParseInt(s).None? <==> StopsDigits(DropSign(TrimStart(s)))
  {
  }

  /** Only one sign is taken: parseInt("+-5") is NaN. */
  lemma DoubleSignIsNaN(ws: string, rest: string)
    requires AllWhitespace(ws)
    ensures ParseInt(ws + "+-" + rest).None?
  {
    var t := ['+', '-'] + rest;
    assert ws + "+-" + rest == ws + t;
    ParseIntSkipsWhitespace(ws, t);
    assert t[0] == '+' && t[1..][0] == '-';
  }
}
