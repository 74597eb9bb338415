/** The JavaScript string built-ins the checkout page relies on: `String.prototype.trim`,
    the regular-expression class `\d` and its complement `\D`, and the conversion of an
    integral Number to its decimal text inside a template string. Strings are sequences
    of characters. */
module JsText {
  import opened Wrappers

  /** The characters `trim` removes: the WhiteSpace and LineTerminator productions of
      ECMAScript 2024, sections 12.2 and 12.3 (the Zs category spelled out). */
  predicate IsJsWhitespace(c: char) {
    c == '\t' || c == '\n' || c == '\U{B}' || c == '\U{C}' || c == '\r' || c == ' '
    || c == '\U{A0}' || c == '\U{1680}' || ('\U{2000}' <= c <= '\U{200A}')
    || c == '\U{2028}' || c == '\U{2029}' || c == '\U{202F}' || c == '\U{205F}'
    || c == '\U{3000}' || c == '\U{FEFF}'
  }

  ghost predicate AllWhitespace(s: string) {
    forall i :: 0 <= i < |s| ==> IsJsWhitespace(s[i])
  }

  /** Drops the leading white space. */
  function TrimStart(s: string): string {
    if s != [] && IsJsWhitespace(s[0]) then TrimStart(s[1..]) else s
  }

  /** Drops the trailing white space. */
  function TrimEnd(s: string): string {
    if s != [] && IsJsWhitespace(s[|s| - 1]) then TrimEnd(s[..|s| - 1]) else s
  }

  /** `s.trim()` */
  function Trim(s: string): string {
    TrimEnd(TrimStart(s))
  }

  /** `TrimStart` gives the suffix of `s` that starts at its first non-white character. */
  lemma {:induction false} TrimStartSpec(s: string)
    ensures |TrimStart(s)| <= |s| && TrimStart(s) == s[|s| - |TrimStart(s)|..]
    ensures AllWhitespace(s[..|s| - |TrimStart(s)|])
    ensures TrimStart(s) == [] || !IsJsWhitespace(TrimStart(s)[0])
  {
    if s != [] && IsJsWhitespace(s[0]) {
      TrimStartSpec(s[1..]);
      var r := TrimStart(s[1..]);
      assert s[..|s| - |r|] == [s[0]] + s[1..][..|s| - 1 - |r|];
    }
  }

  /** `TrimEnd` gives the prefix of `s` that ends at its last non-white character. */
  lemma {:induction false} TrimEndSpec(s: string)
    ensures |TrimEnd(s)| <= |s| && TrimEnd(s) == s[..|TrimEnd(s)|]
    ensures AllWhitespace(s[|TrimEnd(s)|..])
    ensures TrimEnd(s) == [] || !IsJsWhitespace(TrimEnd(s)[|TrimEnd(s)| - 1])
  {
    if s != [] && IsJsWhitespace(s[|s| - 1]) {
      TrimEndSpec(s[..|s| - 1]);
      var r := TrimEnd(s[..|s| - 1]);
      assert s[|r|..] == s[..|s| - 1][|r|..] + [s[|s| - 1]];
    }
  }

  /** `s.trim()` is the empty (falsy) string exactly when `s` is all white space. */
  lemma TrimBlankIff(s: string)
    ensures Trim(s) == [] <==> AllWhitespace(s)
  {
    TrimStartSpec(s);
    var t := TrimStart(s);
    TrimEndSpec(t);
    assert s == s[..|s| - |t|] + t;
    if t != [] {
      assert s[|s| - |t|] == t[0];
    }
  }

  /** The class `\d`: the ASCII digits only, whatever other scripts call a digit. */
  predicate IsAsciiDigit(c: char) {
    '0' <= c <= '9'
  }

  predicate AllDigits(s: string) {
    forall i :: 0 <= i < |s| ==> IsAsciiDigit(s[i])
  }

  /** `s.replace(/\D/g, '')`: every character that is not an ASCII digit is removed. */
  function DigitsOnly(s: string): (r: string)
    ensures AllDigits(r)
    ensures |r| <= |s|
  {
    if s == [] then []
    else (if IsAsciiDigit(s[0]) then [s[0]] else []) + DigitsOnly(s[1..])
  }

  /** `a` can be obtained from `b` by deleting characters, keeping the order of the rest. */
  predicate IsSubsequence(a: string, b: string) {
    if a == [] then true
    else if b == [] then false
    else if a[0] == b[0] then IsSubsequence(a[1..], b[1..])
    else IsSubsequence(a, b[1..])
  }

  lemma {:induction false} DigitsOnlyAppend(a: string, b: string)
    ensures DigitsOnly(a + b) == DigitsOnly(a) + DigitsOnly(b)
  {
    if a != [] {
      assert (a + b)[1..] == a[1..] + b;
      DigitsOnlyAppend(a[1..], b);
    } else {
      assert a + b == b;
    }
  }

  /** The filter keeps the digits in their original order ... */
  lemma {:induction false} DigitsOnlyIsSubsequence(s: string)
    ensures IsSubsequence(DigitsOnly(s), s)
  {
    if s != [] {
      DigitsOnlyIsSubsequence(s[1..]);
      var rest := DigitsOnly(s[1..]);
      if IsAsciiDigit(s[0]) {
        assert DigitsOnly(s) == [s[0]] + rest;
        assert ([s[0]] + rest)[1..] == rest;
      } else {
        assert DigitsOnly(s) == rest;
        if rest != [] {
          assert IsAsciiDigit(rest[0]);
        }
      }
    }
  }

  /** ... keeps every occurrence of every digit and drops every other character. */
  lemma {:induction false} DigitsOnlyCounts(s: string, c: char)
    ensures multiset(DigitsOnly(s))[c] == if IsAsciiDigit(c) then multiset(s)[c] else 0
  {
    if s != [] {
      DigitsOnlyCounts(s[1..], c);
      assert s == [s[0]] + s[1..];
      assert multiset(s) == multiset([s[0]]) + multiset(s[1..]);
    }
  }

  /** A string of digits passes through the filter untouched. */
  lemma {:induction false} DigitsOnlyKeepsDigitStrings(s: string)
    requires AllDigits(s)
    ensures DigitsOnly(s) == s
  {
    if s != [] {
      DigitsOnlyKeepsDigitStrings(s[1..]);
      assert s == [s[0]] + s[1..];
    }
  }

  lemma DigitsOnlyIdempotent(s: string)
    ensures DigitsOnly(DigitsOnly(s)) == DigitsOnly(s)
  {
    DigitsOnlyKeepsDigitStrings(DigitsOnly(s));
  }

  function DigitChar(d: nat): (c: char)
    requires d < 10
    ensures IsAsciiDigit(c)
  {
    ('0' as int + d) as char
  }

  function DigitValue(c: char): (d: nat)
    requires IsAsciiDigit(c)
    ensures d < 10
  {
    c as int - '0' as int
  }

  /** The decimal text of a natural number, most significant digit first. */
  function NatToDecimal(n: nat): (r: string)
    ensures |r| >= 1 && AllDigits(r)
    ensures |r| > 1 ==> r[0] != '0'
  {
    if n < 10 then [DigitChar(n)] else NatToDecimal(n / 10) + [DigitChar(n % 10)]
  }

  /** `${n}` for an integral Number `n`: an optional minus sign, then the digits. */
  function NumberToString(n: int): string {
    if n < 0 then "-" + NatToDecimal(-n) else NatToDecimal(n)
  }

  /** The value of a string of decimal digits (the empty string reads as 0). */
  function DecimalValue(s: string): nat
    requires AllDigits(s)
  {
    if s == [] then 0 else DecimalValue(s[..|s| - 1]) * 10 + DigitValue(s[|s| - 1])
  }

  /** Reads an optionally signed decimal integer; the inverse of `NumberToString`. */
  function ParseInteger(s: string): Option<int> {
    if |s| > 1 && s[0] == '-' && AllDigits(s[1..]) then Some(0 - DecimalValue(s[1..]) as int)
    else if s != [] && AllDigits(s) then Some(DecimalValue(s))
    else None
  }

  lemma {:induction false} NatToDecimalValue(n: nat)
    ensures DecimalValue(NatToDecimal(n)) == n
  {
    var r := NatToDecimal(n);
    if n >= 10 {
      NatToDecimalValue(n / 10);
      assert r[..|r| - 1] == NatToDecimal(n / 10);
    }
  }

  lemma NumberToStringRoundTrip(n: int)
    ensures ParseInteger(NumberToString(n)) == Some(n)
  {
    if n < 0 {
      var d := NatToDecimal(-n);
      assert ("-" + d)[1..] == d;
      NatToDecimalValue(-n);
    } else {
      NatToDecimalValue(n);
      var d := NatToDecimal(n);
      assert d[0] != '-';
    }
  }
}
