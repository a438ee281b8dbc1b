/** The parts of PHP's value semantics that MagickLite's behaviour depends on:
    truthiness, the character classes of the PCRE patterns it uses, and the
    conversions between decimal digit strings and integers. */
module Php {
  import opened Common

  /** A PHP scalar as the class receives it from its callers. */
  datatype Value = Null | Bool(b: bool) | Int(i: int) | Str(s: string)

  /** PHP's conversion of a string to boolean: only "" and "0" are false. */
  predicate StrTruthy(s: string) {
    s != "" && s != "0"
  }

  /** PHP's conversion of a scalar to boolean. */
  predicate Truthy(v: Value) {
    match v
    case Null => false
    case Bool(b) => b
    case Int(i) => i != 0
    case Str(s) => StrTruthy(s)
  }

  /** Truthiness of a variable that holds either null or a string. */
  predicate OptTruthy(o: Option<string>)
  {
    o.Some? && StrTruthy(o.value)
  }

  /** PCRE `\d` (ASCII digits; the patterns carry no `u` modifier). */
  predicate IsDigit(c: char) {
    '0' <= c <= '9'
  }

  predicate AllDigits(s: string) {
    forall i :: 0 <= i < |s| ==> IsDigit(s[i])
  }

  /** PCRE `\w`, which decides where `\b` holds. */
  predicate IsWordChar(c: char) {
    'a' <= c <= 'z' || 'A' <= c <= 'Z' || IsDigit(c) || c == '_'
  }

  /** PCRE2 `\s`: space, tab, newline, vertical tab, form feed, carriage return. */
  predicate IsSpace(c: char) {
    c == ' ' || '\t' <= c <= '\r'
  }

  predicate AllSpace(s: string) {
    forall i :: 0 <= i < |s| ==> IsSpace(s[i])
  }

  /** The longest prefix of `s` made of digits: what a greedy `\d+` or `\d*` takes. */
  function DigitPrefix(s: string): (p: string)
    ensures p <= s && AllDigits(p)
    ensures |p| < |s| ==> !IsDigit(s[|p|])
  {
    if s != [] && IsDigit(s[0]) then [s[0]] + DigitPrefix(s[1..]) else []
  }

  /** A digit run stops at the first character that is not a digit. */
  lemma DigitPrefixOf(p: string, s: string)
    requires AllDigits(p)
    requires s == [] || !IsDigit(s[0])
    ensures DigitPrefix(p + s) == p
  {
    if p != [] {
      assert (p + s)[1..] == p[1..] + s;
      DigitPrefixOf(p[1..], s);
    }
  }

  function DigitValue(c: char): nat
    requires IsDigit(c)
  {
    c as int - '0' as int
  }

  function DigitChar(d: nat): (c: char)
    requires d < 10
    ensures IsDigit(c) && DigitValue(c) == d
  {
    ('0' as int + d) as char
  }

  /** PHP's `intval` of a string of decimal digits (leading zeros allowed). */
  function DecimalValue(ds: string): nat
    requires AllDigits(ds)
  {
    if ds == [] then 0 else 10 * DecimalValue(ds[..|ds| - 1]) + DigitValue(ds[|ds| - 1])
  }

  function Pow10(n: nat): nat {
    if n == 0 then 1 else 10 * Pow10(n - 1)
  }

  /** A string of n digits denotes a number below 10^n. */
  lemma {:induction false} DecimalValueBelow(ds: string)
    requires AllDigits(ds)
    ensures DecimalValue(ds) < Pow10(|ds|)
  {
    if ds != [] {
      DecimalValueBelow(ds[..|ds| - 1]);
    }
  }

  /** PHP's conversion of a non-negative integer to its decimal text. */
  function NatToString(n: nat): (s: string)
    ensures |s| > 0 && AllDigits(s) && DecimalValue(s) == n
  {
    if n < 10 then [DigitChar(n)]
    else
      var s := NatToString(n / 10) + [DigitChar(n % 10)];
      assert s[..|s| - 1] == NatToString(n / 10);
      s
  }

  /** PHP's conversion of an integer to its decimal text, as string interpolation does it. */
  function IntToString(i: int): (s: string)
    ensures |s| > 0
  {
    if i < 0 then "-" + NatToString(-i) else NatToString(i)
  }
}
