/** The three .NET string operations the import relies on:
    `string.IsNullOrWhiteSpace`, `string.Equals(…, StringComparison.OrdinalIgnoreCase)`
    and the decimal rendering of an `int` inside an interpolated string. */
module Text {

  import opened Wrappers

  /** `char.IsWhiteSpace`: the Unicode space, line and paragraph separators
      plus the control characters U+0009..U+000D, U+0085. */
  predicate IsWhiteSpace(c: char)
  {
    ('\t' <= c <= '\r') || c == ' ' || c == '\U{0085}' || c == '\U{00A0}' || c == '\U{1680}'
    || ('\U{2000}' <= c <= '\U{200A}') || c == '\U{2028}' || c == '\U{2029}'
    || c == '\U{202F}' || c == '\U{205F}' || c == '\U{3000}'
  }

  /** `string.IsNullOrWhiteSpace` on a non-null string: empty or made only of white space. */
  predicate IsBlank(s: string): (blank: bool)
    // the empty description is blank
    ensures s == [] ==> blank
    // any visible ASCII character makes a description non-blank
    ensures blank ==> forall i :: 0 <= i < |s| ==> s[i] <= ' ' || s[i] > '\U{007E}'
  {
    forall i :: 0 <= i < |s| ==> IsWhiteSpace(s[i])
  }

  /** Upper-case mapping of the ASCII letters; every other character maps to itself. */
  function UpperAscii(c: char): (u: char)
    ensures 'a' <= c <= 'z' ==> u as int == c as int - 32
    ensures !('a' <= c <= 'z') ==> u == c
  {
    if 'a' <= c <= 'z' then (c as int - 32) as char else c
  }

  /** Ordinal comparison ignoring case: equal length and equal characters
      after upper-casing. */
  predicate EqualsIgnoreCase(a: string, b: string)
  {
    |a| == |b| && forall i :: 0 <= i < |a| ==> UpperAscii(a[i]) == UpperAscii(b[i])
  }

  predicate IsDigit(c: char)
  {
    '0' <= c <= '9'
  }

  predicate AllDigits(s: string)
  {
    forall i :: 0 <= i < |s| ==> IsDigit(s[i])
  }

  /** Decimal digits of `n`, most significant first, without leading zeros. */
  function NatToString(n: nat): (s: string)
    ensures 1 <= |s| && AllDigits(s)
    ensures |s| > 1 ==> s[0] != '0'
    decreases n
  {
    if n < 10 then [DigitChar(n)] else NatToString(n / 10) + [DigitChar(n % 10)]
  }

  /** Decimal rendering of an `int` with an ASCII '-' for negatives, as the
      invariant culture formats it. */
  function IntToString(n: int): (s: string)
    ensures 1 <= |s| && forall i :: 0 <= i < |s| ==> s[i] == '-' || IsDigit(s[i])
  {
    if n < 0 then "-" + NatToString(-n) else NatToString(n)
  }

  /** Value of a digit string; the partner of `NatToString`. */
  function DigitsValue(s: string): nat
    requires AllDigits(s)
  {
    if s == [] then 0
    else DigitsValue(s[..|s| - 1]) * 10 + DigitValue(s[|s| - 1])
  }

  /** The character of a decimal digit. */
  function DigitChar(d: nat): (c: char)
    requires d < 10
    ensures IsDigit(c) && DigitValue(c) == d
  {
    ('0' as int + d) as char
  }

  /** The value of a digit character; inverse of `DigitChar`. */
  function DigitValue(c: char): (d: nat)
    requires IsDigit(c)
    ensures d < 10
  {
    c as int - '0' as int
  }

  /** Parses what `IntToString` produces; `None` for anything else that is not
      an optionally signed, non-empty digit string. */
  function ParseInt(s: string): Option<int>
  {
    if |s| > 1 && s[0] == '-' && AllDigits(s[1..]) then Some(-(DigitsValue(s[1..]) as int))
    else if |s| > 0 && AllDigits(s) then Some(DigitsValue(s))
    else None
  }

  lemma {:induction false} NatToStringRoundTrip(n: nat)
    ensures DigitsValue(NatToString(n)) == n
    decreases n
  {
    if n >= 10 {
      NatToStringRoundTrip(n / 10);
      var s := NatToString(n);
      assert s == NatToString(n / 10) + [DigitChar(n % 10)];
      assert s[..|s| - 1] == NatToString(n / 10);
    }
  }

  /** The rendering of a status code loses nothing: it parses back to the code. */
  lemma IntToStringRoundTrip(n: int)
    ensures ParseInt(IntToString(n)) == Some(n)
  {
    if n < 0 {
      NegativeRoundTrip(n);
    } else {
      var digits := NatToString(n);
      NatToStringRoundTrip(n);
      assert !IsDigit('-');
      assert IntToString(n) == digits && digits[0] != '-';
    }
  }

  lemma NegativeRoundTrip(n: int)
    requires n < 0
    ensures ParseInt(IntToString(n)) == Some(n)
  {
    var digits := NatToString(-n);
    NatToStringRoundTrip(-n);
    ParseSigned(digits);
    assert IntToString(n) == "-" + digits;
  }

  /** A '-' followed by digits parses to the negated value of the digits. */
  lemma ParseSigned(digits: string)
    requires |digits| > 0 && AllDigits(digits)
    ensures ParseInt("-" + digits) == Some(-(DigitsValue(digits) as int))
  {
    var s := "-" + digits;
    assert s[1..] == digits;
  }

  /** Different codes render differently. */
  lemma IntToStringInjective(m: int, n: int)
    requires IntToString(m) == IntToString(n)
    ensures m == n
  {
    IntToStringRoundTrip(m);
    IntToStringRoundTrip(n);
  }
}
