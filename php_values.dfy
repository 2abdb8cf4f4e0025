/** PHP's own readings of request text: `empty` and `intval` / `(int)`. */
module PhpValues {
  import opened Wrappers
  import opened Text
  import opened Numerals

  /** PHP `empty` on a string: "" and "0" are empty. */
  predicate PhpEmpty(s: string) {
    |s| == 0 || (|s| == 1 && s[0] == '0')
  }

  /** The white space `intval` skips before the number. */
  predicate IntvalSpace(c: char) {
    c == ' ' || c == '\t' || c == '\n' || c == '\r' || c == '\U{000B}' || c == '\U{000C}'
  }

  function SkipSpace(s: string): (r: string)
    ensures |r| <= |s| && r == s[|s| - |r|..]
    ensures r != [] ==> !IntvalSpace(r[0])
  {
    if s != [] && IntvalSpace(s[0]) then SkipSpace(s[1..]) else s
  }

  /** PHP `intval($s)` / `(int)$s` on a string, as PHP 7.1 and later read it:
      leading white space, then the longest numeral (an optional sign,
      digits with an optional fraction, an optional exponent), rounded toward
      zero; text that does not start with a numeral gives 0. */
  function PhpIntval(s: string): int {
    match Scan(SkipSpace(s))
    case Some((n, _)) => Truncated(n)
    case None => 0
  }

  /** Text that starts with a numeral reads as that numeral truncated. */
  lemma IntvalOfScan(s: string, n: Numeral, rest: string)
    requires s != [] && !IntvalSpace(s[0])
    requires Scan(s) == Some((n, rest))
    ensures PhpIntval(s) == Truncated(n)
  {
    assert SkipSpace(s) == s;
  }

  /** `intval` reads back the decimal text of a number and ignores what
      follows when it does not carry the numeral on. */
  lemma IntvalOfDecimalText(n: nat, tail: string)
    requires tail == [] || !NumeralChar(tail[0])
    ensures PhpIntval(DecimalText(n) + tail) == n
  {
    var d := DecimalText(n);
    ScanDigits(d, tail);
    DecimalValueOfText(n);
    DenotesDigits(d);
    IntvalOfScan(d + tail, Numeral(false, d, 0), tail);
  }

  /** The same with a minus sign in front. */
  lemma IntvalOfNegativeText(n: nat, tail: string)
    requires tail == [] || !NumeralChar(tail[0])
    ensures PhpIntval("-" + DecimalText(n) + tail) == -(n as int)
  {
    var d := DecimalText(n);
    ScanSignedText('-', n, tail);
    DecimalValueOfText(n);
    assert "-" + d + tail == ['-'] + d + tail;
    IntvalOfScan(['-'] + d + tail, Numeral(true, d, 0), tail);
  }

  /** A fraction is cut off: `(int)"7.9"` is 7. */
  lemma IntvalOfFraction(n: nat, f: string, tail: string)
    requires AllDigits(f)
    requires tail == [] || !NumeralChar(tail[0])
    ensures PhpIntval(DecimalText(n) + ("." + (f + tail))) == n
  {
    var d := DecimalText(n);
    ScanFraction(n, f, tail);
    FractionValue(d, f);
    DecimalValueOfText(n);
    IntvalOfScan(d + ("." + (f + tail)), Numeral(false, d + f, -|f|), tail);
  }

  /** An exponent scales the number: `(int)"5e2"` is 500. */
  lemma IntvalOfExponent(n: nat, k: nat, tail: string)
    requires tail == [] || !IsDigit(tail[0])
    ensures PhpIntval(DecimalText(n) + ("e" + (DecimalText(k) + tail))) == n * Pow10(k)
  {
    var d := DecimalText(n);
    ScanExponent(n, k, tail);
    DecimalValueOfText(n);
    ExponentValue(d, k);
    IntvalOfScan(d + ("e" + (DecimalText(k) + tail)), Numeral(false, d, k), tail);
  }

  /** Text that does not start (after white space) with a sign, a digit or a
      decimal point reads as 0, the value the admin endpoints treat as a
      missing id. */
  lemma IntvalOfText(s: string)
    requires SkipSpace(s) == [] || !(IsDigit(SkipSpace(s)[0]) || SkipSpace(s)[0] == '.' || SkipSpace(s)[0] == '+' || SkipSpace(s)[0] == '-')
    ensures PhpIntval(s) == 0
  {
  }
}
