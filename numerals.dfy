/** Decimal numerals at the front of a text, the way MySQL reads text it
    compares with a number and PHP reads text it converts to an integer: an
    optional sign, digits with at most one decimal point, and an optional
    exponent. */
module Numerals {
  import opened Wrappers
  import opened Text

  // ------------------------------------------------------------- digits

  function DigitValue(c: char): nat
    requires IsDigit(c)
  {
    c as int - '0' as int
  }

  predicate AllDigits(s: string) {
    forall k :: 0 <= k < |s| ==> IsDigit(s[k])
  }

  /** The decimal value of a digit string. */
  function DecimalValue(s: string): nat
    requires AllDigits(s)
  {
    if s == [] then 0 else DecimalValue(s[..|s| - 1]) * 10 + DigitValue(s[|s| - 1])
  }

  /** The decimal text of a number, without leading zeros. */
  function DecimalText(n: nat): (s: string)
    ensures s != [] && AllDigits(s)
    ensures s[0] == '0' ==> n == 0
  {
    if n < 10 then [('0' as int + n) as char] else DecimalText(n / 10) + [('0' as int + n % 10) as char]
  }

  /** Reading the decimal text of a number gives the number back. */
  lemma {:induction false} DecimalValueOfText(n: nat)
    ensures DecimalValue(DecimalText(n)) == n
  {
    var s := DecimalText(n);
    if n >= 10 {
      DecimalValueOfText(n / 10);
      assert s[..|s| - 1] == DecimalText(n / 10);
      assert DigitValue(s[|s| - 1]) == n % 10;
    } else {
      assert s[..|s| - 1] == [];
    }
  }

  /** A leading zero adds nothing to the value. */
  lemma {:induction false} DecimalValueOfLeadingZero(s: string)
    requires AllDigits(s)
    ensures DecimalValue("0" + s) == DecimalValue(s)
  {
    if s != [] {
      var z := "0" + s;
      assert z[..|z| - 1] == "0" + s[..|s| - 1];
      DecimalValueOfLeadingZero(s[..|s| - 1]);
    } else {
      assert ("0" + s)[..0] == [];
    }
  }

  /** Digits appended after a number scale it by a power of ten. */
  lemma {:induction false} DecimalValueOfAppend(s: string, t: string)
    requires AllDigits(s) && AllDigits(t)
    ensures AllDigits(s + t)
    ensures DecimalValue(s + t) == DecimalValue(s) * Pow10(|t|) + DecimalValue(t)
  {
    if t == [] {
      assert s + t == s;
    } else {
      var u := s + t;
      var t' := t[..|t| - 1];
      assert u[..|u| - 1] == s + t';
      assert u[|u| - 1] == t[|t| - 1];
      DecimalValueOfAppend(s, t');
      var d := DigitValue(t[|t| - 1]);
      assert DecimalValue(u) == DecimalValue(s + t') * 10 + d;
      assert DecimalValue(t) == DecimalValue(t') * 10 + d;
      assert Pow10(|t|) == Pow10(|t'|) * 10;
      ShiftDigit(DecimalValue(u), DecimalValue(t), DecimalValue(s + t'), DecimalValue(s), Pow10(|t'|), DecimalValue(t'), d, Pow10(|t|));
    }
  }

  lemma ShiftDigit(x: int, y: int, m: int, a: int, p: int, b: int, d: int, q: int)
    requires x == m * 10 + d && m == a * p + b && y == b * 10 + d && q == p * 10
    ensures x == a * q + y
  {
  }

  /** Digits read below the power of ten of their length. */
  lemma {:induction false} DecimalValueBelow(t: string)
    requires AllDigits(t)
    ensures DecimalValue(t) < Pow10(|t|)
  {
    if t != [] {
      var t' := t[..|t| - 1];
      DecimalValueBelow(t');
      assert DecimalValue(t) == DecimalValue(t') * 10 + DigitValue(t[|t| - 1]);
      assert DecimalValue(t') + 1 <= Pow10(|t'|);
      assert (DecimalValue(t') + 1) * 10 <= Pow10(|t'|) * 10;
    }
  }

  predicate AllZeros(t: string) {
    forall k :: 0 <= k < |t| ==> t[k] == '0'
  }

  /** Digits read as 0 exactly when they are all zeros. */
  lemma {:induction false} DecimalValueZero(t: string)
    requires AllDigits(t)
    ensures DecimalValue(t) == 0 <==> AllZeros(t)
  {
    if t != [] {
      var t' := t[..|t| - 1];
      DecimalValueZero(t');
      assert DecimalValue(t) == DecimalValue(t') * 10 + DigitValue(t[|t| - 1]);
      if AllZeros(t) {
        assert AllZeros(t');
      } else if AllZeros(t') {
        assert t[|t| - 1] != '0';
      }
    }
  }

  /** The longest run of digits at the front of `s`. */
  function DigitPrefix(s: string): (r: string)
    ensures AllDigits(r) && StartsWith(s, r)
    ensures |r| < |s| ==> !IsDigit(s[|r|])
  {
    if s != [] && IsDigit(s[0]) then
      var rest := DigitPrefix(s[1..]);
      assert s[..1 + |rest|] == [s[0]] + rest;
      [s[0]] + rest
    else []
  }

  lemma {:induction false} DigitPrefixOfDigits(s: string, tail: string)
    requires AllDigits(s)
    requires tail == [] || !IsDigit(tail[0])
    ensures DigitPrefix(s + tail) == s
  {
    if s == [] {
      assert s + tail == tail;
    } else {
      assert (s + tail)[0] == s[0];
      assert (s + tail)[1..] == s[1..] + tail;
      DigitPrefixOfDigits(s[1..], tail);
      assert s == [s[0]] + s[1..];
    }
  }

  function Pow10(k: nat): (r: nat)
    ensures r >= 1
  {
    if k == 0 then 1 else 10 * Pow10(k - 1)
  }

  // ----------------------------------------------------------- numerals

  /** A numeral: its sign, its digits with the decimal point left out, and
      the power of ten that scales them, so `-12.5e1` is
      `Numeral(true, "125", 0)`. */
  datatype Numeral = Numeral(negative: bool, digits: string, scale: int)

  /** A character that would carry a numeral on: a digit, the decimal point
      or the start of an exponent. */
  predicate NumeralChar(c: char) {
    IsDigit(c) || c == '.' || c == 'e' || c == 'E'
  }

  /** The exponent at the front of `s` and the text after it: `e` or `E`, an
      optional sign, and at least one digit; anything else is no exponent. */
  function Exponent(s: string): (r: (int, string))
    ensures r.1 == s ==> r.0 == 0
    ensures r.1 != s ==> s != [] && (s[0] == 'e' || s[0] == 'E')
  {
    if s != [] && (s[0] == 'e' || s[0] == 'E') then
      var g := s[1..];
      var negative := g != [] && g[0] == '-';
      var h := if g != [] && (g[0] == '-' || g[0] == '+') then g[1..] else g;
      var x := DigitPrefix(h);
      if x == [] then (0, s)
      else (if negative then -(DecimalValue(x) as int) else DecimalValue(x), h[|x|..])
    else (0, s)
  }

  /** The digits and the text after a decimal point at the front of `b`, if
      there is one. */
  function Fraction(b: string): (r: (string, string))
    ensures AllDigits(r.0)
    ensures r.0 != [] ==> b != [] && b[0] == '.'
  {
    if b != [] && b[0] == '.' then
      var f := DigitPrefix(b[1..]);
      (f, b[1 + |f|..])
    else ([], b)
  }

  /** The longest numeral at the front of `s` and the text after it: an
      optional sign, digits, optionally a point and more digits, with at
      least one digit in all, then an optional exponent. None when `s` does
      not start with a numeral. */
  function Scan(s: string): (r: Option<(Numeral, string)>)
    ensures r.Some? ==> AllDigits(r.value.0.digits) && r.value.0.digits != []
    ensures s == [] || !(IsDigit(s[0]) || s[0] == '.' || s[0] == '+' || s[0] == '-') ==> r.None?
  {
    ScanMagnitude(s != [] && s[0] == '-', if s != [] && (s[0] == '-' || s[0] == '+') then s[1..] else s)
  }

  /** The numeral after its sign: digits, a fraction and an exponent. */
  function ScanMagnitude(negative: bool, a: string): (r: Option<(Numeral, string)>)
    ensures r.Some? ==> AllDigits(r.value.0.digits) && r.value.0.digits != []
    ensures a == [] || !(IsDigit(a[0]) || a[0] == '.') ==> r.None?
  {
    var w := DigitPrefix(a);
    var (f, c) := Fraction(a[|w|..]);
    if w == [] && f == [] then None
    else
      var (e, rest) := Exponent(c);
      Some((Numeral(negative, w + f, e - |f|), rest))
  }

  /** The numeral after the sign, read off its parts. */
  lemma ScanMagnitudeParts(negative: bool, a: string, w: string, b: string, f: string, c: string, e: int, rest: string)
    requires a == w + b && DigitPrefix(a) == w
    requires Fraction(b) == (f, c) && Exponent(c) == (e, rest)
    requires w != []
    ensures ScanMagnitude(negative, a) == Some((Numeral(negative, w + f, e - |f|), rest))
  {
    assert a[|w|..] == b;
  }

  /** The magnitude of `n`'s digits, with its sign. */
  function Signed(n: Numeral): int
    requires AllDigits(n.digits)
  {
    if n.negative then -(DecimalValue(n.digits) as int) else DecimalValue(n.digits)
  }

  /** `n` is exactly the whole number `v`. */
  predicate Denotes(n: Numeral, v: int)
    requires AllDigits(n.digits)
  {
    if n.scale >= 0 then v == Signed(n) * Pow10(n.scale) else v * Pow10(-n.scale) == Signed(n)
  }

  /** The digits left above the point when a negative scale moves it left. */
  function Kept(d: string, k: nat): (r: string)
    ensures |r| <= |d| && r == d[..|r|]
  {
    if |d| <= k then [] else d[..|d| - k]
  }

  /** The value of `n` rounded toward zero, as a C cast from a double does:
      for a negative scale, the digits below the point are dropped. */
  function Truncated(n: Numeral): (r: int)
    requires AllDigits(n.digits)
    ensures n.negative ==> r <= 0
    ensures !n.negative ==> r >= 0
  {
    var v := if n.scale >= 0 then DecimalValue(n.digits) * Pow10(n.scale)
             else DecimalValue(Kept(n.digits, -n.scale));
    if n.negative then -v else v
  }

  /** Truncation is exact for a scale of zero or more; for a negative scale
      it is the largest multiple of the scale's power of ten below the digits,
      in magnitude, with the numeral's sign. */
  lemma TruncatedRoundsTowardZero(n: Numeral)
    requires AllDigits(n.digits)
    ensures n.scale >= 0 ==> Denotes(n, Truncated(n))
    ensures n.scale < 0 ==> var a := if n.negative then -Truncated(n) else Truncated(n);
      a * Pow10(-n.scale) <= DecimalValue(n.digits) < (a + 1) * Pow10(-n.scale)
  {
    var m := DecimalValue(n.digits);
    if n.scale >= 0 {
      NegateProduct(m, Pow10(n.scale));
    } else {
      var k := -n.scale;
      Decompose(n.digits, k);
      var a := DecimalValue(Kept(n.digits, k));
      assert a == if n.negative then -Truncated(n) else Truncated(n);
      NextMultiple(a, Pow10(k));
    }
  }

  /** The value of `n` when it is a whole number: when every digit below the
      point is a zero. */
  function WholeValue(n: Numeral): (r: Option<int>)
    requires AllDigits(n.digits)
    ensures r.Some? ==> r.value == Truncated(n)
  {
    if n.scale >= 0 || AllZeros(n.digits[|Kept(n.digits, -n.scale)|..]) then Some(Truncated(n))
    else None
  }

  /** A whole value is one the numeral denotes exactly. */
  lemma WholeValueDenotes(n: Numeral)
    requires AllDigits(n.digits)
    ensures WholeValue(n).Some? ==> Denotes(n, WholeValue(n).value)
  {
    TruncatedRoundsTowardZero(n);
    if n.scale < 0 && WholeValue(n).Some? {
      var k := -n.scale;
      var a := Kept(n.digits, k);
      var d := n.digits[|a|..];
      Decompose(n.digits, k);
      DecimalValueZero(d);
      var p, q := Pow10(k), DecimalValue(a);
      assert DecimalValue(n.digits) == q * p;
      NegateProduct(q, p);
    }
  }

  /** When there is no whole value, the numeral denotes no whole number. */
  lemma NoWholeValue(n: Numeral, v: int)
    requires AllDigits(n.digits)
    requires WholeValue(n).None?
    ensures !Denotes(n, v)
  {
    var k := -n.scale;
    var a := Kept(n.digits, k);
    var d := n.digits[|a|..];
    Decompose(n.digits, k);
    DecimalValueZero(d);
    var p := Pow10(k);
    if Denotes(n, v) {
      assert v * p == Signed(n);
      if n.negative {
        NegateProduct(v, p);
        NotMultiple(-v, DecimalValue(a), DecimalValue(d), p);
      } else {
        NotMultiple(v, DecimalValue(a), DecimalValue(d), p);
      }
    }
  }

  lemma NegateProduct(a: int, p: int)
    ensures (-a) * p == -(a * p)
  {
  }

  lemma NextMultiple(a: int, p: int)
    ensures (a + 1) * p == a * p + p
  {
  }

  lemma Pow10Monotone(i: nat, j: nat)
    requires i <= j
    ensures Pow10(i) <= Pow10(j)
  {
  }

  /** Digits split at the point: the kept part scaled up, plus the dropped
      part, which lies below the scale. */
  lemma Decompose(d: string, k: nat)
    requires AllDigits(d)
    ensures var t := d[|Kept(d, k)|..];
      AllDigits(t)
      && DecimalValue(d) == DecimalValue(Kept(d, k)) * Pow10(k) + DecimalValue(t)
      && DecimalValue(t) < Pow10(k)
  {
    var a := Kept(d, k);
    var t := d[|a|..];
    assert d == a + t;
    DecimalValueOfAppend(a, t);
    DecimalValueBelow(t);
    if |d| <= k {
      assert a == [] && t == d;
      Pow10Monotone(|d|, k);
    } else {
      assert |t| == k;
    }
  }

  /** A number strictly between two multiples of `p` is not a multiple. */
  lemma NotMultiple(u: int, a: int, d: int, p: int)
    requires p > 0 && 0 < d < p
    ensures u * p != a * p + d
  {
    SubtractProducts(u, a, p);
    if u - a >= 1 {
      ProductAtLeast(u - a, p);
    } else {
      ProductNotPositive(u - a, p);
    }
  }

  lemma SubtractProducts(u: int, a: int, p: int)
    ensures u * p - a * p == (u - a) * p
  {
  }

  lemma {:induction false} ProductAtLeast(x: int, p: int)
    requires x >= 1 && p > 0
    ensures x * p >= p
    decreases x
  {
    if x > 1 {
      ProductAtLeast(x - 1, p);
      NextMultiple(x - 1, p);
    }
  }

  lemma {:induction false} ProductNotPositive(x: int, p: int)
    requires x <= 0 && p > 0
    ensures x * p <= 0
    decreases -x
  {
    if x < 0 {
      ProductNotPositive(x + 1, p);
      NextMultiple(x, p);
    }
  }

  // ------------------------------------------------- numerals of numbers

  /** A run of digits, followed by text that does not carry the numeral on,
      scans as those digits with nothing scaled. */
  lemma ScanDigits(d: string, tail: string)
    requires d != [] && AllDigits(d)
    requires tail == [] || !NumeralChar(tail[0])
    ensures Scan(d + tail) == Some((Numeral(false, d, 0), tail))
  {
    var s := d + tail;
    DigitPrefixOfDigits(d, tail);
    assert s[0] == d[0];
    assert s[|d|..] == tail;
    assert Fraction(tail) == ([], tail);
    assert Exponent(tail) == (0, tail);
    assert d + [] == d;
  }

  /** The same after a sign. */
  lemma ScanSignedText(sign: char, n: nat, tail: string)
    requires sign == '-' || sign == '+'
    requires tail == [] || !NumeralChar(tail[0])
    ensures Scan([sign] + DecimalText(n) + tail) == Some((Numeral(sign == '-', DecimalText(n), 0), tail))
  {
    var d := DecimalText(n);
    var a := d + tail;
    assert [sign] + d + tail == [sign] + a;
    DigitPrefixOfDigits(d, tail);
    NoFraction(tail);
    NoExponent(tail);
    ScanSigned([sign] + a, sign, a, d, tail, [], tail, 0, tail);
    var r := Scan([sign] + a);
    assert d + [] == d;
    assert r == Some((Numeral(sign == '-', d, 0), tail));
  }

  /** Scan, read off its parts, when the text starts with a sign. */
  lemma ScanSigned(s: string, sign: char, a: string, w: string, b: string, f: string, c: string, e: int, rest: string)
    requires sign == '-' || sign == '+'
    requires s == [sign] + a && a == w + b && DigitPrefix(a) == w
    requires Fraction(b) == (f, c) && Exponent(c) == (e, rest)
    requires w != []
    ensures Scan(s) == Some((Numeral(sign == '-', w + f, e - |f|), rest))
  {
    assert s[0] == sign;
    assert s[1..] == a;
    ScanMagnitudeParts(sign == '-', a, w, b, f, c, e, rest);
  }

  /** Text that does not start with a point has no fraction. */
  lemma NoFraction(b: string)
    requires b == [] || b[0] != '.'
    ensures Fraction(b) == ([], b)
  {
  }

  /** Scan, read off its parts, when the text has no sign. */
  lemma ScanUnsigned(s: string, w: string, b: string, f: string, c: string, e: int, rest: string)
    requires s == w + b && DigitPrefix(s) == w
    requires Fraction(b) == (f, c) && Exponent(c) == (e, rest)
    requires w != []
    ensures Scan(s) == Some((Numeral(false, w + f, e - |f|), rest))
  {
    assert s[0] == w[0];
    ScanMagnitudeParts(false, s, w, b, f, c, e, rest);
  }

  lemma FractionOfDigits(f: string, tail: string)
    requires AllDigits(f)
    requires tail == [] || !IsDigit(tail[0])
    ensures Fraction("." + (f + tail)) == (f, tail)
  {
    var b := "." + (f + tail);
    assert b[1..] == f + tail;
    DigitPrefixOfDigits(f, tail);
    assert b[1 + |f|..] == tail;
  }

  lemma NoExponent(tail: string)
    requires tail == [] || !NumeralChar(tail[0])
    ensures Exponent(tail) == (0, tail)
  {
  }

  /** A number with a fraction: the digits after the point join the digits
      of the number and scale them down. */
  lemma ScanFraction(n: nat, f: string, tail: string)
    requires AllDigits(f)
    requires tail == [] || !NumeralChar(tail[0])
    ensures Scan(DecimalText(n) + ("." + (f + tail))) == Some((Numeral(false, DecimalText(n) + f, -|f|), tail))
  {
    var d := DecimalText(n);
    var b := "." + (f + tail);
    DigitPrefixOfDigits(d, b);
    FractionOfDigits(f, tail);
    NoExponent(tail);
    ScanUnsigned(d + b, d, b, f, tail, 0, tail);
    var r := Scan(d + b);
    assert r == Some((Numeral(false, d + f, 0 - |f|), tail));
  }

  lemma ExponentOfDigits(k: nat, tail: string)
    requires tail == [] || !IsDigit(tail[0])
    ensures Exponent("e" + (DecimalText(k) + tail)) == (k, tail)
  {
    var x := DecimalText(k);
    var c := "e" + (x + tail);
    assert c[1..] == x + tail;
    assert (x + tail)[0] == x[0];
    DigitPrefixOfDigits(x, tail);
    assert (x + tail)[|x|..] == tail;
    DecimalValueOfText(k);
  }

  /** A number with an exponent: the exponent is the scale. */
  lemma ScanExponent(n: nat, k: nat, tail: string)
    requires tail == [] || !IsDigit(tail[0])
    ensures Scan(DecimalText(n) + ("e" + (DecimalText(k) + tail))) == Some((Numeral(false, DecimalText(n), k), tail))
  {
    var d := DecimalText(n);
    var c := "e" + (DecimalText(k) + tail);
    DigitPrefixOfDigits(d, c);
    NoFraction(c);
    ExponentOfDigits(k, tail);
    ScanUnsigned(d + c, d, c, [], c, k, tail);
    var r := Scan(d + c);
    assert d + [] == d;
    assert r == Some((Numeral(false, d, k), tail));
  }

  /** Digits with nothing scaled denote their own value. */
  lemma DenotesDigits(d: string)
    requires AllDigits(d)
    ensures Denotes(Numeral(false, d, 0), DecimalValue(d))
    ensures Truncated(Numeral(false, d, 0)) == DecimalValue(d)
    ensures WholeValue(Numeral(false, d, 0)) == Some(DecimalValue(d) as int)
  {
  }

  /** Digits after the point are cut off by truncation, and leave a whole
      value exactly when they are all zeros. */
  lemma FractionValue(d: string, f: string)
    requires d != [] && AllDigits(d) && AllDigits(f)
    ensures AllDigits(d + f)
    ensures Truncated(Numeral(false, d + f, -|f|)) == DecimalValue(d)
    ensures WholeValue(Numeral(false, d + f, -|f|)) == if AllZeros(f) then Some(DecimalValue(d) as int) else None
  {
    assert AllDigits(d + f);
    if f == [] {
      assert d + f == d;
    } else {
      var k := Kept(d + f, |f|);
      assert k == d;
      assert (d + f)[|k|..] == f;
    }
  }

  /** An exponent of zero or more scales the digits up exactly. */
  lemma ExponentValue(d: string, k: nat)
    requires AllDigits(d)
    ensures Truncated(Numeral(false, d, k)) == DecimalValue(d) * Pow10(k)
    ensures WholeValue(Numeral(false, d, k)) == Some(DecimalValue(d) * Pow10(k))
    ensures Denotes(Numeral(false, d, k), DecimalValue(d) * Pow10(k))
  {
  }

  /** A numeral denotes at most one whole number. */
  lemma DenotesUnique(n: Numeral, v: int, w: int)
    requires AllDigits(n.digits)
    requires Denotes(n, v) && Denotes(n, w)
    ensures v == w
  {
    if n.scale < 0 {
      var p := Pow10(-n.scale);
      SubtractProducts(v, w, p);
      if v - w >= 1 {
        ProductAtLeast(v - w, p);
      } else if v - w <= -1 {
        ProductAtLeast(w - v, p);
        SubtractProducts(w, v, p);
      }
    }
  }
}
