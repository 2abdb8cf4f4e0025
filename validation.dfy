/** The request validators shared by the Express, Next.js and PHP backends:
    the email pattern `^[^\s@]+@[^\s@]+\.[^\s@]+$`, the phone pattern
    `^\+?[\d\s-]{10,}$` and the eight-character password rule. */
module Validation {
  import opened Text

  // ---------------------------------------------------------------- email

  /** A character of `[^\s@]`. */
  predicate EmailAtomChar(c: char) {
    !JsWhitespace(c) && c != '@'
  }

  /** A match of `[^\s@]+`. */
  predicate EmailAtom(s: string) {
    |s| > 0 && forall k :: 0 <= k < |s| ==> EmailAtomChar(s[k])
  }

  /** The regular expression read literally: the string is an atom, '@', an
      atom, '.', an atom, for some choice of the '@' at `i` and the '.' at `j`. */
  ghost predicate MatchesEmailPattern(s: string) {
    exists i, j :: 0 < i < j < |s| && s[i] == '@' && s[j] == '.'
      && EmailAtom(s[..i]) && EmailAtom(s[i + 1..j]) && EmailAtom(s[j + 1..])
  }

  predicate NoWhitespace(s: string) {
    forall k :: 0 <= k < |s| ==> !JsWhitespace(s[k])
  }

  /** The domain has a '.' that is neither its first nor its last character. */
  predicate HasInnerDot(d: string) {
    exists j :: 0 < j < |d| - 1 && d[j] == '.'
  }

  /** The same language described without backtracking: no white space,
      exactly one '@' with something before it, and a domain with an inner '.'. */
  predicate ValidEmail(s: string) {
    var at := IndexOf(s, '@');
    NoWhitespace(s) && 0 < at < |s| && '@' !in s[at + 1..] && HasInnerDot(s[at + 1..])
  }

  /** The direct description accepts exactly the strings the pattern matches. */
  lemma ValidEmailIffPattern(s: string)
    ensures ValidEmail(s) <==> MatchesEmailPattern(s)
  {
    if ValidEmail(s) {
      ValidEmailMatches(s);
    }
    if MatchesEmailPattern(s) {
      var i, j :| 0 < i < j < |s| && s[i] == '@' && s[j] == '.'
        && EmailAtom(s[..i]) && EmailAtom(s[i + 1..j]) && EmailAtom(s[j + 1..]);
      PatternIsValid(s, i, j);
    }
  }

  lemma ValidEmailMatches(s: string)
    requires ValidEmail(s)
    ensures MatchesEmailPattern(s)
  {
    var i := IndexOf(s, '@');
    var d := s[i + 1..];
    var jd :| 0 < jd < |d| - 1 && d[jd] == '.';
    var j := i + 1 + jd;
    assert s[j] == '.';
    forall k | 0 <= k < |s| && k != i
      ensures EmailAtomChar(s[k])
    {
      if k > i {
        assert s[k] == d[k - i - 1];
      }
    }
    assert EmailAtom(s[..i]);
    assert EmailAtom(s[i + 1..j]);
    assert EmailAtom(s[j + 1..]);
  }

  lemma PatternIsValid(s: string, i: int, j: int)
    requires 0 < i < j < |s| && s[i] == '@' && s[j] == '.'
    requires EmailAtom(s[..i]) && EmailAtom(s[i + 1..j]) && EmailAtom(s[j + 1..])
    ensures ValidEmail(s)
  {
    forall k | 0 <= k < |s| && k != i && k != j
      ensures EmailAtomChar(s[k])
    {
      if k < i {
        assert s[k] == s[..i][k];
      } else if k < j {
        assert s[k] == s[i + 1..j][k - i - 1];
      } else {
        assert s[k] == s[j + 1..][k - j - 1];
      }
    }
    FirstOccurrence(s, '@', i);
    var d := s[i + 1..];
    assert d[j - i - 1] == '.';
    assert HasInnerDot(d);
    forall k | 0 <= k < |d| ensures d[k] != '@' {
      assert d[k] == s[i + 1 + k];
    }
    assert NoWhitespace(s);
  }

  /** A position before which `d` does not occur is the first occurrence. */
  lemma FirstOccurrence(s: string, d: char, i: nat)
    requires i < |s| && s[i] == d
    requires forall k :: 0 <= k < i ==> s[k] != d
    ensures IndexOf(s, d) == i
  {
  }

  // ---------------------------------------------------------------- phone

  /** A character of `[\d\s-]`. `unicode` selects JavaScript's `\s`; without it
      PCRE's ASCII `\s` applies, as in PHP's `preg_match`. */
  predicate PhoneChar(c: char, unicode: bool) {
    IsDigit(c) || c == '-' || (if unicode then JsWhitespace(c) else PcreWhitespace(c))
  }

  /** A match of `[\d\s-]{10,}`. */
  predicate PhoneBody(t: string, unicode: bool) {
    |t| >= 10 && forall k :: 0 <= k < |t| ==> PhoneChar(t[k], unicode)
  }

  /** A match of `\+?`. */
  predicate OptionalPlus(p: string) {
    p == "" || p == "+"
  }

  /** The phone pattern read literally: some split into `\+?` and the body. */
  ghost predicate MatchesPhonePattern(s: string, unicode: bool) {
    exists k :: 0 <= k <= |s| && OptionalPlus(s[..k]) && PhoneBody(s[k..], unicode)
  }

  /** The same language without the choice: a leading '+' is always the
      optional one, since '+' is not in the body's class. */
  predicate ValidPhone(s: string, unicode: bool) {
    if |s| > 0 && s[0] == '+' then PhoneBody(s[1..], unicode) else PhoneBody(s, unicode)
  }

  lemma ValidPhoneIffPattern(s: string, unicode: bool)
    ensures ValidPhone(s, unicode) <==> MatchesPhonePattern(s, unicode)
  {
    if ValidPhone(s, unicode) {
      if |s| > 0 && s[0] == '+' {
        assert s[..1] == "+";
        assert OptionalPlus(s[..1]) && PhoneBody(s[1..], unicode);
      } else {
        assert s[..0] == "" && s[0..] == s;
        assert OptionalPlus(s[..0]) && PhoneBody(s[0..], unicode);
      }
    }
    if MatchesPhonePattern(s, unicode) {
      var k :| 0 <= k <= |s| && OptionalPlus(s[..k]) && PhoneBody(s[k..], unicode);
      if k == 0 {
        assert s[0..] == s;
        assert s[0] == s[0..][0];
      } else {
        assert |s[..k]| == 1 && s[..k][0] == s[0];
      }
    }
  }

  /** Every phone PHP accepts is accepted by the JavaScript backends. */
  lemma PcrePhoneImpliesJsPhone(s: string)
    requires ValidPhone(s, false)
    ensures ValidPhone(s, true)
  {
    var t := if |s| > 0 && s[0] == '+' then s[1..] else s;
    assert forall k :: 0 <= k < |t| ==> PhoneChar(t[k], false);
  }

  /** The converse fails: ten no-break spaces are white space to JavaScript but
      not to PCRE without the `u` flag. */
  lemma JsPhoneStrictlyWeaker()
    ensures ValidPhone("\U{00A0}\U{00A0}\U{00A0}\U{00A0}\U{00A0}\U{00A0}\U{00A0}\U{00A0}\U{00A0}\U{00A0}", true)
    ensures !ValidPhone("\U{00A0}\U{00A0}\U{00A0}\U{00A0}\U{00A0}\U{00A0}\U{00A0}\U{00A0}\U{00A0}\U{00A0}", false)
  {
    var s := "\U{00A0}\U{00A0}\U{00A0}\U{00A0}\U{00A0}\U{00A0}\U{00A0}\U{00A0}\U{00A0}\U{00A0}";
    assert !PhoneChar(s[0], false);
  }

  // ------------------------------------------------------------- password

  /** `password.length >= 8` in JavaScript: UTF-16 code units. */
  predicate JsLongEnough(p: string) {
    Utf16Length(p) >= 8
  }

  /** `strlen($password) >= 8` in PHP: bytes of the UTF-8 encoding. */
  predicate PhpLongEnough(p: string) {
    Utf8Length(p) >= 8
  }

  /** A UTF-8 encoding is never shorter than the UTF-16 one. */
  lemma {:induction false} Utf8AtLeastUtf16(s: string)
    ensures Utf8Length(s) >= Utf16Length(s)
  {
    if s != [] {
      Utf8AtLeastUtf16(s[1..]);
    }
  }

  /** Every password the JavaScript backends accept passes PHP's length rule. */
  lemma JsLengthImpliesPhpLength(p: string)
    requires JsLongEnough(p)
    ensures PhpLongEnough(p)
  {
    Utf8AtLeastUtf16(p);
  }

  /** Four accented letters are eight bytes but four UTF-16 units: PHP accepts
      the password and the JavaScript backends reject it. */
  lemma LengthRulesDiverge()
    ensures PhpLongEnough("\U{00E9}\U{00E9}\U{00E9}\U{00E9}")
    ensures !JsLongEnough("\U{00E9}\U{00E9}\U{00E9}\U{00E9}")
  {
    var p := "\U{00E9}\U{00E9}\U{00E9}\U{00E9}";
    assert p[1..][1..][1..][1..] == [];
  }
}
