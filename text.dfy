/** Character classes and string functions shared by every part of the model:
    the JavaScript and PHP string built-ins the handlers and pages rely on. */
module Text {

  /** JavaScript `\s` (and the characters `String.prototype.trim` removes):
      white space and line terminators of ECMAScript, including the Unicode
      space separators. */
  predicate JsWhitespace(c: char) {
    c == ' ' || c == '\t' || c == '\n' || c == '\U{000B}' || c == '\U{000C}' || c == '\r'
    || c == '\U{00A0}' || c == '\U{1680}' || ('\U{2000}' <= c <= '\U{200A}')
    || c == '\U{2028}' || c == '\U{2029}' || c == '\U{202F}' || c == '\U{205F}'
    || c == '\U{3000}' || c == '\U{FEFF}'
  }

  /** PCRE `\s` without the `u` flag, as PHP's preg_match sees it: ASCII only. */
  predicate PcreWhitespace(c: char) {
    c == ' ' || c == '\t' || c == '\n' || c == '\U{000B}' || c == '\U{000C}' || c == '\r'
  }

  predicate IsDigit(c: char) { '0' <= c <= '9' }
  predicate IsUpper(c: char) { 'A' <= c <= 'Z' }
  predicate IsLower(c: char) { 'a' <= c <= 'z' }

  /** ASCII lower-casing of one character. */
  function LowerChar(c: char): char {
    if IsUpper(c) then (c as int + 32) as char else c
  }

  /** ASCII upper-casing of one character. */
  function UpperChar(c: char): char {
    if IsLower(c) then (c as int - 32) as char else c
  }

  /** `toLowerCase()` / `strtolower`, restricted to ASCII letters. */
  function Lower(s: string): string {
    seq(|s|, i requires 0 <= i < |s| => LowerChar(s[i]))
  }

  /** `strtoupper`, restricted to ASCII letters. */
  function Upper(s: string): string {
    seq(|s|, i requires 0 <= i < |s| => UpperChar(s[i]))
  }

  /** PHP `ucfirst`. */
  function UcFirst(s: string): string {
    if s == [] then [] else [UpperChar(s[0])] + s[1..]
  }

  /** `String.prototype.startsWith`. */
  predicate StartsWith(s: string, prefix: string) {
    |prefix| <= |s| && s[..|prefix|] == prefix
  }

  /** `String.prototype.includes`: `t` occurs in `s` at some offset. */
  predicate Includes(s: string, t: string)
    decreases |s|
  {
    StartsWith(s, t) || (|s| > 0 && Includes(s[1..], t))
  }

  /** The occurrence that `Includes` looks for, stated directly. */
  ghost predicate OccursAt(s: string, t: string, k: int) {
    0 <= k && k + |t| <= |s| && s[k..k + |t|] == t
  }

  lemma {:induction false} IncludesIffOccurs(s: string, t: string)
    ensures Includes(s, t) <==> exists k :: OccursAt(s, t, k)
    decreases |s|
  {
    if Includes(s, t) {
      if StartsWith(s, t) {
        assert OccursAt(s, t, 0);
      } else {
        IncludesIffOccurs(s[1..], t);
        var k :| OccursAt(s[1..], t, k);
        assert s[1..][k..k + |t|] == s[k + 1..k + 1 + |t|];
        assert OccursAt(s, t, k + 1);
      }
    }
    if exists k :: OccursAt(s, t, k) {
      var k :| OccursAt(s, t, k);
      if k == 0 {
        assert StartsWith(s, t);
      } else {
        assert s[1..][k - 1..k - 1 + |t|] == s[k..k + |t|];
        assert OccursAt(s[1..], t, k - 1);
        IncludesIffOccurs(s[1..], t);
      }
    }
  }

  /** Every string includes the empty string, so an empty search term keeps everything. */
  lemma EmptyIncludedEverywhere(s: string)
    ensures Includes(s, "")
  {
    assert StartsWith(s, "");
  }

  /** Case-insensitive containment, as the admin pages write it:
      `field.toLowerCase().includes(term.toLowerCase())`. */
  predicate MatchesIgnoringCase(field: string, term: string) {
    Includes(Lower(field), Lower(term))
  }

  lemma LowerIdempotent(s: string)
    ensures Lower(Lower(s)) == Lower(s)
  {
  }

  /** Every character is JavaScript white space: what `s.trim() === ''` tests. */
  predicate IsBlank(s: string) {
    forall i :: 0 <= i < |s| ==> JsWhitespace(s[i])
  }

  /** `String.prototype.trim`. */
  function JsTrim(s: string): string {
    JsTrimEnd(JsTrimStart(s))
  }

  function JsTrimStart(s: string): (r: string)
    ensures |r| <= |s| && r == s[|s| - |r|..]
    ensures r != [] ==> !JsWhitespace(r[0])
    ensures r == [] <==> IsBlank(s)
  {
    if s == [] then s
    else if JsWhitespace(s[0]) then JsTrimStart(s[1..])
    else s
  }

  function JsTrimEnd(s: string): (r: string)
    ensures |r| <= |s| && r == s[..|r|]
    ensures r != [] ==> !JsWhitespace(r[|r| - 1])
    ensures r == [] <==> IsBlank(s)
  {
    if s == [] then s
    else if JsWhitespace(s[|s| - 1]) then JsTrimEnd(s[..|s| - 1])
    else s
  }

  /** `s.trim()` is empty exactly when `s` is all white space (or empty). */
  lemma TrimEmptyIffBlank(s: string)
    ensures JsTrim(s) == "" <==> IsBlank(s)
  {
  }

  /** Index of the first `d` in `s`, or `|s|` when there is none. */
  function IndexOf(s: string, d: char): (k: nat)
    ensures k <= |s|
    ensures k < |s| ==> s[k] == d
    ensures forall j :: 0 <= j < k ==> s[j] != d
  {
    if s == [] then 0
    else if s[0] == d then 0
    else 1 + IndexOf(s[1..], d)
  }

  /** `s.split(d)` / PHP `explode(d, s)` for a one-character separator. */
  function Split(s: string, d: char): (r: seq<string>)
    ensures |r| >= 1
    decreases |s|
  {
    var k := IndexOf(s, d);
    if k == |s| then [s] else [s[..k]] + Split(s[k + 1..], d)
  }

  /** `parts.join(d)` / PHP `implode(d, parts)`. */
  function Join(parts: seq<string>, d: char): string
    decreases |parts|
  {
    if parts == [] then ""
    else if |parts| == 1 then parts[0]
    else parts[0] + [d] + Join(parts[1..], d)
  }

  /** Splitting and re-joining gives the string back. */
  lemma {:induction false} JoinSplit(s: string, d: char)
    ensures Join(Split(s, d), d) == s
    decreases |s|
  {
    var k := IndexOf(s, d);
    if k < |s| {
      var rest := s[k + 1..];
      assert Split(s, d) == [s[..k]] + Split(rest, d);
      JoinSplit(rest, d);
      JoinCons(s[..k], Split(rest, d), d);
      assert s[..k] + [d] == s[..k + 1];
      assert s[..k + 1] + rest == s;
    }
  }

  /** Joining a first part onto a non-empty list puts one separator between. */
  lemma JoinCons(p: string, parts: seq<string>, d: char)
    requires |parts| >= 1
    ensures Join([p] + parts, d) == p + [d] + Join(parts, d)
  {
    assert ([p] + parts)[1..] == parts;
  }

  /** The text before the first space (the whole string if there is none). */
  function FirstWord(s: string): (r: string)
    ensures StartsWith(s, r) && ' ' !in r
  {
    s[..IndexOf(s, ' ')]
  }

  /** Everything after the first space, or "" when there is no space. */
  function AfterFirstSpace(s: string): (r: string)
    ensures ' ' in s ==> s == FirstWord(s) + " " + r
    ensures ' ' !in s ==> r == ""
  {
    var k := IndexOf(s, ' ');
    if k < |s| then
      assert s == s[..k] + " " + s[k + 1..];
      s[k + 1..]
    else ""
  }

  /** `const [first, ...rest] = s.split(' '); rest.join(' ')` and
      `implode(' ', array_slice(explode(' ', s), 1))`: the first part is the
      first word and the re-joined rest is everything after the first space. */
  lemma SplitHeadAndRest(s: string)
    ensures Split(s, ' ')[0] == FirstWord(s)
    ensures Join(Split(s, ' ')[1..], ' ') == AfterFirstSpace(s)
  {
    var k := IndexOf(s, ' ');
    if k < |s| {
      var rest := s[k + 1..];
      var parts := Split(s, ' ');
      assert parts == [s[..k]] + Split(rest, ' ');
      assert parts[1..] == Split(rest, ' ');
      JoinSplit(rest, ' ');
      assert AfterFirstSpace(s) == rest;
    } else {
      assert Split(s, ' ') == [s];
      assert Split(s, ' ')[1..] == [];
    }
  }

  /** PHP `explode(' ', s, 2)`: at most two parts, split at the first space. */
  function ExplodeTwo(s: string): (r: seq<string>)
    ensures 1 <= |r| <= 2
  {
    var k := IndexOf(s, ' ');
    if k == |s| then [s] else [s[..k], s[k + 1..]]
  }

  /** The bounded explode agrees with the full split-and-rejoin used elsewhere. */
  lemma ExplodeTwoAgrees(s: string)
    ensures ExplodeTwo(s)[0] == FirstWord(s)
    ensures (if |ExplodeTwo(s)| == 2 then ExplodeTwo(s)[1] else "") == AfterFirstSpace(s)
  {
  }

  /** JavaScript `length`: UTF-16 code units. */
  function Utf16Length(s: string): (n: nat)
    ensures n >= |s|
  {
    if s == [] then 0 else (if s[0] as int >= 0x10000 then 2 else 1) + Utf16Length(s[1..])
  }

  /** PHP `strlen` of the UTF-8 encoding: bytes. */
  function Utf8Length(s: string): (n: nat)
    ensures n >= |s|
  {
    if s == [] then 0
    else (if s[0] as int < 0x80 then 1 else if s[0] as int < 0x800 then 2
          else if s[0] as int < 0x10000 then 3 else 4) + Utf8Length(s[1..])
  }

  predicate IsAscii(s: string) {
    forall i :: 0 <= i < |s| ==> s[i] as int < 0x80
  }

  /** For ASCII text both lengths are the number of characters. */
  lemma {:induction false} AsciiLengths(s: string)
    requires IsAscii(s)
    ensures Utf16Length(s) == |s| && Utf8Length(s) == |s|
  {
    if s != [] {
      AsciiLengths(s[1..]);
    }
  }

  /** UTF-16 length adds up over concatenation. */
  lemma {:induction false} Utf16LengthAppend(p: string, q: string)
    ensures Utf16Length(p + q) == Utf16Length(p) + Utf16Length(q)
  {
    if p != [] {
      assert (p + q)[0] == p[0];
      assert (p + q)[1..] == p[1..] + q;
      Utf16LengthAppend(p[1..], q);
    } else {
      assert p + q == q;
    }
  }
}
