/** `sanitize_input` of src/api/config.php: PHP's `trim`, then `stripslashes`,
    then `htmlspecialchars`, each modelled on characters. */
module PhpConfig {
  import opened Text

  /** The characters PHP's `trim` removes by default: " \t\n\r\0\x0B". */
  predicate PhpTrimChar(c: char) {
    c == ' ' || c == '\t' || c == '\n' || c == '\r' || c == '\U{0000}' || c == '\U{000B}'
  }

  function TrimLeft(s: string): (r: string)
    ensures |r| <= |s| && r == s[|s| - |r|..]
    ensures r != [] ==> !PhpTrimChar(r[0])
    ensures forall k :: 0 <= k < |s| - |r| ==> PhpTrimChar(s[k])
  {
    if s != [] && PhpTrimChar(s[0]) then TrimLeft(s[1..]) else s
  }

  function TrimRight(s: string): (r: string)
    ensures |r| <= |s| && r == s[..|r|]
    ensures r != [] ==> !PhpTrimChar(r[|r| - 1])
    ensures forall k :: |r| <= k < |s| ==> PhpTrimChar(s[k])
  {
    if s != [] && PhpTrimChar(s[|s| - 1]) then TrimRight(s[..|s| - 1]) else s
  }

  /** PHP `trim($s)`. */
  function PhpTrim(s: string): string {
    TrimRight(TrimLeft(s))
  }

  /** How many characters `trim` removes from the front. */
  function TrimmedFront(s: string): (a: nat)
    ensures a <= |s| - |PhpTrim(s)|
  {
    |s| - |TrimLeft(s)|
  }

  /** `trim` removes only trim characters, from the two ends, and leaves none
      there: the result is the slice of `s` after the trimmed front, and all
      characters around that slice are trim characters. */
  lemma PhpTrimIsSlice(s: string)
    ensures PhpTrim(s) == s[TrimmedFront(s)..TrimmedFront(s) + |PhpTrim(s)|]
    ensures forall k :: 0 <= k < TrimmedFront(s) ==> PhpTrimChar(s[k])
    ensures forall k :: TrimmedFront(s) + |PhpTrim(s)| <= k < |s| ==> PhpTrimChar(s[k])
    ensures PhpTrim(s) != [] ==> !PhpTrimChar(PhpTrim(s)[0]) && !PhpTrimChar(PhpTrim(s)[|PhpTrim(s)| - 1])
  {
    var l := TrimLeft(s);
    var a := |s| - |l|;
    var r := TrimRight(l);
    assert PhpTrim(s) == r && TrimmedFront(s) == a;
    assert l == s[a..];
    assert r == l[..|r|];
    assert r == s[a..a + |r|];
    forall k | a + |r| <= k < |s| ensures PhpTrimChar(s[k]) {
      assert s[k] == l[k - a];
    }
    if r != [] {
      assert r[0] == l[0];
    }
  }

  /** PHP `stripslashes`: a backslash is dropped and the character after it
      kept, except that `\0` becomes NUL; a backslash at the very end is dropped. */
  function StripSlashes(s: string): string
    decreases |s|
  {
    if s == [] then []
    else if s[0] == '\\' then
      if |s| == 1 then [] else [if s[1] == '0' then '\U{0000}' else s[1]] + StripSlashes(s[2..])
    else [s[0]] + StripSlashes(s[1..])
  }

  /** PHP `addslashes`, the operation `stripslashes` undoes. */
  function AddSlashes(s: string): string {
    if s == [] then []
    else (if s[0] == '\'' || s[0] == '"' || s[0] == '\\' then ['\\', s[0]]
          else if s[0] == '\U{0000}' then "\\0"
          else [s[0]]) + AddSlashes(s[1..])
  }

  /** `stripslashes` inverts `addslashes`. */
  lemma {:induction false} StripAddSlashes(s: string)
    ensures StripSlashes(AddSlashes(s)) == s
  {
    if s != [] {
      StripAddSlashes(s[1..]);
      var t := AddSlashes(s[1..]);
      var c := s[0];
      if c == '\'' || c == '"' || c == '\\' {
        var a := ['\\', c] + t;
        assert AddSlashes(s) == a;
        assert a[0] == '\\' && a[1] == c && a[2..] == t;
        assert StripSlashes(a) == [c] + StripSlashes(t);
      } else if c == '\U{0000}' {
        var a := "\\0" + t;
        assert AddSlashes(s) == a;
        assert a[0] == '\\' && a[1] == '0' && a[2..] == t;
        assert StripSlashes(a) == [c] + StripSlashes(t);
      } else {
        var a := [c] + t;
        assert AddSlashes(s) == a;
        assert a[0] == c && a[1..] == t;
        assert StripSlashes(a) == [c] + StripSlashes(t);
      }
      assert s == [c] + s[1..];
    }
  }

  /** Text without backslashes passes through `stripslashes` unchanged. */
  lemma {:induction false} StripSlashesNoBackslash(s: string)
    requires '\\' !in s
    ensures StripSlashes(s) == s
  {
    if s != [] {
      assert s[0] in s;
      assert forall k :: 0 <= k < |s[1..]| ==> s[1..][k] == s[k + 1];
      StripSlashesNoBackslash(s[1..]);
    }
  }

  /** Whether `htmlspecialchars` turns `'` into `&#039;`. The model follows
      PHP 8.0, whose default flags are ENT_COMPAT | ENT_HTML401: double
      quotes are encoded and single quotes are left alone. */
  const EntQuotes: bool := false

  /** The replacement of one character by `htmlspecialchars`. */
  function Escape(c: char, quotes: bool): string {
    if c == '&' then "&amp;"
    else if c == '"' then "&quot;"
    else if c == '\'' && quotes then "&#039;"
    else if c == '<' then "&lt;"
    else if c == '>' then "&gt;"
    else [c]
  }

  /** PHP `htmlspecialchars` with double encoding on. */
  function HtmlSpecialChars(s: string, quotes: bool): string {
    if s == [] then [] else Escape(s[0], quotes) + HtmlSpecialChars(s[1..], quotes)
  }

  /** `sanitize_input($data)`. */
  function SanitizeInput(s: string): string {
    HtmlSpecialChars(StripSlashes(PhpTrim(s)), EntQuotes)
  }

  predicate Markup(c: char) {
    c == '<' || c == '>' || c == '"'
  }

  /** The escaped text contains no '<', '>' or '"'. */
  lemma {:induction false} NoMarkupAfterEscape(s: string, quotes: bool)
    ensures forall k :: 0 <= k < |HtmlSpecialChars(s, quotes)| ==> !Markup(HtmlSpecialChars(s, quotes)[k])
  {
    if s != [] {
      NoMarkupAfterEscape(s[1..], quotes);
      var e := Escape(s[0], quotes);
      var r := HtmlSpecialChars(s[1..], quotes);
      forall k | 0 <= k < |e + r| ensures !Markup((e + r)[k]) {
        if k >= |e| {
          assert (e + r)[k] == r[k - |e|];
        }
      }
    }
  }

  /** The text at `k` begins with one of the entities `htmlspecialchars` writes. */
  predicate EntityAt(r: string, k: nat)
    requires k <= |r|
  {
    var t := r[k..];
    StartsWith(t, "&amp;") || StartsWith(t, "&quot;") || StartsWith(t, "&#039;")
    || StartsWith(t, "&lt;") || StartsWith(t, "&gt;")
  }

  /** Every '&' of the escaped text begins an entity: an input '&' became `&amp;`. */
  lemma {:induction false} AmpersandsBeginEntities(s: string, quotes: bool)
    ensures forall k :: 0 <= k < |HtmlSpecialChars(s, quotes)| && HtmlSpecialChars(s, quotes)[k] == '&'
              ==> EntityAt(HtmlSpecialChars(s, quotes), k)
  {
    if s != [] {
      AmpersandsBeginEntities(s[1..], quotes);
      var e := Escape(s[0], quotes);
      var r := HtmlSpecialChars(s[1..], quotes);
      forall k | 0 <= k < |e + r| && (e + r)[k] == '&' ensures EntityAt(e + r, k) {
        if k < |e| {
          assert k == 0;
          assert (e + r)[0..][..|e|] == e;
        } else {
          assert (e + r)[k] == r[k - |e|];
          assert (e + r)[k..] == r[k - |e|..];
        }
      }
    }
  }

  /** The characters `htmlspecialchars` rewrites (with either quote setting). */
  predicate Special(c: char) {
    c == '&' || c == '"' || c == '\'' || c == '<' || c == '>'
  }

  lemma {:induction false} EscapeIdentity(s: string, quotes: bool)
    requires forall k :: 0 <= k < |s| ==> !Special(s[k])
    ensures HtmlSpecialChars(s, quotes) == s
  {
    if s != [] {
      EscapeIdentity(s[1..], quotes);
    }
  }

  /** A string with no trim character at either end and none of
      `\ & < > " '` is returned unchanged. */
  lemma SanitizeFixesCleanText(s: string)
    requires s != [] ==> !PhpTrimChar(s[0]) && !PhpTrimChar(s[|s| - 1])
    requires forall k :: 0 <= k < |s| ==> s[k] != '\\' && !Special(s[k])
    ensures SanitizeInput(s) == s
  {
    assert TrimLeft(s) == s;
    assert TrimRight(s) == s;
    StripSlashesNoBackslash(s);
    EscapeIdentity(s, EntQuotes);
  }

  /** The result of `sanitize_input` never holds '<', '>' or '"', and each of
      its '&' begins an entity. */
  lemma SanitizeIsHtmlSafe(s: string)
    ensures forall k :: 0 <= k < |SanitizeInput(s)| ==> !Markup(SanitizeInput(s)[k])
    ensures forall k :: 0 <= k < |SanitizeInput(s)| && SanitizeInput(s)[k] == '&'
              ==> EntityAt(SanitizeInput(s), k)
  {
    NoMarkupAfterEscape(StripSlashes(PhpTrim(s)), EntQuotes);
    AmpersandsBeginEntities(StripSlashes(PhpTrim(s)), EntQuotes);
  }

  /** A single character that is not trimmed and not a backslash comes out
      as `htmlspecialchars` writes it. */
  lemma SanitizeOneChar(c: char)
    requires !PhpTrimChar(c) && c != '\\'
    ensures SanitizeInput([c]) == Escape(c, EntQuotes)
  {
    assert TrimLeft([c]) == [c];
    assert TrimRight([c]) == [c];
    assert StripSlashes([c]) == [c] + StripSlashes([]);
    assert HtmlSpecialChars([c], EntQuotes) == Escape(c, EntQuotes) + HtmlSpecialChars([], EntQuotes);
  }

  /** Under PHP 8.0's default flags a single quote passes `sanitize_input`
      unchanged, while a double quote is encoded. */
  lemma SanitizeKeepsSingleQuotes()
    ensures SanitizeInput("'") == "'"
    ensures SanitizeInput("\"") == "&quot;"
  {
    SanitizeOneChar('\'');
    SanitizeOneChar('"');
  }

  /** `sanitize_input` is not idempotent: it encodes the '&' of an entity again,
      so sanitising stored text a second time changes it. */
  lemma SanitizeNotIdempotent(t: string)
    requires PlainText(t)
    ensures SanitizeInput(SanitizeInput("&" + t)) == "&amp;amp;" + t
  {
    SanitizeOfAmpersandText(t);
    PlainAmpTail(t);
    SanitizeOfAmpersandText("amp;" + t);
    AmpConcat(t);
  }

  /** Text with nothing `sanitize_input` changes: no special character, no
      backslash and no trim character. */
  predicate PlainText(t: string) {
    forall k :: 0 <= k < |t| ==> !Special(t[k]) && t[k] != '\\' && !PhpTrimChar(t[k])
  }

  lemma PlainAmpTail(t: string)
    requires PlainText(t)
    ensures PlainText("amp;" + t)
  {
    var t2 := "amp;" + t;
    forall k | 0 <= k < |t2| ensures !Special(t2[k]) && t2[k] != '\\' && !PhpTrimChar(t2[k]) {
      if k == 0 { assert t2[k] == 'a'; }
      else if k == 1 { assert t2[k] == 'm'; }
      else if k == 2 { assert t2[k] == 'p'; }
      else if k == 3 { assert t2[k] == ';'; }
      else { assert t2[k] == t[k - 4]; }
    }
  }

  lemma AmpConcat(t: string)
    ensures "&" + ("amp;" + t) == "&amp;" + t
    ensures "&amp;" + ("amp;" + t) == "&amp;amp;" + t
  {
    AmpLiterals();
    assert "&" + ("amp;" + t) == ("&" + "amp;") + t;
    assert "&amp;" + ("amp;" + t) == ("&amp;" + "amp;") + t;
  }

  /** The two entity texts as concatenations, character by character. */
  lemma AmpLiterals()
    ensures "&" + "amp;" == "&amp;"
    ensures "&amp;" + "amp;" == "&amp;amp;"
  {
    var a := "&" + "amp;";
    assert |a| == 5 && a[0] == '&' && a[1] == 'a' && a[2] == 'm' && a[3] == 'p' && a[4] == ';';
    var b := "&amp;" + "amp;";
    assert |b| == 9;
    assert b[0] == '&' && b[1] == 'a' && b[2] == 'm' && b[3] == 'p' && b[4] == ';';
    assert b[5] == 'a' && b[6] == 'm' && b[7] == 'p' && b[8] == ';';
  }

  /** '&' followed by plain text: only the '&' is encoded. */
  lemma SanitizeOfAmpersandText(t: string)
    requires PlainText(t)
    ensures SanitizeInput("&" + t) == "&amp;" + t
  {
    var s := "&" + t;
    assert TrimLeft(s) == s;
    assert TrimRight(s) == s;
    assert '\\' !in s by {
      forall k | 0 <= k < |s| ensures s[k] != '\\' {
        if k > 0 { assert s[k] == t[k - 1]; }
      }
    }
    StripSlashesNoBackslash(s);
    assert s[1..] == t;
    EscapeIdentity(t, EntQuotes);
  }
}
