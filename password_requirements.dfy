/** The five-point password checklist of src/components/PasswordRequirements.tsx,
    and the variant src/pages/SignupPage.tsx computes with a wider special set. */
module PasswordRequirements {
  import opened Text

  /** Some character of `s` satisfies `p`: a regex character-class test. */
  predicate HasChar(s: string, p: char -> bool) {
    s != [] && (p(s[0]) || HasChar(s[1..], p))
  }

  lemma {:induction false} HasCharIffSome(s: string, p: char -> bool)
    ensures HasChar(s, p) <==> exists k :: 0 <= k < |s| && p(s[k])
  {
    if s != [] {
      HasCharIffSome(s[1..], p);
      if exists k :: 0 <= k < |s| && p(s[k]) {
        var k :| 0 <= k < |s| && p(s[k]);
        if k > 0 {
          assert p(s[1..][k - 1]);
        }
      }
    }
  }

  /** The special characters of the checklist component: `[!@#$%^&*]`. */
  predicate ChecklistSpecial(c: char) {
    c == '!' || c == '@' || c == '#' || c == '$' || c == '%' || c == '^' || c == '&' || c == '*'
  }

  /** The special characters of the signup page: `[!@#$%^&*(),.?":{}|<>]`. */
  predicate SignupSpecial(c: char) {
    ChecklistSpecial(c) || c == '(' || c == ')' || c == ',' || c == '.' || c == '?' || c == '"'
    || c == ':' || c == '{' || c == '}' || c == '|' || c == '<' || c == '>'
  }

  datatype Requirements = Requirements(
    hasMinLength: bool, hasUpperCase: bool, hasLowerCase: bool, hasNumber: bool, hasSpecialChar: bool)
  {
    function AsList(): (l: seq<bool>)
      ensures |l| == 5
    {
      [hasMinLength, hasUpperCase, hasLowerCase, hasNumber, hasSpecialChar]
    }

    predicate AllMet() {
      hasMinLength && hasUpperCase && hasLowerCase && hasNumber && hasSpecialChar
    }
  }

  /** The five tests for a given set of special characters. */
  function Check(password: string, special: char -> bool): Requirements {
    Requirements(
      Utf16Length(password) >= 8,
      HasChar(password, IsUpper),
      HasChar(password, IsLower),
      HasChar(password, IsDigit),
      HasChar(password, special))
  }

  /** The checklist component's `requirements`. */
  function Checklist(password: string): Requirements {
    Check(password, ChecklistSpecial)
  }

  /** Number of `true` entries: `requirements.filter(req => req.met).length`. */
  function CountTrue(l: seq<bool>): (n: nat)
    ensures n <= |l|
    ensures n == |l| <==> forall k :: 0 <= k < |l| ==> l[k]
  {
    if l == [] then 0 else (if l[0] then 1 else 0) + CountTrue(l[1..])
  }

  function MetCount(password: string): (n: nat)
    ensures n <= 5
  {
    CountTrue(Checklist(password).AsList())
  }

  /** `metCount / requirements.length * 100`, kept as the exact integer. */
  function Progress(password: string): (p: nat)
    ensures p == 20 * MetCount(password)
  {
    MetCount(password) * 100 / 5
  }

  /** The bar turns green (`progress === 100`) exactly when all five are met. */
  lemma ProgressFullIffAllMet(password: string)
    ensures Progress(password) == 100 <==> MetCount(password) == 5
    ensures MetCount(password) == 5 <==> Checklist(password).AllMet()
  {
    var l := Checklist(password).AsList();
    assert CountTrue(l) == 5 <==> forall k :: 0 <= k < 5 ==> l[k];
    if !Checklist(password).AllMet() {
      assert !l[0] || !l[1] || !l[2] || !l[3] || !l[4];
    }
  }

  /** Typing more characters never unmeets a requirement. */
  lemma AppendKeepsMet(p: string, q: string, special: char -> bool)
    ensures Check(p, special).hasMinLength ==> Check(p + q, special).hasMinLength
    ensures Check(p, special).hasUpperCase ==> Check(p + q, special).hasUpperCase
    ensures Check(p, special).hasLowerCase ==> Check(p + q, special).hasLowerCase
    ensures Check(p, special).hasNumber ==> Check(p + q, special).hasNumber
    ensures Check(p, special).hasSpecialChar ==> Check(p + q, special).hasSpecialChar
  {
    Utf16LengthAppend(p, q);
    forall c: char -> bool | HasChar(p, c) ensures HasChar(p + q, c) {
      HasCharIffSome(p, c);
      HasCharIffSome(p + q, c);
      var k :| 0 <= k < |p| && c(p[k]);
      assert (p + q)[k] == p[k];
    }
  }

  lemma {:induction false} CountTrueMonotone(a: seq<bool>, b: seq<bool>)
    requires |a| == |b|
    requires forall k :: 0 <= k < |a| ==> a[k] ==> b[k]
    ensures CountTrue(a) <= CountTrue(b)
  {
    if a != [] {
      CountTrueMonotone(a[1..], b[1..]);
    }
  }

  /** Appending characters never decreases `metCount`. */
  lemma MetCountMonotone(p: string, q: string)
    ensures MetCount(p) <= MetCount(p + q)
  {
    AppendKeepsMet(p, q, ChecklistSpecial);
    CountTrueMonotone(Checklist(p).AsList(), Checklist(p + q).AsList());
  }

  /** The checklist's special set lies inside the signup page's, so a password
      the component shows as complete also passes the signup page ... */
  lemma ChecklistImpliesSignup(password: string)
    requires Checklist(password).AllMet()
    ensures Check(password, SignupSpecial).AllMet()
  {
    HasCharIffSome(password, ChecklistSpecial);
    HasCharIffSome(password, SignupSpecial);
    var k :| 0 <= k < |password| && ChecklistSpecial(password[k]);
    assert SignupSpecial(password[k]);
  }

  /** ... but not conversely: "Abcdefg1(" passes the signup page while the
      component shows four of five. */
  lemma SignupDoesNotImplyChecklist()
    ensures Check("Abcdefg1(", SignupSpecial).AllMet()
    ensures MetCount("Abcdefg1(") == 4
  {
    SampleFacts();
    assert Checklist("Abcdefg1(").AsList() == [true, true, true, true, false];
    assert CountTrue([true, true, true, true, false]) == 4;
  }

  lemma SampleFacts()
    ensures Utf16Length("Abcdefg1(") == 9
    ensures HasChar("Abcdefg1(", IsUpper) && HasChar("Abcdefg1(", IsLower)
    ensures HasChar("Abcdefg1(", IsDigit) && HasChar("Abcdefg1(", SignupSpecial)
    ensures !HasChar("Abcdefg1(", ChecklistSpecial)
  {
    assert Utf16Length("Abcdefg1(") == 9 by {
      assert IsAscii("Abcdefg1(");
      AsciiLengths("Abcdefg1(");
    }
    SampleSignupSpecial();
    SampleNoChecklistSpecial();
  }

  lemma SampleSignupSpecial()
    ensures HasChar("Abcdefg1(", SignupSpecial)
  {
  }

  lemma SampleNoChecklistSpecial()
    ensures !HasChar("Abcdefg1(", ChecklistSpecial)
  {
  }
}
