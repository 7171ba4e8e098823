/** The field validators shared by the profile and registration forms: the
    email pattern `^[^\s@]+@[^\s@]+\.[^\s@]+$`, the registration password
    policy and the advisory password-strength meter. Each pattern is given
    as an explicit predicate over characters rather than through regular
    expression semantics. */
module Validators {
  import opened Wrappers
  import opened Text

  // ---------------------------------------------------------------- email

  /** One of the three runs of the email pattern: non-empty, with neither
      `@` nor whitespace. */
  predicate EmailAtom(t: string) {
    |t| > 0 && forall k | 0 <= k < |t| :: t[k] != '@' && !IsWhitespace(t[k])
  }

  /** The email pattern read as a decomposition `L@D.T` of three atoms. */
  ghost predicate EmailShape(s: string) {
    exists l, d, t :: EmailAtom(l) && EmailAtom(d) && EmailAtom(t) && s == l + "@" + d + "." + t
  }

  /** Position of the first occurrence of `c` in `s`. */
  function IndexOf(s: string, c: char): (i: nat)
    requires c in s
    ensures i < |s| && s[i] == c && c !in s[..i]
  {
    if s[0] == c then 0
    else
      assert c in s[1..] by {
        var k :| 0 <= k < |s| && s[k] == c;
        assert s[1..][k - 1] == c;
      }
      var j := IndexOf(s[1..], c);
      assert s[..j + 1] == [s[0]] + s[1..][..j];
      j + 1
  }

  /** A `.` that is neither the first nor the last character. */
  predicate HasInnerDot(d: string) {
    exists j | 1 <= j < |d| - 1 :: d[j] == '.'
  }

  /** The email pattern checked the way a scanner would: no whitespace at
      all, exactly one `@`, not at the start, and a dot strictly inside what
      follows it. `EmailShapeIff` shows this is the pattern. */
  predicate EmailScan(s: string) {
    && (forall k | 0 <= k < |s| :: !IsWhitespace(s[k]))
    && '@' in s
    && var at := IndexOf(s, '@');
       && 0 < at
       && '@' !in s[at + 1..]
       && HasInnerDot(s[at + 1..])
  }

  lemma ShapeIsValidEmail(s: string, l: string, d: string, t: string)
    requires EmailAtom(l) && EmailAtom(d) && EmailAtom(t) && s == l + "@" + d + "." + t
    ensures EmailScan(s)
  {
    var at := |l|;
    var rest := d + "." + t;
    assert s == l + ("@" + rest);
    assert s[at] == '@';
    assert s[..at] == l;
    assert s[at + 1..] == rest;
    forall k | 0 <= k < |s|
      ensures !IsWhitespace(s[k])
    {
      if k < at {
        assert s[k] == l[k];
      } else if at < k < at + 1 + |d| {
        assert s[k] == d[k - at - 1];
      } else if k > at + 1 + |d| {
        assert s[k] == t[k - at - 2 - |d|];
      }
    }
    assert '@' !in s[..at];
    assert IndexOf(s, '@') == at;
    assert '@' !in rest by {
      forall k | 0 <= k < |rest|
        ensures rest[k] != '@'
      {
        if k < |d| {
          assert rest[k] == d[k];
        } else if k > |d| {
          assert rest[k] == t[k - |d| - 1];
        }
      }
    }
    assert rest[|d|] == '.';
  }

  lemma ValidEmailIsShape(s: string)
    requires EmailScan(s)
    ensures EmailShape(s)
  {
    var at := IndexOf(s, '@');
    var rest := s[at + 1..];
    var j :| 1 <= j < |rest| - 1 && rest[j] == '.';
    var l, d, t := s[..at], rest[..j], rest[j + 1..];
    forall k | 0 <= k < |rest|
      ensures rest[k] != '@' && !IsWhitespace(rest[k])
    {
      assert rest[k] == s[at + 1 + k];
    }
    assert EmailAtom(l) by {
      forall k | 0 <= k < |l|
        ensures l[k] != '@' && !IsWhitespace(l[k])
      {
        assert l[k] == s[k];
      }
    }
    assert EmailAtom(d) by {
      forall k | 0 <= k < |d|
        ensures d[k] != '@' && !IsWhitespace(d[k])
      {
        assert d[k] == rest[k];
      }
    }
    assert EmailAtom(t) by {
      forall k | 0 <= k < |t|
        ensures t[k] != '@' && !IsWhitespace(t[k])
      {
        assert t[k] == rest[j + 1 + k];
      }
    }
    assert rest == d + "." + t;
    assert s == l + "@" + rest;
  }

  /** The scanner-style check and the pattern accept the same strings. */
  lemma EmailShapeIff(s: string)
    ensures EmailScan(s) <==> EmailShape(s)
  {
    if EmailScan(s) {
      ValidEmailIsShape(s);
    }
    if EmailShape(s) {
      var l, d, t :| EmailAtom(l) && EmailAtom(d) && EmailAtom(t) && s == l + "@" + d + "." + t;
      ShapeIsValidEmail(s, l, d, t);
    }
  }

  /** `isValidEmail` of the profile and registration forms: the string
      splits as `L@D.T`, each part non-empty and free of `@` and whitespace. */
  function IsValidEmail(s: string): (b: bool)
    ensures b <==> EmailShape(s)
  {
    assert EmailScan(s) <==> EmailShape(s) by {
      EmailShapeIff(s);
    }
    EmailScan(s)
  }

  /** A valid email is never blank, so the profile form's "required" check is
      implied by its pattern check. */
  lemma ValidEmailNotBlank(s: string)
    requires IsValidEmail(s)
    ensures !Blank(s)
  {
    var at := IndexOf(s, '@');
    assert !IsWhitespace(s[at]);
  }

  /** Sample inputs of the email pattern. */
  lemma EmailExamples(s: string)
    ensures EmailShape("a@b.co")
    ensures !EmailShape("a@b") && !EmailShape("a.b@") && !EmailShape("ab.co")
    ensures (exists k | 0 <= k < |s| :: IsWhitespace(s[k])) ==> !EmailShape(s)
  {
    assert EmailAtom("a") && EmailAtom("b") && EmailAtom("co")
      && "a@b.co" == "a" + "@" + "b" + "." + "co";
    EmailShapeIff("a@b");
    assert IndexOf("a@b", '@') == 1;
    assert !HasInnerDot("b");
    EmailShapeIff("a.b@");
    assert IndexOf("a.b@", '@') == 3;
    assert "a.b@"[4..] == "";
    EmailShapeIff("ab.co");
    assert '@' !in "ab.co";
    EmailShapeIff(s);
  }

  // ---------------------------------------------------------------- password

  /** The character classes the password policy and the strength meter test:
      `[a-z]`, `[A-Z]`, `\d` and `[@$!%*?&]`. */
  datatype CharClass = Lower | Upper | Digit | Special

  predicate InClass(c: char, cls: CharClass) {
    match cls
    case Lower => 'a' <= c <= 'z'
    case Upper => 'A' <= c <= 'Z'
    case Digit => '0' <= c <= '9'
    case Special => c in "@$!%*?&"
  }

  /** Some character of `p` is in `cls`. */
  predicate HasClass(p: string, cls: CharClass) {
    exists k | 0 <= k < |p| :: InClass(p[k], cls)
  }

  /** A character of `[A-Za-z\d@$!%*?&]`, the only ones the policy admits. */
  predicate IsPolicyChar(c: char) {
    InClass(c, Lower) || InClass(c, Upper) || InClass(c, Digit) || InClass(c, Special)
  }

  /** `isValidPassword`: at least eight characters, each class present, and
      nothing outside the admitted characters. It is exactly a full strength
      score plus the admitted-characters restriction, which the meter does
      not look at; since every admitted character is a single UTF-16 unit,
      the length the policy counts is the length the meter counts. */
  function IsValidPassword(p: string): (b: bool)
    ensures b <==> StrengthScore(p) == 5 && forall k | 0 <= k < |p| :: IsPolicyChar(p[k])
    ensures b ==> Utf16Length(p) == |p|
  {
    assert (forall k | 0 <= k < |p| :: IsPolicyChar(p[k])) ==> Utf16Length(p) == |p|;
    && |p| >= 8
    && HasClass(p, Lower) && HasClass(p, Upper) && HasClass(p, Digit) && HasClass(p, Special)
    && forall k | 0 <= k < |p| :: IsPolicyChar(p[k])
  }

  /** Sample inputs of the password policy. */
  lemma PasswordExamples()
    ensures IsValidPassword("Abcdef1!")
    ensures !IsValidPassword("abcdefgh") && !IsValidPassword("ABCDEFGH")
    ensures !IsValidPassword("Abcdefgh") && !IsValidPassword("Abcdef1")
  {
    var p := "Abcdef1!";
    assert InClass(p[0], Upper) && InClass(p[1], Lower) && InClass(p[6], Digit) && InClass(p[7], Special);
    assert !HasClass("abcdefgh", Upper);
    assert !HasClass("ABCDEFGH", Lower);
    assert !HasClass("Abcdefgh", Digit);
  }

  // ---------------------------------------------------------------- strength

  function Point(b: bool): nat {
    if b then 1 else 0
  }

  /** The five strength criteria in the order the meter checks them: a
      length of eight or more UTF-16 units, then one per character class. */
  function Criteria(p: string): seq<bool> {
    [Utf16Length(p) >= 8, HasClass(p, Lower), HasClass(p, Upper), HasClass(p, Digit), HasClass(p, Special)]
  }

  /** One point per criterion met: a length of eight or more UTF-16 units,
      then one per character class present. */
  function StrengthScore(p: string): (n: nat)
    ensures n <= 5
    ensures n == 5 <==> Utf16Length(p) >= 8 && HasClass(p, Lower) && HasClass(p, Upper)
                        && HasClass(p, Digit) && HasClass(p, Special)
  {
    Point(Utf16Length(p) >= 8) + Point(HasClass(p, Lower)) + Point(HasClass(p, Upper))
      + Point(HasClass(p, Digit)) + Point(HasClass(p, Special))
  }

  /** The meter shown under the password field: a label, a CSS class and a
      bar width in percent. */
  datatype Strength = Strength(text: string, cssClass: string, widthPercent: nat)

  /** The meter's labels from weakest to strongest. */
  const Labels: seq<string> := ["Very Weak", "Weak", "Fair", "Good", "Strong"]

  /** The label and CSS class for a score: scores 0 and 1 share the weakest
      label and each further point moves one label up; every class is a
      `strength-` class. */
  function Level(score: nat): (r: (string, string))
    requires score <= 5
    ensures r.0 == Labels[if score == 0 then 0 else score - 1]
    ensures |r.1| > 9 && r.1[..9] == "strength-"
  {
    match score
    case 0 => ("Very Weak", "strength-very-weak")
    case 1 => ("Very Weak", "strength-very-weak")
    case 2 => ("Weak", "strength-weak")
    case 3 => ("Fair", "strength-fair")
    case 4 => ("Good", "strength-good")
    case 5 => ("Strong", "strength-strong")
  }

  /** `passwordStrength`: nothing for an empty password, otherwise the meter
      for the score, its width 20 percent per point. */
  function PasswordStrength(p: string): (r: Option<Strength>)
    ensures r == None <==> p == ""
    ensures r.Some? ==> r.value.widthPercent <= 100 && r.value.widthPercent % 20 == 0
    ensures r.Some? ==> r.value.widthPercent == 20 * StrengthScore(p)
  {
    if p == "" then None
    else
      var score := StrengthScore(p);
      var (text, cls) := Level(score);
      Some(Strength(text, cls, score * 20))
  }

  /** A string of eight characters from the Basic Multilingual Plane is
      eight UTF-16 units long. */
  lemma EightUnits(p: string)
    requires |p| == 8 && forall k | 0 <= k < |p| :: p[k] as int < 0x1_0000
    ensures Utf16Length(p) == 8
  {
  }

  /** Eight letters with one capital: lower and upper case only. */
  lemma FairClasses()
    ensures HasClass("Abcdefgh", Upper) && HasClass("Abcdefgh", Lower)
    ensures !HasClass("Abcdefgh", Digit) && !HasClass("Abcdefgh", Special)
  {
    assert InClass("Abcdefgh"[0], Upper) && InClass("Abcdefgh"[1], Lower);
  }

  /** Eight letters with one capital meet the length criterion and two of
      the four classes. */
  lemma FairScore()
    ensures StrengthScore("Abcdefgh") == 3
  {
    EightUnits("Abcdefgh");
    FairClasses();
  }

  /** Eight digits: digits only. */
  lemma WeakClasses()
    ensures HasClass("12345678", Digit)
    ensures !HasClass("12345678", Lower) && !HasClass("12345678", Upper) && !HasClass("12345678", Special)
  {
    assert InClass("12345678"[0], Digit);
  }

  /** Eight digits meet the length criterion and one class. */
  lemma WeakScore()
    ensures StrengthScore("12345678") == 2
  {
    EightUnits("12345678");
    WeakClasses();
  }

  /** Meters between the extremes: eight letters with one capital show Fair,
      eight digits show Weak. */
  lemma StrengthExamples()
    ensures PasswordStrength("Abcdefgh") == Some(Strength("Fair", "strength-fair", 60))
    ensures PasswordStrength("12345678") == Some(Strength("Weak", "strength-weak", 40))
  {
    FairScore();
    WeakScore();
  }

  /** The score is the number of criteria met, each worth one point. */
  lemma ScoreCountsCriteria(p: string)
    ensures StrengthScore(p) == multiset(Criteria(p))[true]
  {
  }

  /** The meter's label and CSS class are determined by its width, from
      weakest to strongest. */
  lemma StrengthLabels(p: string)
    requires p != ""
    ensures var s := PasswordStrength(p).value;
            && (s.widthPercent <= 20 <==> s.text == "Very Weak" && s.cssClass == "strength-very-weak")
            && (s.widthPercent == 40 <==> s.text == "Weak" && s.cssClass == "strength-weak")
            && (s.widthPercent == 60 <==> s.text == "Fair" && s.cssClass == "strength-fair")
            && (s.widthPercent == 80 <==> s.text == "Good" && s.cssClass == "strength-good")
            && (s.widthPercent == 100 <==> s.text == "Strong" && s.cssClass == "strength-strong")
  {
  }

  /** Every password the policy accepts gets the full meter. */
  lemma ValidPasswordIsStrong(p: string)
    requires IsValidPassword(p)
    ensures PasswordStrength(p) == Some(Strength("Strong", "strength-strong", 100))
  {
  }

  /** The meter counts length in UTF-16 units: two characters outside the
      Basic Multilingual Plane make a six-character password long enough,
      while the policy rejects them. */
  lemma StrengthCountsCodeUnits()
    ensures PasswordStrength("Ab1!\U{1F600}\U{1F600}") == Some(Strength("Strong", "strength-strong", 100))
    ensures !IsValidPassword("Ab1!\U{1F600}\U{1F600}")
  {
    var p := "Ab1!\U{1F600}\U{1F600}";
    assert Utf16Length(p[5..]) == 2;
    assert Utf16Length(p[4..]) == 4;
    assert Utf16Length(p) == 8;
    assert InClass(p[0], Upper) && InClass(p[1], Lower) && InClass(p[2], Digit) && InClass(p[3], Special);
    assert !IsPolicyChar(p[4]);
  }

  /** So a full meter does not mean the policy accepts the password: a `#` or
      a space is scored but not admitted. */
  lemma StrongIsNotValid()
    ensures StrengthScore("Abcdef1!#") == 5 && !IsValidPassword("Abcdef1!#")
    ensures StrengthScore("Abcdef1! ") == 5 && !IsValidPassword("Abcdef1! ")
  {
    var p, q := "Abcdef1!#", "Abcdef1! ";
    assert p[..8] == "Abcdef1!" && q[..8] == "Abcdef1!";
    assert !IsPolicyChar(p[8]) && !IsPolicyChar(q[8]);
    FullScoreNotAdmitted(p);
    FullScoreNotAdmitted(q);
  }

  /** An eight-character prefix meeting every criterion of the meter,
      followed by one character outside the admitted set. */
  lemma FullScoreNotAdmitted(p: string)
    requires |p| == 9 && p[..8] == "Abcdef1!" && !IsPolicyChar(p[8]) && p[8] as int < 0x1_0000
    ensures StrengthScore(p) == 5 && !IsValidPassword(p)
  {
    assert forall k | 0 <= k < |p| :: p[k] as int < 0x1_0000 by {
      forall k | 0 <= k < |p|
        ensures p[k] as int < 0x1_0000
      {
        if k < 8 {
          assert p[k] == p[..8][k];
        }
      }
    }
    assert p[0] == p[..8][0] && p[1] == p[..8][1] && p[6] == p[..8][6] && p[7] == p[..8][7];
    assert InClass(p[0], Upper) && InClass(p[1], Lower) && InClass(p[6], Digit) && InClass(p[7], Special);
  }

}
