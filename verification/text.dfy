/** Character-level helpers shared by the three form components: the
    whitespace class used both by the `\s` of the email pattern and by
    `String.prototype.trim`, trimming, and upper-casing of one character.
    Only the ASCII repertoire is modelled. */
module Text {

  /** Space, tab, line feed, vertical tab, form feed and carriage return. */
  predicate IsWhitespace(c: char) {
    c == ' ' || c == '\t' || c == '\n' || c == '\r' || c == '\U{B}' || c == '\U{C}'
  }

  predicate AllWhitespace(s: string) {
    forall k | 0 <= k < |s| :: IsWhitespace(s[k])
  }

  /** `s` with its leading whitespace removed. */
  function TrimStart(s: string): (r: string)
    ensures |r| <= |s| && r == s[|s| - |r|..]
    ensures AllWhitespace(s[..|s| - |r|])
    ensures r == [] || !IsWhitespace(r[0])
    decreases |s|
  {
    if |s| > 0 && IsWhitespace(s[0]) then TrimStart(s[1..]) else s
  }

  /** `s` with its trailing whitespace removed. */
  function TrimEnd(s: string): (r: string)
    ensures |r| <= |s| && r == s[..|r|]
    ensures AllWhitespace(s[|r|..])
    ensures r == [] || !IsWhitespace(r[|r| - 1])
    decreases |s|
  {
    if |s| > 0 && IsWhitespace(s[|s| - 1]) then TrimEnd(s[..|s| - 1]) else s
  }

  /** `String.prototype.trim`: the result is the slice of `s` left once the
      whitespace at both ends is gone; it is empty exactly when `s` is all
      whitespace. */
  function Trim(s: string): (r: string)
    ensures exists a {:trigger s[a..]} :: 0 <= a <= |s| - |r| && r == s[a..][..|r|]
                       && AllWhitespace(s[..a]) && AllWhitespace(s[a + |r|..])
    ensures r == [] <==> AllWhitespace(s)
    ensures r == [] || (!IsWhitespace(r[0]) && !IsWhitespace(r[|r| - 1]))
  {
    var t := TrimStart(s);
    var r := TrimEnd(t);
    assert AllWhitespace(s[..|s| - |t|]);
    r
  }

  /** The falsiness test `!s.trim()` used by the profile form; see
      `BlankIsEmptyTrim`. */
  predicate Blank(s: string) {
    AllWhitespace(s)
  }

  /** Trimming leaves nothing exactly when every character is whitespace. */
  lemma BlankIsEmptyTrim(s: string)
    ensures Blank(s) <==> Trim(s) == ""
  {
  }

  /** JavaScript's `length`: the number of UTF-16 code units, where a
      character outside the Basic Multilingual Plane takes two. */
  function Utf16Length(s: string): (n: nat)
    ensures |s| <= n <= 2 * |s|
    ensures (forall k | 0 <= k < |s| :: s[k] as int < 0x1_0000) <==> n == |s|
  {
    if s == [] then 0
    else
      assert forall k | 0 <= k < |s| - 1 :: s[1..][k] == s[k + 1];
      (if s[0] as int < 0x1_0000 then 1 else 2) + Utf16Length(s[1..])
  }

  /** One character is one code unit inside the Basic Multilingual Plane and
      a surrogate pair outside it. */
  lemma Utf16OfChar(c: char)
    ensures Utf16Length([c]) == if c as int < 0x1_0000 then 1 else 2
  {
  }

  /** Code units add up over concatenation, so the length of a string is the
      sum of its characters' one or two units. */
  lemma {:induction false} Utf16Append(a: string, b: string)
    ensures Utf16Length(a + b) == Utf16Length(a) + Utf16Length(b)
    decreases |a|
  {
    if a != [] {
      assert (a + b)[0] == a[0];
      assert (a + b)[1..] == a[1..] + b;
      Utf16Append(a[1..], b);
    } else {
      assert a + b == b;
    }
  }

  /** ASCII `toUpperCase` of one character. */
  function UpperChar(c: char): (u: char)
    ensures 'a' <= c <= 'z' ==> 'A' <= u <= 'Z' && u as int - c as int == 'A' as int - 'a' as int
    ensures !('a' <= c <= 'z') ==> u == c
  {
    if 'a' <= c <= 'z' then (c as int - 'a' as int + 'A' as int) as char else c
  }

  /** Removing leading whitespace from `a + b`, where `a` holds a non-blank
      character, only touches `a`. */
  lemma {:induction false} TrimStartAppend(a: string, b: string)
    requires !AllWhitespace(a)
    ensures TrimStart(a + b) == TrimStart(a) + b
    decreases |a|
  {
    assert |a| > 0;
    if IsWhitespace(a[0]) {
      assert (a + b)[1..] == a[1..] + b;
      assert !AllWhitespace(a[1..]) by {
        var k :| 0 <= k < |a| && !IsWhitespace(a[k]);
        assert a[1..][k - 1] == a[k];
      }
      TrimStartAppend(a[1..], b);
    }
  }

  /** Leading whitespace that makes up all of `a` is dropped entirely. */
  lemma {:induction false} TrimStartSkipsBlank(a: string, b: string)
    requires AllWhitespace(a)
    ensures TrimStart(a + b) == TrimStart(b)
    decreases |a|
  {
    if |a| > 0 {
      assert (a + b)[0] == a[0];
      assert (a + b)[1..] == a[1..] + b;
      TrimStartSkipsBlank(a[1..], b);
    } else {
      assert a + b == b;
    }
  }

  /** Trailing whitespace that makes up all of `b` is dropped entirely. */
  lemma {:induction false} TrimEndSkipsBlank(a: string, b: string)
    requires AllWhitespace(b)
    ensures TrimEnd(a + b) == TrimEnd(a)
    decreases |b|
  {
    if |b| > 0 {
      var ab := a + b;
      assert ab[|ab| - 1] == b[|b| - 1];
      assert ab[..|ab| - 1] == a + b[..|b| - 1];
      TrimEndSkipsBlank(a, b[..|b| - 1]);
    } else {
      assert a + b == a;
    }
  }

  /** Removing trailing whitespace from `a + b`, where `b` holds a non-blank
      character, only touches `b`. */
  lemma {:induction false} TrimEndAppend(a: string, b: string)
    requires !AllWhitespace(b)
    ensures TrimEnd(a + b) == a + TrimEnd(b)
    decreases |b|
  {
    assert |b| > 0;
    var ab := a + b;
    assert ab[|ab| - 1] == b[|b| - 1];
    if IsWhitespace(b[|b| - 1]) {
      assert ab[..|ab| - 1] == a + b[..|b| - 1];
      assert !AllWhitespace(b[..|b| - 1]) by {
        var k :| 0 <= k < |b| && !IsWhitespace(b[k]);
        assert k < |b| - 1;
        assert b[..|b| - 1][k] == b[k];
      }
      TrimEndAppend(a, b[..|b| - 1]);
    }
  }
}
