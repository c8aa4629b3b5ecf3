/**
 * String operations the calculator applies to its equation: JavaScript's `trim()` and
 * `includes()`, the sanitising regular-expression replace, and the shape that equations
 * typed through the handlers always have (every `/` is followed by a space).
 */
module Text {

  /** The characters JavaScript's `String.prototype.trim` removes (WhiteSpace and LineTerminator). */
  predicate IsJsWhitespace(c: char)
  {
    c == ' ' || c == '\t' || c == '\n' || c == '\r' || c == '\U{B}' || c == '\U{C}' ||
    c == '\U{A0}' || c == '\U{FEFF}' || c == '\U{1680}' || ('\U{2000}' <= c <= '\U{200A}') ||
    c == '\U{2028}' || c == '\U{2029}' || c == '\U{202F}' || c == '\U{205F}' || c == '\U{3000}'
  }

  /** Drops leading whitespace. */
  function TrimStart(s: string): (r: string)
  {
    if s != [] && IsJsWhitespace(s[0]) then TrimStart(s[1..]) else s
  }

  /** Drops trailing whitespace. */
  function TrimEnd(s: string): (r: string)
  {
    if s != [] && IsJsWhitespace(s[|s| - 1]) then TrimEnd(s[..|s| - 1]) else s
  }

  /** JavaScript's `s.trim()`. */
  function Trim(s: string): string
  {
    TrimEnd(TrimStart(s))
  }

  /** `!s.trim()`: the trimmed string is the empty, falsy, string. */
  predicate IsBlank(s: string)
  {
    Trim(s) == ""
  }

  lemma {:induction false} TrimStartEmpty(s: string)
    ensures TrimStart(s) == "" <==> forall i :: 0 <= i < |s| ==> IsJsWhitespace(s[i])
  {
    if s != [] && IsJsWhitespace(s[0]) {
      TrimStartEmpty(s[1..]);
      assert forall i :: 1 <= i < |s| ==> s[i] == s[1..][i - 1];
    }
  }

  /** An equation is blank exactly when every one of its characters is whitespace. */
  lemma BlankIffAllWhitespace(s: string)
    ensures IsBlank(s) <==> forall i :: 0 <= i < |s| ==> IsJsWhitespace(s[i])
  {
    var t := TrimStart(s);
    TrimStartEmpty(s);
    TrimStartFront(s);
    if t != [] {
      // TrimEnd keeps the first character, which is not whitespace.
      var u := TrimEnd(t);
      assert u != [] by { TrimEndKeepsNonBlank(t); }
    }
  }

  lemma {:induction false} TrimStartFront(s: string)
    ensures TrimStart(s) != [] ==> !IsJsWhitespace(TrimStart(s)[0])
  {
    if s != [] && IsJsWhitespace(s[0]) {
      TrimStartFront(s[1..]);
    }
  }

  lemma {:induction false} TrimEndKeepsNonBlank(t: string)
    requires t != [] && !IsJsWhitespace(t[0])
    ensures TrimEnd(t) != []
  {
    if IsJsWhitespace(t[|t| - 1]) {
      assert |t| > 1;
      TrimEndKeepsNonBlank(t[..|t| - 1]);
    }
  }

  /** JavaScript's `s.includes(sub)`: `sub` occurs in `s` at some position. */
  predicate Contains(s: string, sub: string)
    decreases |s|
  {
    sub <= s || (s != [] && Contains(s[1..], sub))
  }

  /** `sub` occurs in `s` starting at index `i`. */
  predicate OccursAt(s: string, sub: string, i: int)
  {
    0 <= i && i + |sub| <= |s| && s[i..i + |sub|] == sub
  }

  /** The recursive `Contains` agrees with the positional definition of an occurrence. */
  lemma {:induction false} ContainsAt(s: string, sub: string)
    ensures Contains(s, sub) <==> exists i :: OccursAt(s, sub, i)
    decreases |s|
  {
    if sub <= s {
      assert OccursAt(s, sub, 0);
    } else {
      assert !OccursAt(s, sub, 0);
      if s != [] {
        ContainsAt(s[1..], sub);
        if exists i :: OccursAt(s, sub, i) {
          var i :| OccursAt(s, sub, i);
          assert s[1..][i - 1..i - 1 + |sub|] == s[i..i + |sub|];
          assert OccursAt(s[1..], sub, i - 1);
        }
        if Contains(s[1..], sub) {
          var j :| OccursAt(s[1..], sub, j);
          assert s[1..][j..j + |sub|] == s[j + 1..j + 1 + |sub|];
          assert OccursAt(s, sub, j + 1);
        }
      }
    }
  }

  // The characters the sanitiser keeps: those of the class `[-()\d/*+.]` (`\d` is ASCII `0-9`).
  predicate IsAllowed(c: char)
  {
    c == '-' || c == '(' || c == ')' || ('0' <= c <= '9') || c == '/' || c == '*' || c == '+' || c == '.'
  }

  /** `t` is `s` with some characters deleted, the rest kept in order. */
  predicate IsSubsequence(t: string, s: string)
    decreases |s|
  {
    if t == [] then true
    else if s == [] then false
    else (t[0] == s[0] && IsSubsequence(t[1..], s[1..])) || IsSubsequence(t, s[1..])
  }

  // `s.replace(/[^-()\d/*+.]/g, '')`: every character outside the allowed class is deleted.
  function Sanitize(s: string): string
  {
    if s == [] then []
    else if IsAllowed(s[0]) then [s[0]] + Sanitize(s[1..])
    else Sanitize(s[1..])
  }

  /**
   * The sanitiser deletes characters and never reorders them, leaves only allowed characters,
   * and keeps every copy of every allowed character.
   */
  lemma {:induction false} SanitizeSpec(s: string)
    ensures IsSubsequence(Sanitize(s), s)
    ensures forall i :: 0 <= i < |Sanitize(s)| ==> IsAllowed(Sanitize(s)[i])
    ensures forall c :: IsAllowed(c) ==> multiset(Sanitize(s))[c] == multiset(s)[c]
  {
    if s != [] {
      SanitizeSpec(s[1..]);
      assert s == [s[0]] + s[1..];
    }
  }

  /** A subsequence never holds more copies of a character than the string it is taken from. */
  lemma {:induction false} SubsequenceCounts(t: string, s: string)
    requires IsSubsequence(t, s)
    ensures multiset(t) <= multiset(s)
    decreases |s|
  {
    if t != [] {
      assert s == [s[0]] + s[1..];
      if t[0] == s[0] && IsSubsequence(t[1..], s[1..]) {
        SubsequenceCounts(t[1..], s[1..]);
        assert t == [t[0]] + t[1..];
      } else {
        SubsequenceCounts(t, s[1..]);
      }
    }
  }

  /**
   * The sanitiser's result is the only string that is a subsequence of the input, holds only
   * allowed characters and keeps every allowed character of the input: it deletes exactly the
   * disallowed characters and keeps the rest in their original order.
   */
  lemma {:induction false} SanitizeIsUnique(s: string, t: string)
    requires IsSubsequence(t, s)
    requires forall i :: 0 <= i < |t| ==> IsAllowed(t[i])
    requires forall c :: IsAllowed(c) ==> multiset(t)[c] == multiset(s)[c]
    ensures t == Sanitize(s)
    decreases |s|
  {
    if s == [] {
      assert t == [];
    } else {
      var c := s[0];
      assert s == [c] + s[1..];
      if IsAllowed(c) {
        // t holds c, so it cannot be a subsequence of s[1..], which holds one copy fewer.
        assert t != [] by { assert c in multiset(s); }
        assert t == [t[0]] + t[1..];
        if IsSubsequence(t, s[1..]) {
          SubsequenceCounts(t, s[1..]);
          assert false;
        }
        assert t[0] == c && IsSubsequence(t[1..], s[1..]);
        SanitizeIsUnique(s[1..], t[1..]);
      } else {
        if t != [] {
          assert t[0] != c by { assert IsAllowed(t[0]); }
        }
        assert IsSubsequence(t, s[1..]);
        SanitizeIsUnique(s[1..], t);
      }
    }
  }

  /** A string of allowed characters passes the sanitiser unchanged. */
  lemma {:induction false} SanitizeKeepsAllowed(s: string)
    requires forall i :: 0 <= i < |s| ==> IsAllowed(s[i])
    ensures Sanitize(s) == s
  {
    if s != [] {
      SanitizeKeepsAllowed(s[1..]);
    }
  }

  /** Sanitising twice is sanitising once. */
  lemma SanitizeIdempotent(s: string)
    ensures Sanitize(Sanitize(s)) == Sanitize(s)
  {
    SanitizeSpec(s);
    SanitizeKeepsAllowed(Sanitize(s));
  }

  /** Every `/` in `s` is immediately followed by a space. */
  predicate SlashesSpaced(s: string)
  {
    forall i :: 0 <= i < |s| && s[i] == '/' ==> i + 1 < |s| && s[i + 1] == ' '
  }

  /** Joining two strings whose slashes are spaced gives one whose slashes are spaced. */
  lemma SlashesSpacedAppend(a: string, b: string)
    requires SlashesSpaced(a) && SlashesSpaced(b)
    ensures SlashesSpaced(a + b)
  {
    forall i | 0 <= i < |a + b| && (a + b)[i] == '/'
      ensures i + 1 < |a + b| && (a + b)[i + 1] == ' '
    {
      if i < |a| {
        assert a[i] == '/';
      } else {
        assert b[i - |a|] == '/';
      }
    }
  }

  /** A string with no `/` at all trivially has its slashes spaced. */
  lemma SlashFreeIsSpaced(s: string)
    requires '/' !in s
    ensures SlashesSpaced(s)
  {
  }

  /** An equation whose slashes are all followed by a space never includes the text `/0`. */
  lemma {:induction false} SlashesSpacedExcludesDivZero(s: string)
    requires SlashesSpaced(s)
    ensures !Contains(s, "/0")
    decreases |s|
  {
    if s != [] {
      assert SlashesSpaced(s[1..]) by {
        forall i | 0 <= i < |s[1..]| && s[1..][i] == '/'
          ensures i + 1 < |s[1..]| && s[1..][i + 1] == ' '
        {
          assert s[i + 1] == '/';
        }
      }
      SlashesSpacedExcludesDivZero(s[1..]);
      assert !("/0" <= s) by {
        if |s| >= 2 && s[0] == '/' {
          assert s[1] == ' ';
        }
      }
    }
  }
}
