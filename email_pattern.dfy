/** The email test `/\S+@\S+\.\S+/.test(s)` shared by the booking form and
    the newsletter form. `test` searches for the pattern anywhere in `s`
    (the expression is not anchored), so a match is a choice of positions. */
module EmailPattern {
  import opened JsBuiltins

  /** The pattern matches with its `@` at index `a` and its `.` at index `d`:
      one non-whitespace character before `@` is enough for the first `\S+`,
      every character strictly between `@` and `.` is non-whitespace (at
      least one of them), and the `.` is followed by a non-whitespace one. */
  predicate MatchAt(s: string, a: int, d: int)
  {
    && 1 <= a && a + 1 < d && d + 1 < |s|
    && s[a] == '@' && !IsWhitespace(s[a - 1])
    && s[d] == '.' && !IsWhitespace(s[d + 1])
    && forall i | a < i < d :: !IsWhitespace(s[i])
  }

  /** `/\S+@\S+\.\S+/.test(s)`. */
  predicate Matches(s: string)
  {
    exists a, d | 0 <= a < |s| && 0 <= d < |s| :: MatchAt(s, a, d)
  }

  predicate NoWhitespace(s: string)
  {
    forall i | 0 <= i < |s| :: !IsWhitespace(s[i])
  }

  /** The search is unanchored: text around a matching string keeps it matching. */
  lemma MatchesInContext(p: string, s: string, q: string)
    requires Matches(s)
    ensures Matches(p + s + q)
  {
    var a, d :| 0 <= a < |s| && 0 <= d < |s| && MatchAt(s, a, d);
    var t := p + s + q;
    forall i | 0 <= i < |s| ensures t[|p| + i] == s[i] { }
    assert MatchAt(t, |p| + a, |p| + d);
  }

  /** A whitespace-free stretch of `s` from `i` to `j` on which the pattern matches. */
  predicate TokenMatches(s: string, i: int, j: int)
  {
    0 <= i <= j <= |s| && NoWhitespace(s[i..j]) && Matches(s[i..j])
  }

  /** A match never spans whitespace: `s` matches exactly when one of its
      whitespace-free stretches does. */
  lemma MatchLiesInOneToken(s: string)
    ensures Matches(s) <==> exists i, j :: TokenMatches(s, i, j)
  {
    if Matches(s) {
      var a, d :| 0 <= a < |s| && 0 <= d < |s| && MatchAt(s, a, d);
      var i, j := a - 1, d + 2;
      var t := s[i..j];
      forall k | 0 <= k < |t| ensures !IsWhitespace(t[k]) {
        assert t[k] == s[i + k];
      }
      assert MatchAt(t, 1, d - a + 1);
      assert TokenMatches(s, i, j);
    }
    if exists i, j :: TokenMatches(s, i, j) {
      var i, j :| TokenMatches(s, i, j);
      MatchesInContext(s[..i], s[i..j], s[j..]);
      assert s[..i] + s[i..j] + s[j..] == s;
    }
  }

  /** A match needs an `@` preceded by something and a `.` after it, so
      strings shorter than five characters never match. */
  lemma MatchNeedsAtThenDot(s: string)
    requires Matches(s)
    ensures exists a, d :: 1 <= a < d < |s| - 1 && s[a] == '@' && s[d] == '.'
    ensures |s| >= 5
  {
    var a, d :| 0 <= a < |s| && 0 <= d < |s| && MatchAt(s, a, d);
    assert 1 <= a < d < |s| - 1 && s[a] == '@' && s[d] == '.';
  }

  /** A value made only of whitespace is non-empty yet never matches. */
  lemma WhitespaceNeverMatches(s: string)
    requires forall i | 0 <= i < |s| :: IsWhitespace(s[i])
    ensures !Matches(s)
  {
  }

  /** Concrete cases: a plain address matches, and so does one inside other text. */
  lemma ExamplesThatMatch()
    ensures Matches("jane@example.com")
    ensures Matches("mail: jane@example.com please")
  {
    var s := "jane@example.com";
    assert s[4] == '@' && s[12] == '.' && !IsWhitespace(s[3]) && !IsWhitespace(s[13]);
    assert forall i | 4 < i < 12 :: !IsWhitespace(s[i]);
    assert MatchAt(s, 4, 12);
    var t := "mail: jane@example.com please";
    assert t == "mail: " + s + " please";
    MatchesInContext("mail: ", s, " please");
  }

  /** A missing `@` fails. */
  lemma ExampleWithoutAt()
    ensures !Matches("not-an-email")
  {
    var s := "not-an-email";
    assert forall i | 0 <= i < |s| :: s[i] != '@';
  }

  /** A missing `.` after the `@` fails. */
  lemma ExampleWithoutDot()
    ensures !Matches("jane@example")
  {
    var t := "jane@example";
    assert forall i | 0 <= i < |t| :: t[i] != '.';
  }

  /** A space just before the `@` fails. */
  lemma ExampleSpaceBeforeAt()
    ensures !Matches("jane @example.com")
  {
    var u := "jane @example.com";
    assert forall i | 0 <= i < |u| && i != 5 :: u[i] != '@';
    assert IsWhitespace(u[4]);
  }
}
