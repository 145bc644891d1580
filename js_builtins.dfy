/** The few pieces of the JavaScript runtime that the components' logic
    relies on, written out because Dafny's own operators differ. */
module JsBuiltins {

  /** JavaScript's `a % n` for a positive divisor: the remainder truncates
      toward zero, so it carries the sign of `a` (Dafny's `%` is Euclidean). */
  function JsRem(a: int, n: int): (r: int)
    requires n > 0
    ensures -n < r < n
    ensures 0 <= a < n ==> r == a
    ensures n <= a < 2 * n ==> r == a - n
    ensures -n < a <= 0 ==> r == a
  {
    if a >= 0 then a % n else -((-a) % n)
  }

  /** `s.split(sep)[0]`: the text before the first `sep`, or all of `s`
      when `sep` does not occur (so `"".split(sep)[0] == ""`). */
  function SplitHead(s: string, sep: char): (p: string)
    ensures p <= s
    ensures sep !in p
    ensures |p| < |s| ==> s[|p|] == sep
    ensures sep !in s ==> p == s
  {
    if s == [] || s[0] == sep then [] else [s[0]] + SplitHead(s[1..], sep)
  }

  /** The three facts above determine `SplitHead` completely: any prefix
      of `s` that avoids `sep` and stops at the end or at a `sep` is it. */
  lemma {:induction false} SplitHeadUnique(s: string, sep: char, p: string)
    requires p <= s && sep !in p
    requires |p| == |s| || s[|p|] == sep
    ensures SplitHead(s, sep) == p
  {
    if p != [] {
      assert s[0] == p[0] && p[0] != sep;
      assert p[1..] <= s[1..];
      SplitHeadUnique(s[1..], sep, p[1..]);
    }
  }

  /** The class `\s` of JavaScript regular expressions: the ECMAScript
      WhiteSpace and LineTerminator code points. */
  predicate IsWhitespace(c: char)
  {
    || c == '\t' || c == '\n' || c == '\U{000B}' || c == '\U{000C}' || c == '\r'
    || c == ' ' || c == '\U{00A0}' || c == '\U{1680}'
    || ('\U{2000}' <= c <= '\U{200A}')
    || c == '\U{2028}' || c == '\U{2029}' || c == '\U{202F}' || c == '\U{205F}'
    || c == '\U{3000}' || c == '\U{FEFF}'
  }
}
