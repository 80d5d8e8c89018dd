/**
 * The email check of the demo form, the regular expression
 * `^[^\s@]+@[^\s@]+\.[^\s@]+$` (no flags, so it matches UTF-16 code units),
 * and a plain description of the strings it accepts.
 */
module EmailPattern {
  import opened JsText

  /** `[^\s@]`: a code unit that is neither whitespace nor '@'. */
  predicate Plain(c: CodeUnit) {
    !IsWhitespace(c) && c != At
  }

  /** `[^\s@]+`: a non-empty run of plain code units. */
  predicate PlainRun(s: JsString) {
    |s| > 0 && forall i :: 0 <= i < |s| ==> Plain(s[i])
  }

  /**
   * The pattern matches with its '@' at index `a` and its `\.` at index `b`:
   * the three `[^\s@]+` runs are the pieces before, between and after them,
   * and `^ … $` makes the match cover all of `s`.
   */
  predicate MatchesAt(s: JsString, a: int, b: int) {
    0 <= a < b < |s| && s[a] == At && s[b] == Dot
    && PlainRun(s[..a]) && PlainRun(s[a + 1..b]) && PlainRun(s[b + 1..])
  }

  /** `/^[^\s@]+@[^\s@]+\.[^\s@]+$/.test(s)`: some choice of the two separators matches (backtracking tries them all). */
  predicate Matches(s: JsString) {
    exists a, b | 0 <= a < b < |s| :: MatchesAt(s, a, b)
  }

  /** `s[a]` is an '@' and no other code unit of `s` is. */
  predicate OnlyAtAt(s: JsString, a: int) {
    0 <= a < |s| && s[a] == At && forall i :: 0 <= i < |s| && i != a ==> s[i] != At
  }

  /** `s[b]` is a '.' after the '@' at `a`, with at least one code unit between them and one after it. */
  predicate DotInDomain(s: JsString, a: int, b: int) {
    0 <= a && a + 1 < b < |s| - 1 && s[b] == Dot
  }

  /**
   * The accepted shape in words: no whitespace; exactly one '@', not at the
   * start; after it, a '.' with at least one code unit on each side.
   */
  predicate EmailShaped(s: JsString) {
    NoWhitespace(s) && exists a, b | 0 < a < b < |s| :: OnlyAtAt(s, a) && DotInDomain(s, a, b)
  }

  /** The pattern accepts exactly the email-shaped strings. */
  lemma MatchesIff(s: JsString)
    ensures Matches(s) <==> EmailShaped(s)
  {
    if Matches(s) {
      var a, b :| MatchesAt(s, a, b);
      MatchesShaped(s, a, b);
    }
    if EmailShaped(s) {
      var a, b :| 0 < a < b < |s| && OnlyAtAt(s, a) && DotInDomain(s, a, b);
      ShapedMatches(s, a, b);
    }
  }

  lemma MatchesShaped(s: JsString, a: int, b: int)
    requires MatchesAt(s, a, b)
    ensures NoWhitespace(s) && 0 < a && OnlyAtAt(s, a) && DotInDomain(s, a, b)
  {
    var pre, mid, post := s[..a], s[a + 1..b], s[b + 1..];
    forall i | 0 <= i < |s|
      ensures !IsWhitespace(s[i]) && (i != a ==> s[i] != At)
    {
      if i < a {
        assert s[i] == pre[i];
      } else if a < i < b {
        assert s[i] == mid[i - (a + 1)];
      } else if b < i {
        assert s[i] == post[i - (b + 1)];
      }
    }
  }

  lemma ShapedMatches(s: JsString, a: int, b: int)
    requires NoWhitespace(s) && 0 < a && OnlyAtAt(s, a) && DotInDomain(s, a, b)
    ensures MatchesAt(s, a, b)
  {
    var pre, mid, post := s[..a], s[a + 1..b], s[b + 1..];
    forall i | 0 <= i < |pre| ensures Plain(pre[i]) {
      assert pre[i] == s[i];
    }
    forall i | 0 <= i < |mid| ensures Plain(mid[i]) {
      assert mid[i] == s[i + a + 1];
    }
    forall i | 0 <= i < |post| ensures Plain(post[i]) {
      assert post[i] == s[i + b + 1];
    }
  }
}
