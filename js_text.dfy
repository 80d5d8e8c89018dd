/**
 * JavaScript strings as the form code sees them: sequences of UTF-16 code
 * units (`length` counts code units, and a regular expression without the
 * `u` flag matches code units), the whitespace that `trim()` removes and
 * `\s` matches, and `trim()` itself.
 */
module JsText {

  /** A UTF-16 code unit. */
  newtype CodeUnit = x: int | 0 <= x < 0x1_0000

  type JsString = seq<CodeUnit>

  const At: CodeUnit := 0x40   // '@'
  const Dot: CodeUnit := 0x2E  // '.'

  /**
   * ECMAScript WhiteSpace and LineTerminator code points (section 12.2 and
   * 12.3 of ECMA-262): tab, vertical tab, form feed, space, no-break space,
   * zero-width no-break space, the Unicode space separators, line feed,
   * carriage return, line separator and paragraph separator. `trim()` strips
   * these and `\s` matches exactly these.
   */
  predicate IsWhitespace(c: CodeUnit) {
    || c == 0x09 || c == 0x0B || c == 0x0C || c == 0x20 || c == 0xA0 || c == 0xFEFF
    || c == 0x1680 || (0x2000 <= c <= 0x200A) || c == 0x202F || c == 0x205F || c == 0x3000
    || c == 0x0A || c == 0x0D || c == 0x2028 || c == 0x2029
  }

  /** No code unit of `s` is whitespace. */
  predicate NoWhitespace(s: JsString) {
    forall i :: 0 <= i < |s| ==> !IsWhitespace(s[i])
  }

  /** Every code unit of `s` is whitespace (true of the empty string). */
  predicate AllWhitespace(s: JsString) {
    forall i :: 0 <= i < |s| ==> IsWhitespace(s[i])
  }

  /** `trimStart()`: the leading whitespace removed. */
  function TrimStart(s: JsString): JsString {
    if s != [] && IsWhitespace(s[0]) then TrimStart(s[1..]) else s
  }

  /** `trimEnd()`: the trailing whitespace removed. */
  function TrimEnd(s: JsString): JsString {
    if s != [] && IsWhitespace(s[|s| - 1]) then TrimEnd(s[..|s| - 1]) else s
  }

  /** What `trimStart` removes is all whitespace, and what it keeps is a suffix that starts with non-whitespace. */
  lemma {:induction false} TrimStartShape(s: JsString)
    ensures var r := TrimStart(s);
      && |r| <= |s| && r == s[|s| - |r|..]
      && AllWhitespace(s[..|s| - |r|])
      && (r != [] ==> !IsWhitespace(r[0]))
  {
    if s != [] && IsWhitespace(s[0]) {
      TrimStartShape(s[1..]);
      var r := TrimStart(s[1..]);
      assert s[1..][..|s[1..]| - |r|] == s[1..|s| - |r|];
    }
  }

  /** What `trimEnd` removes is all whitespace, and what it keeps is a prefix that ends with non-whitespace. */
  lemma {:induction false} TrimEndShape(s: JsString)
    ensures var r := TrimEnd(s);
      && |r| <= |s| && r == s[..|r|]
      && AllWhitespace(s[|r|..])
      && (r != [] ==> !IsWhitespace(r[|r| - 1]))
  {
    if s != [] && IsWhitespace(s[|s| - 1]) {
      TrimEndShape(s[..|s| - 1]);
      var r := TrimEnd(s[..|s| - 1]);
      assert s[..|s| - 1][..|r|] == s[..|r|];
      assert s[..|s| - 1][|r|..] == s[|r|..|s| - 1];
    }
  }

  /** `s.trim()` */
  function Trim(s: JsString): JsString {
    TrimEnd(TrimStart(s))
  }

  /** `!s.trim()`: the trimmed string is empty exactly when every code unit is whitespace. */
  lemma TrimEmptyIff(s: JsString)
    ensures Trim(s) == [] <==> AllWhitespace(s)
  {
    var t := TrimStart(s);
    var k := |s| - |t|;
    TrimStartShape(s);
    TrimEndShape(t);
    if Trim(s) == [] {
      assert t[|Trim(s)|..] == t;
      assert t == [];
      forall i | 0 <= i < |s|
        ensures IsWhitespace(s[i])
      {
        assert s[..k][i] == s[i];
      }
    } else {
      assert t != [] && !IsWhitespace(t[0]) && t[0] == s[k];
    }
  }

  /**
   * A non-empty trimmed string starts and ends with non-whitespace and is
   * the slice of `s` after its leading whitespace.
   */
  lemma TrimSlice(s: JsString)
    ensures |Trim(s)| <= |TrimStart(s)| <= |s|
    ensures var k := |s| - |TrimStart(s)|;
      k + |Trim(s)| <= |s| && Trim(s) == s[k..k + |Trim(s)|]
    ensures Trim(s) != [] ==> !IsWhitespace(Trim(s)[0]) && !IsWhitespace(Trim(s)[|Trim(s)| - 1])
  {
    var t := TrimStart(s);
    var r := TrimEnd(t);
    var k := |s| - |t|;
    TrimStartShape(s);
    TrimEndShape(t);
    assert r == t[..|r|] == s[k..][..|r|] == s[k..k + |r|];
    if r != [] {
      assert r[0] == t[0];
    }
  }
}
