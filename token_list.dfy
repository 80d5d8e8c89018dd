/**
 * The `[...].filter(Boolean).join(' ')` idiom the form components use to
 * build class lists and `aria-describedby`, and the way a browser reads such
 * an attribute back: split on ASCII whitespace, empty pieces ignored (how
 * the HTML Living Standard reads the space-separated tokens of `class` and
 * of id-reference attributes).
 *
 * A falsy entry of the JavaScript array (`false`, `undefined`, `''`) is
 * modelled as the empty string: all three are dropped by `filter(Boolean)`.
 */
module TokenList {

  /** ASCII whitespace: tab, line feed, form feed, carriage return and space. */
  predicate IsAsciiSpace(c: char) {
    c == '\t' || c == '\n' || c == '\U{000C}' || c == '\r' || c == ' '
  }

  /** No character of `s` is ASCII whitespace. */
  predicate NoAsciiSpace(s: string) {
    forall i :: 0 <= i < |s| ==> !IsAsciiSpace(s[i])
  }

  /** A string the browser reads as exactly one class name or id reference. */
  predicate IsToken(s: string) {
    s != [] && NoAsciiSpace(s)
  }

  /** `filter(Boolean)` on strings: keep the non-empty entries, in order. */
  function Compact(parts: seq<string>): (r: seq<string>)
    ensures |r| <= |parts|
    ensures forall i :: 0 <= i < |r| ==> r[i] != ""
    ensures forall w :: w in r <==> w in parts && w != ""
  {
    if parts == [] then []
    else (if parts[0] == "" then [] else [parts[0]]) + Compact(parts[1..])
  }

  /** `join(' ')`: the entries separated by single spaces. */
  function Join(ws: seq<string>): string
    decreases |ws|
  {
    if ws == [] then ""
    else if |ws| == 1 then ws[0]
    else ws[0] + " " + Join(ws[1..])
  }

  /**
   * `parts.filter(Boolean).join(' ')`, entry by entry: an empty entry is
   * skipped, and a kept entry is followed by a space exactly when a later
   * entry is kept too.
   */
  function Build(parts: seq<string>): string {
    if parts == [] then ""
    else if parts[0] == "" then Build(parts[1..])
    else
      var tail := Build(parts[1..]);
      if tail == "" then parts[0] else parts[0] + " " + tail
  }

  /** `Build` is `filter(Boolean)` followed by `join(' ')`. */
  lemma {:induction false} BuildIsJoinCompact(parts: seq<string>)
    ensures Build(parts) == Join(Compact(parts))
    decreases |parts|
  {
    if parts != [] {
      BuildIsJoinCompact(parts[1..]);
      var c := Compact(parts[1..]);
      if parts[0] == "" {
        assert Compact(parts) == c;
      } else {
        assert Compact(parts) == [parts[0]] + c;
        if c == [] {
          assert Join([parts[0]]) == parts[0];
        } else {
          JoinNonEmpty(c);
          assert ([parts[0]] + c)[1..] == c;
          assert Join([parts[0]] + c) == parts[0] + " " + Join(c);
        }
      }
    }
  }

  /** The pieces between single ASCII whitespace characters, empty ones included. */
  function Split(s: string): (r: seq<string>)
    ensures |r| >= 1
  {
    if s == [] then [""]
    else
      var rest := Split(s[1..]);
      if IsAsciiSpace(s[0]) then [""] + rest
      else [[s[0]] + rest[0]] + rest[1..]
  }

  /** The tokens a browser reads from an attribute value such as `class`. */
  function Words(s: string): seq<string> {
    Compact(Split(s))
  }

  /** The tokens of each part, concatenated in order. */
  function WordsOfAll(parts: seq<string>): seq<string> {
    if parts == [] then [] else Words(parts[0]) + WordsOfAll(parts[1..])
  }

  /** `[s]` when `b` holds, else `[]`: the `b && s` entry of a class array. */
  function When(b: bool, s: string): seq<string> {
    if b then [s] else []
  }

  /** No leading, trailing or doubled space. */
  predicate WellFormed(s: string) {
    && (s != [] ==> s[0] != ' ' && s[|s| - 1] != ' ')
    && forall i :: 0 <= i < |s| - 1 ==> !(s[i] == ' ' && s[i + 1] == ' ')
  }

  lemma {:induction false} SplitAppend(a: string, b: string)
    ensures Split(a + " " + b) == Split(a) + Split(b)
    decreases |a|
  {
    if a == [] {
      assert a + " " + b == [' '] + b;
      assert (a + " " + b)[1..] == b;
    } else {
      assert (a + " " + b)[1..] == a[1..] + " " + b;
      SplitAppend(a[1..], b);
    }
  }

  lemma {:induction false} CompactAppend(x: seq<string>, y: seq<string>)
    ensures Compact(x + y) == Compact(x) + Compact(y)
    decreases |x|
  {
    if x == [] {
      assert x + y == y;
    } else {
      assert (x + y)[1..] == x[1..] + y;
      CompactAppend(x[1..], y);
    }
  }

  /** A string without ASCII whitespace splits into itself alone. */
  lemma {:induction false} SplitSpaceFree(s: string)
    requires NoAsciiSpace(s)
    ensures Split(s) == [s]
    decreases |s|
  {
    if s != [] {
      assert !IsAsciiSpace(s[0]);
      assert forall i :: 0 <= i < |s[1..]| ==> s[1..][i] == s[i + 1];
      SplitSpaceFree(s[1..]);
      assert [s[0]] + s[1..] == s;
    }
  }

  lemma WordsOfToken(s: string)
    requires IsToken(s)
    ensures Words(s) == [s]
  {
    SplitSpaceFree(s);
  }

  lemma WordsOfEmpty()
    ensures Words("") == []
  {
  }

  /** Joining and re-reading loses nothing: the tokens of a joined list are the tokens of its entries. */
  lemma {:induction false} WordsJoin(ws: seq<string>)
    ensures Words(Join(ws)) == WordsOfAll(ws)
    decreases |ws|
  {
    if ws == [] {
    } else if |ws| == 1 {
      assert WordsOfAll(ws[1..]) == [];
    } else {
      SplitAppend(ws[0], Join(ws[1..]));
      CompactAppend(Split(ws[0]), Split(Join(ws[1..])));
      WordsJoin(ws[1..]);
    }
  }

  lemma {:induction false} WordsOfAllCompact(parts: seq<string>)
    ensures WordsOfAll(Compact(parts)) == WordsOfAll(parts)
    decreases |parts|
  {
    if parts != [] {
      WordsOfAllCompact(parts[1..]);
      if parts[0] == "" {
        WordsOfEmpty();
        assert Compact(parts) == Compact(parts[1..]);
        assert Words(parts[0]) == [];
      } else {
        assert Compact(parts) == [parts[0]] + Compact(parts[1..]);
        assert ([parts[0]] + Compact(parts[1..]))[1..] == Compact(parts[1..]);
      }
    }
  }

  lemma {:induction false} WordsOfAllAppend(x: seq<string>, y: seq<string>)
    ensures WordsOfAll(x + y) == WordsOfAll(x) + WordsOfAll(y)
    decreases |x|
  {
    if x == [] {
      assert x + y == y;
    } else {
      assert (x + y)[1..] == x[1..] + y;
      WordsOfAllAppend(x[1..], y);
    }
  }

  /**
   * The browser reads back from `filter(Boolean).join(' ')` exactly the
   * tokens of the entries, in order: nothing is lost, merged or invented.
   */
  lemma WordsBuild(parts: seq<string>)
    ensures Words(Build(parts)) == WordsOfAll(parts)
  {
    BuildIsJoinCompact(parts);
    WordsJoin(Compact(parts));
    WordsOfAllCompact(parts);
  }

  /** The tokens of a list of tokens are the list itself. */
  lemma {:induction false} WordsOfAllTokens(ws: seq<string>)
    requires forall i :: 0 <= i < |ws| ==> IsToken(ws[i])
    ensures WordsOfAll(ws) == ws
    decreases |ws|
  {
    if ws != [] {
      WordsOfToken(ws[0]);
      WordsOfAllTokens(ws[1..]);
    }
  }

  /** `When(b, s)` for a token contributes that token exactly when `b`. */
  lemma WordsOfAllWhen(b: bool, s: string)
    requires IsToken(s)
    ensures WordsOfAll([if b then s else ""]) == When(b, s)
  {
    WordsOfToken(s);
    WordsOfEmpty();
  }

  /** The result is empty exactly when every entry is. */
  lemma {:induction false} BuildEmptyIff(parts: seq<string>)
    ensures Build(parts) == "" <==> forall i :: 0 <= i < |parts| ==> parts[i] == ""
  {
    BuildIsJoinCompact(parts);
    var c := Compact(parts);
    if c != [] {
      assert c[0] in parts;
      JoinNonEmpty(c);
    } else {
      forall i | 0 <= i < |parts|
        ensures parts[i] == ""
      {
        assert parts[i] in parts;
      }
    }
  }

  /** Joining non-empty entries, at least one, gives a non-empty string. */
  lemma {:induction false} JoinNonEmpty(ws: seq<string>)
    requires ws != [] && forall i :: 0 <= i < |ws| ==> ws[i] != ""
    ensures Join(ws) != ""
    ensures Join(ws)[0] == ws[0][0]
    ensures Join(ws)[|Join(ws)| - 1] == ws[|ws| - 1][|ws[|ws| - 1]| - 1]
    decreases |ws|
  {
    if |ws| > 1 {
      JoinNonEmpty(ws[1..]);
    }
  }

  lemma ConcatWellFormed(a: string, b: string)
    requires a != [] && b != [] && WellFormed(a) && WellFormed(b)
    ensures WellFormed(a + " " + b)
  {
    var s := a + " " + b;
    forall i | 0 <= i < |s| - 1
      ensures !(s[i] == ' ' && s[i + 1] == ' ')
    {
      if i < |a| - 1 {
        assert s[i] == a[i] && s[i + 1] == a[i + 1];
      } else if i == |a| - 1 {
        assert s[i] == a[|a| - 1];
      } else if i == |a| {
        assert s[i + 1] == b[0];
      } else {
        assert s[i] == b[i - |a| - 1] && s[i + 1] == b[i - |a|];
      }
    }
  }

  lemma {:induction false} JoinWellFormed(ws: seq<string>)
    requires forall i :: 0 <= i < |ws| ==> ws[i] != "" && WellFormed(ws[i])
    ensures WellFormed(Join(ws))
    decreases |ws|
  {
    if |ws| > 1 {
      JoinWellFormed(ws[1..]);
      JoinNonEmpty(ws[1..]);
      ConcatWellFormed(ws[0], Join(ws[1..]));
    }
  }

  /** Entries without stray spaces give a list without leading, trailing or doubled spaces. */
  lemma BuildWellFormed(parts: seq<string>)
    requires forall i :: 0 <= i < |parts| ==> WellFormed(parts[i])
    ensures WellFormed(Build(parts))
  {
    BuildIsJoinCompact(parts);
    var c := Compact(parts);
    forall i | 0 <= i < |c|
      ensures c[i] != "" && WellFormed(c[i])
    {
      assert c[i] in parts;
    }
    JoinWellFormed(c);
  }

  /** A two-entry list: the exact string for each combination of present entries. */
  lemma BuildTwo(a: string, b: string)
    ensures Build([a, b]) == (if a == "" then b else if b == "" then a else a + " " + b)
  {
    assert [a, b][1..] == [b];
    assert [b][1..] == [];
    assert Build([b]) == b;
  }

  /** The tokens of an array with a first entry: that entry's, then the rest's. */
  lemma WordsOfAllCons(a: string, rest: seq<string>)
    ensures WordsOfAll([a] + rest) == Words(a) + WordsOfAll(rest)
  {
    assert ([a] + rest)[1..] == rest;
  }

  /** The tokens of a two-entry array, entry by entry. */
  lemma WordsOfBuild2(a: string, b: string)
    ensures Words(Build([a, b])) == Words(a) + Words(b)
  {
    WordsBuild([a, b]);
    assert [a, b] == [a] + [b];
    WordsOfAllCons(a, [b]);
    WordsOfAllCons(b, []);
  }

  /** The tokens of a built array with a first entry: that entry's, then those of the rest built on its own. */
  lemma WordsOfBuildCons(a: string, rest: seq<string>)
    ensures Words(Build([a] + rest)) == Words(a) + Words(Build(rest))
  {
    WordsBuild([a] + rest);
    WordsBuild(rest);
    WordsOfAllCons(a, rest);
  }

  lemma AppendAssoc(x: seq<string>, y: seq<string>, z: seq<string>)
    ensures x + (y + z) == x + y + z
  {
  }

  /** The tokens of a three-entry array, entry by entry. */
  lemma WordsOfBuild3(a: string, b: string, c: string)
    ensures Words(Build([a, b, c])) == Words(a) + Words(b) + Words(c)
  {
    assert [a, b, c] == [a] + [b, c];
    WordsOfBuildCons(a, [b, c]);
    WordsOfBuild2(b, c);
    AppendAssoc(Words(a), Words(b), Words(c));
  }

  /** The tokens of a four-entry array, entry by entry. */
  lemma WordsOfBuild4(a: string, b: string, c: string, d: string)
    ensures Words(Build([a, b, c, d])) == Words(a) + Words(b) + Words(c) + Words(d)
  {
    assert [a, b, c, d] == [a] + [b, c, d];
    WordsOfBuildCons(a, [b, c, d]);
    WordsOfBuild3(b, c, d);
    AppendAssoc(Words(a), Words(b) + Words(c), Words(d));
    AppendAssoc(Words(a), Words(b), Words(c));
  }

  /** The tokens of a five-entry array, entry by entry. */
  lemma WordsOfBuild5(a: string, b: string, c: string, d: string, e: string)
    ensures Words(Build([a, b, c, d, e])) == Words(a) + Words(b) + Words(c) + Words(d) + Words(e)
  {
    assert [a, b, c, d, e] == [a] + [b, c, d, e];
    WordsOfBuildCons(a, [b, c, d, e]);
    WordsOfBuild4(b, c, d, e);
    AppendAssoc(Words(a), Words(b) + Words(c) + Words(d), Words(e));
    AppendAssoc(Words(a), Words(b) + Words(c), Words(d));
    AppendAssoc(Words(a), Words(b), Words(c));
  }

  /** A token has no space at all, so in particular no stray one. */
  lemma WellFormedToken(s: string)
    requires IsToken(s)
    ensures WellFormed(s)
  {
    assert !IsAsciiSpace(s[0]) && !IsAsciiSpace(s[|s| - 1]);
    forall i | 0 <= i < |s| - 1
      ensures !(s[i] == ' ' && s[i + 1] == ' ')
    {
      assert !IsAsciiSpace(s[i]);
    }
  }

  /** A class array that starts with a token: its words, entry by entry, and no stray spaces. */
  lemma ClassListOfTwo(a: string, b: string)
    requires IsToken(a)
    ensures Words(Build([a, b])) == [a] + Words(b)
    ensures WellFormed(b) ==> WellFormed(Build([a, b]))
  {
    WordsOfBuild2(a, b);
    WordsOfToken(a);
    WellFormedToken(a);
    if WellFormed(b) {
      BuildWellFormed([a, b]);
    }
  }

  lemma ClassListOfThree(a: string, b: string, c: string)
    requires IsToken(a)
    ensures Words(Build([a, b, c])) == [a] + Words(b) + Words(c)
    ensures WellFormed(b) && WellFormed(c) ==> WellFormed(Build([a, b, c]))
  {
    WordsOfBuild3(a, b, c);
    WordsOfToken(a);
    WellFormedToken(a);
    if WellFormed(b) && WellFormed(c) {
      BuildWellFormed([a, b, c]);
    }
  }

  lemma ClassListOfFour(a: string, b: string, c: string, d: string)
    requires IsToken(a)
    ensures Words(Build([a, b, c, d])) == [a] + Words(b) + Words(c) + Words(d)
    ensures WellFormed(b) && WellFormed(c) && WellFormed(d) ==> WellFormed(Build([a, b, c, d]))
  {
    WordsOfBuild4(a, b, c, d);
    WordsOfToken(a);
    WellFormedToken(a);
    if WellFormed(b) && WellFormed(c) && WellFormed(d) {
      BuildWellFormed([a, b, c, d]);
    }
  }

  lemma ClassListOfFive(a: string, b: string, c: string, d: string, e: string)
    requires IsToken(a)
    ensures Words(Build([a, b, c, d, e])) == [a] + Words(b) + Words(c) + Words(d) + Words(e)
    ensures WellFormed(b) && WellFormed(c) && WellFormed(d) && WellFormed(e) ==>
      WellFormed(Build([a, b, c, d, e]))
  {
    WordsOfBuild5(a, b, c, d, e);
    WordsOfToken(a);
    WellFormedToken(a);
    if WellFormed(b) && WellFormed(c) && WellFormed(d) && WellFormed(e) {
      BuildWellFormed([a, b, c, d, e]);
    }
  }

  /** The entry `flag && name` of a class array. */
  function Entry(flag: bool, name: string): string {
    if flag then name else ""
  }

  /** For a token `name`, the entry `flag && name` reads as `name` exactly when `flag`. */
  lemma EntryWords(flag: bool, name: string)
    requires IsToken(name)
    ensures Words(Entry(flag, name)) == When(flag, name) && WellFormed(Entry(flag, name))
  {
    WordsOfToken(name);
    if !flag {
      WordsOfEmpty();
    }
  }
}
