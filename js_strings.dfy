/**
 * String trimming as JavaScript performs it: removal of the longest run of characters from
 * a given class at one end of a string. `String.prototype.trim` is the case of the
 * ECMAScript white-space and line-terminator characters at both ends.
 */
module JsStrings {
  import opened JsArrays

  /** The characters `String.prototype.trim` removes: the ECMAScript WhiteSpace code points
      (TAB, VT, FF, SPACE, NO-BREAK SPACE, ZERO WIDTH NO-BREAK SPACE and the Unicode space
      separators U+1680, U+2000 to U+200A, U+202F, U+205F, U+3000) and the LineTerminator
      code points (LF, CR, U+2028, U+2029). TAB, LF, VT, FF and CR are U+0009 to U+000D. */
  predicate IsWhitespace(c: char) {
    ('\t' <= c <= '\r') || c == ' ' || c == '\U{00A0}' || c == '\U{1680}'
    || ('\U{2000}' <= c <= '\U{200A}') || c == '\U{2028}' || c == '\U{2029}'
    || c == '\U{202F}' || c == '\U{205F}' || c == '\U{3000}' || c == '\U{FEFF}'
  }

  /** `s` without its longest prefix of characters satisfying `drop`. */
  function TrimStart(s: string, drop: char -> bool): (r: string)
    ensures |r| <= |s| && r == s[|s| - |r|..]
    ensures forall i :: 0 <= i < |s| - |r| ==> drop(s[i])
    ensures r == [] || !drop(r[0])
    decreases |s|
  {
    if |s| > 0 && drop(s[0]) then TrimStart(s[1..], drop) else s
  }

  /** `s` without its longest suffix of characters satisfying `drop`. */
  function TrimEnd(s: string, drop: char -> bool): (r: string)
    ensures |r| <= |s| && r == s[..|r|]
    ensures forall i :: |r| <= i < |s| ==> drop(s[i])
    ensures r == [] || !drop(r[|r| - 1])
    decreases |s|
  {
    if |s| > 0 && drop(s[|s| - 1]) then TrimEnd(s[..|s| - 1], drop) else s
  }

  /** `s.trim()`. */
  function Trim(s: string): string {
    TrimEnd(TrimStart(s, IsWhitespace), IsWhitespace)
  }

  /** TrimStart is the only suffix of `s` that removes characters satisfying `drop` alone and
      does not start with one. */
  lemma TrimStartUnique(s: string, drop: char -> bool, r: string)
    requires |r| <= |s| && r == s[|s| - |r|..]
    requires forall i :: 0 <= i < |s| - |r| ==> drop(s[i])
    requires r == [] || !drop(r[0])
    ensures r == TrimStart(s, drop)
  {
  }

  /** TrimEnd is the only prefix of `s` that removes characters satisfying `drop` alone and does
      not end with one. */
  lemma TrimEndUnique(s: string, drop: char -> bool, r: string)
    requires |r| <= |s| && r == s[..|r|]
    requires forall i :: |r| <= i < |s| ==> drop(s[i])
    requires r == [] || !drop(r[|r| - 1])
    ensures r == TrimEnd(s, drop)
  {
  }

  lemma TrimStartIdempotent(s: string, drop: char -> bool)
    ensures TrimStart(TrimStart(s, drop), drop) == TrimStart(s, drop)
  {
    var t := TrimStart(s, drop);
    TrimStartUnique(t, drop, t);
  }

  lemma TrimEndIdempotent(s: string, drop: char -> bool)
    ensures TrimEnd(TrimEnd(s, drop), drop) == TrimEnd(s, drop)
  {
    var t := TrimEnd(s, drop);
    TrimEndUnique(t, drop, t);
  }

  /** Characters satisfying `drop` appended to `s` are all removed again by TrimEnd. */
  lemma TrimEndAppended(s: string, tail: string, drop: char -> bool)
    requires forall i :: 0 <= i < |tail| ==> drop(tail[i])
    ensures TrimEnd(s + tail, drop) == TrimEnd(s, drop)
  {
    var t := TrimEnd(s, drop);
    assert (s + tail)[..|t|] == t;
    forall i | |t| <= i < |s + tail|
      ensures drop((s + tail)[i])
    {
      if i >= |s| {
        assert (s + tail)[i] == tail[i - |s|];
      }
    }
    TrimEndUnique(s + tail, drop, t);
  }

  /** `s.trim()` is empty exactly when every character of `s` is white space. */
  lemma TrimEmptyIffBlank(s: string)
    ensures |Trim(s)| == 0 <==> forall i :: 0 <= i < |s| ==> IsWhitespace(s[i])
  {
    var u := TrimStart(s, IsWhitespace);
    if u != [] {
      assert !IsWhitespace(u[0]);
      assert s[|s| - |u|] == u[0];
    } else {
      assert TrimEnd(u, IsWhitespace) == [];
    }
  }

  /** A one-character string trims to nothing exactly when its character is white space. */
  lemma TrimOfChar(c: char)
    ensures |Trim([c])| == 0 <==> IsWhitespace(c)
  {
    TrimEmptyIffBlank([c]);
  }

  /** `s.replace(c, '')` for a one-character pattern: the string with its first `c` deleted
      (a string pattern replaces only its first match). */
  function ReplaceFirst(s: string, c: char): string {
    if s == [] then []
    else if s[0] == c then s[1..]
    else [s[0]] + ReplaceFirst(s[1..], c)
  }

  /** The deleted `c` is the one `indexOf` finds: everything before it and after it is kept,
      in order, and a string without `c` is unchanged. */
  lemma {:induction false} ReplaceFirstAtIndexOf(s: string, c: char)
    ensures c !in s ==> ReplaceFirst(s, c) == s
    ensures c in s ==> ReplaceFirst(s, c) == s[..IndexOf(s, c)] + s[IndexOf(s, c) + 1..]
  {
    if s != [] && s[0] != c {
      ReplaceFirstAtIndexOf(s[1..], c);
      if c in s {
        assert c in s[1..];
        var j := IndexOf(s[1..], c);
        assert IndexOf(s, c) == j + 1;
        assert s[..j + 1] == [s[0]] + s[1..][..j];
        assert s[j + 2..] == s[1..][j + 1..];
      } else {
        assert s == [s[0]] + s[1..];
      }
    }
  }
}
