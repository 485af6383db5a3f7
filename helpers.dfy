/**
 * The static helpers of class Helpers: regex-based trimming of URLs, URL comparison up to
 * trailing slashes, removal of HTML tags, and the wrapping of a thrown error.
 */
module Helpers {
  import opened JsValues
  import opened JsStrings
  import opened JsArrays

  /** The charlist trimLeft and trimRight use when none is given. The source writes `'\s'`,
      which in a JavaScript string literal is the one-letter string "s" (an unknown escape
      keeps its letter), so the default strips the letter `s`, not white space. */
  const DefaultCharlist: string := "s"

  /** A charlist is pasted into a regex bracket expression `[...]`; the model covers the
      charlists in which every character stands for itself. */
  predicate IsLiteralCharlist(charlist: string) {
    forall i :: 0 <= i < |charlist| ==> charlist[i] !in "]\\^-"
  }

  /** An omitted (undefined) charlist is the default one. */
  function CharlistOf(charlist: Option<string>): string {
    match charlist
    case None => DefaultCharlist
    case Some(cl) => cl
  }

  predicate HasLiteralCharlist(charlist: Option<string>) {
    IsLiteralCharlist(CharlistOf(charlist))
  }

  /** The characters a bracket expression `[charlist]` matches. */
  function CharClass(charlist: string): char -> bool {
    c => c in charlist
  }

  /** `string.replace(new RegExp('^[' + charlist + ']+'), '')`: the longest prefix made of
      charlist characters is removed. */
  function TrimLeft(s: string, charlist: Option<string>): (r: string)
    requires HasLiteralCharlist(charlist)
    ensures |r| <= |s| && r == s[|s| - |r|..]
    ensures forall i :: 0 <= i < |s| - |r| ==> s[i] in CharlistOf(charlist)
    ensures r == [] || r[0] !in CharlistOf(charlist)
  {
    TrimStart(s, CharClass(CharlistOf(charlist)))
  }

  /** `string.replace(new RegExp('[' + charlist + ']+$'), '')`: the longest suffix made of
      charlist characters is removed (the leftmost match of `[..]+$` is that suffix). */
  function TrimRight(s: string, charlist: Option<string>): (r: string)
    requires HasLiteralCharlist(charlist)
    ensures |r| <= |s| && r == s[..|r|]
    ensures forall i :: |r| <= i < |s| ==> s[i] in CharlistOf(charlist)
    ensures r == [] || r[|r| - 1] !in CharlistOf(charlist)
  {
    TrimEnd(s, CharClass(CharlistOf(charlist)))
  }

  lemma TrimLeftIdempotent(s: string, charlist: Option<string>)
    requires HasLiteralCharlist(charlist)
    ensures TrimLeft(TrimLeft(s, charlist), charlist) == TrimLeft(s, charlist)
  {
    TrimStartIdempotent(s, CharClass(CharlistOf(charlist)));
  }

  lemma TrimRightIdempotent(s: string, charlist: Option<string>)
    requires HasLiteralCharlist(charlist)
    ensures TrimRight(TrimRight(s, charlist), charlist) == TrimRight(s, charlist)
  {
    TrimEndIdempotent(s, CharClass(CharlistOf(charlist)));
  }

  /** With no charlist only the letter `s` is stripped; white space stays. */
  lemma DefaultCharlistStripsLetterS()
    ensures TrimLeft("sassy", None) == "assy"
    ensures TrimRight("class", None) == "cla"
    ensures TrimLeft(" s", None) == " s"
  {
    var drop := CharClass("s");
    assert drop('s') && !drop('a') && !drop(' ');
    assert "sassy"[1..] == "assy";
    TrimStartUnique("sassy", drop, "assy");
    assert "class"[..3] == "cla";
    TrimEndUnique("class", drop, "cla");
    TrimStartUnique(" s", drop, " s");
  }

  /** `urlsEqual(url1, url2)`: equal once trailing slashes are trimmed from both. */
  predicate UrlsEqual(url1: string, url2: string) {
    TrimRight(url1, Some("/")) == TrimRight(url2, Some("/"))
  }

  /** The string of `n` slashes. */
  function Slashes(n: nat): (r: string)
    ensures |r| == n && forall i :: 0 <= i < n ==> r[i] == '/'
  {
    if n == 0 then "" else Slashes(n - 1) + "/"
  }

  /** UrlsEqual is an equivalence relation. */
  lemma UrlsEqualIsEquivalence(a: string, b: string, c: string)
    ensures UrlsEqual(a, a)
    ensures UrlsEqual(a, b) ==> UrlsEqual(b, a)
    ensures UrlsEqual(a, b) && UrlsEqual(b, c) ==> UrlsEqual(a, c)
  {
  }

  /** Any number of trailing slashes is ignored. */
  lemma UrlsEqualUpToTrailingSlashes(url: string, n: nat)
    ensures UrlsEqual(url, url + Slashes(n))
  {
    TrimEndAppended(url, Slashes(n), CharClass("/"));
  }

  lemma UrlsEqualExamples(url: string)
    ensures UrlsEqual(url, url + "/")
    ensures UrlsEqual(url, url + "///")
    ensures UrlsEqual("https://twitter.com/", "https://twitter.com")
    ensures !UrlsEqual("https://twitter.com/home", "https://twitter.com")
  {
    UrlsEqualUpToTrailingSlashes(url, 1);
    UrlsEqualUpToTrailingSlashes(url, 3);
    assert Slashes(3) == "///";
    UrlsEqualUpToTrailingSlashes("https://twitter.com", 1);
    assert TrimRight("https://twitter.com", Some("/")) == "https://twitter.com";
    assert TrimRight("https://twitter.com/home", Some("/")) == "https://twitter.com/home";
  }

  /** A tag in the sense of `/<[^>]+>/` starts at the head of `s`: a `<`, and the first `>`
      after it comes after at least one other character. */
  predicate TagAt(s: string) {
    |s| > 0 && s[0] == '<' && IndexOf(s[1..], '>') >= 1
  }

  /** The length of the tag at the head of `s`, its closing `>` included. */
  function TagLength(s: string): (n: nat)
    requires TagAt(s)
    ensures 3 <= n <= |s| && s[n - 1] == '>'
    ensures forall k :: 1 <= k < n - 1 ==> s[k] != '>'
  {
    var j := IndexOf(s[1..], '>');
    assert forall k :: 0 <= k < j ==> s[1..][..j][k] == s[k + 1];
    j + 2
  }

  /** TagAt is the regular expression `<[^>]+>` matched at the head of `s`. */
  lemma TagAtIsPattern(s: string)
    ensures TagAt(s) <==>
      exists j :: 2 <= j < |s| && s[0] == '<' && s[j] == '>' && forall k :: 1 <= k < j ==> s[k] != '>'
  {
    if TagAt(s) {
      var j := TagLength(s) - 1;
      assert 2 <= j < |s| && s[0] == '<' && s[j] == '>' && forall k :: 1 <= k < j ==> s[k] != '>';
    }
    if exists j :: 2 <= j < |s| && s[0] == '<' && s[j] == '>' && forall k :: 1 <= k < j ==> s[k] != '>' {
      var j :| 2 <= j < |s| && s[0] == '<' && s[j] == '>' && forall k :: 1 <= k < j ==> s[k] != '>';
      var i := IndexOf(s[1..], '>');
      assert s[1..][j - 1] == '>';
      assert i != 0 by {
        assert s[1] != '>' && s[1..][0] == s[1];
      }
    }
  }

  /** `html.replace(/<[^>]+>/g, '')`: scanning left to right, each tag is dropped and the
      scan resumes after its `>`; a character where no tag starts is kept. */
  function StripTags(html: string): string
    decreases |html|
  {
    if html == [] then []
    else if TagAt(html) then StripTags(html[TagLength(html)..])
    else [html[0]] + StripTags(html[1..])
  }

  /** `a` is obtained from `b` by deleting characters. */
  predicate IsSubsequence(a: string, b: string)
    decreases |b|
  {
    a == [] || (b != [] && ((a[0] == b[0] && IsSubsequence(a[1..], b[1..])) || IsSubsequence(a, b[1..])))
  }

  lemma {:induction false} SubsequenceOfSuffix(a: string, b: string, k: nat)
    requires k <= |b| && IsSubsequence(a, b[k..])
    ensures IsSubsequence(a, b)
    decreases k
  {
    if k > 0 {
      assert b[k - 1..][1..] == b[k..];
      SubsequenceOfSuffix(a, b, k - 1);
    }
  }

  lemma {:induction false} SubsequenceChars(a: string, b: string, c: char)
    requires IsSubsequence(a, b) && c in a
    ensures c in b
    decreases |b|
  {
    if a[0] == b[0] && IsSubsequence(a[1..], b[1..]) {
      if c != a[0] {
        SubsequenceChars(a[1..], b[1..], c);
      }
    } else {
      SubsequenceChars(a, b[1..], c);
    }
  }

  /** The output of stripTags is the input with some characters deleted. */
  lemma {:induction false} StripTagsIsSubsequence(html: string)
    ensures IsSubsequence(StripTags(html), html)
    decreases |html|
  {
    if html == [] {
    } else if TagAt(html) {
      StripTagsIsSubsequence(html[TagLength(html)..]);
      SubsequenceOfSuffix(StripTags(html), html, TagLength(html));
    } else {
      StripTagsIsSubsequence(html[1..]);
      var r := StripTags(html);
      assert r[0] == html[0] && r[1..] == StripTags(html[1..]);
    }
  }

  /** No tag starts anywhere in `s`. */
  predicate TagFree(s: string) {
    forall i :: 0 <= i < |s| ==> !TagAt(s[i..])
  }

  /** stripTags leaves a tag-free string unchanged; in particular one without `<`. */
  lemma {:induction false} StripTagsOfTagFree(s: string)
    requires TagFree(s)
    ensures StripTags(s) == s
    decreases |s|
  {
    if s != [] {
      assert !TagAt(s[0..]) && s[0..] == s;
      forall i | 0 <= i < |s[1..]|
        ensures !TagAt(s[1..][i..])
      {
        assert s[1..][i..] == s[i + 1..];
      }
      StripTagsOfTagFree(s[1..]);
    }
  }

  lemma StripTagsWithoutLt(s: string)
    requires '<' !in s
    ensures StripTags(s) == s
  {
    forall i | 0 <= i < |s|
      ensures !TagAt(s[i..])
    {
      assert s[i..][0] == s[i];
    }
    StripTagsOfTagFree(s);
  }

  /** No tag is left in the output of stripTags. */
  lemma {:induction false} StripTagsLeavesNoTag(html: string)
    ensures TagFree(StripTags(html))
    decreases |html|
  {
    if html == [] {
    } else if TagAt(html) {
      StripTagsLeavesNoTag(html[TagLength(html)..]);
    } else {
      var rest := StripTags(html[1..]);
      StripTagsLeavesNoTag(html[1..]);
      var r := StripTags(html);
      assert r == [html[0]] + rest;
      if html[0] == '<' {
        var j := IndexOf(html[1..], '>');
        if j == -1 {
          if '>' in rest {
            StripTagsIsSubsequence(html[1..]);
            SubsequenceChars(rest, html[1..], '>');
          }
        } else {
          assert j == 0 && html[1] == '>';
          assert !TagAt(html[1..]);
          assert rest[0] == '>';
        }
        assert r[1..] == rest;
        assert !TagAt(r);
      }
      forall i | 0 <= i < |r|
        ensures !TagAt(r[i..])
      {
        if i > 0 {
          assert r[i..] == rest[i - 1..];
        } else {
          assert r[0..] == r;
        }
      }
    }
  }

  lemma StripTagsIdempotent(html: string)
    ensures StripTags(StripTags(html)) == StripTags(html)
  {
    StripTagsLeavesNoTag(html);
    StripTagsOfTagFree(StripTags(html));
  }

  /** An empty pair of brackets is not a tag. */
  lemma StripTagsKeepsEmptyBrackets()
    ensures StripTags("<>") == "<>"
  {
    assert "<>"[1..] == ">";
    assert !TagAt("<>");
    StripTagsWithoutLt(">");
    assert StripTags("<>") == ['<'] + StripTags(">");
  }

  lemma StripTagsExample()
    ensures StripTags("<b>hi</b>") == "hi"
  {
    var s := "<b>hi</b>";
    assert s[1..] == "b>hi</b>";
    assert IndexOf("b>hi</b>", '>') == 1;
    assert TagAt(s) && TagLength(s) == 3;
    assert s[3..] == "hi</b>";
    TextThenClosingTag();
  }

  /** The text before a closing tag is kept and the tag dropped. */
  lemma TextThenClosingTag()
    ensures StripTags("hi</b>") == "hi"
  {
    ClosingTagDropped();
    assert "hi</b>"[1..] == "i</b>" && "i</b>"[1..] == "</b>";
    assert StripTags("i</b>") == "i" by {
      assert !TagAt("i</b>");
    }
    assert !TagAt("hi</b>");
  }

  /** A lone closing tag strips to nothing. */
  lemma ClosingTagDropped()
    ensures StripTags("</b>") == ""
  {
    var close := "</b>";
    assert close[1..] == "/b>";
    assert IndexOf("/b>", '>') == 2;
    assert TagAt(close) && TagLength(close) == 4;
    assert close[4..] == "";
  }

  /** A thrown error, as far as the core reads it. */
  datatype Error = Error(name: string, message: string, stack: string)

  /** The plain object `{name, message}` wrapError builds. */
  datatype WrappedError = WrappedError(name: string, message: string)

  function WrapError(error: Error): (w: WrappedError)
    ensures w.name == error.name && w.message == error.message
  {
    WrappedError(error.name, error.message)
  }

  /** Two errors wrap to the same object exactly when their names and messages agree:
      everything else about an error (its stack) is dropped. */
  lemma WrapErrorKeepsNameAndMessage(e1: Error, e2: Error)
    ensures WrapError(e1) == WrapError(e2) <==> e1.name == e2.name && e1.message == e2.message
  {
  }
}
