/**
 * The array built-ins the core relies on: `indexOf` and a one-element `splice`.
 */
module JsArrays {

  /** `s.indexOf(x)`: the first index holding `x`, or -1 when there is none. */
  function IndexOf<T(==)>(s: seq<T>, x: T): (r: int)
    ensures -1 <= r < |s|
    ensures r == -1 <==> x !in s
    ensures 0 <= r ==> s[r] == x && x !in s[..r]
  {
    if |s| == 0 then -1
    else if s[0] == x then 0
    else
      var k := IndexOf(s[1..], x);
      if k == -1 then -1
      else
        assert s[..k + 1] == [s[0]] + s[1..][..k];
        k + 1
  }

  /** `s.splice(i, 1)` applied to a copy: `s` without its element at index `i`. */
  function RemoveAt<T>(s: seq<T>, i: nat): (r: seq<T>)
    requires i < |s|
    ensures |r| == |s| - 1
    ensures forall k :: 0 <= k < i ==> r[k] == s[k]
    ensures forall k :: i <= k < |r| ==> r[k] == s[k + 1]
  {
    s[..i] + s[i + 1..]
  }

  /** The effect of `i = s.indexOf(x); if (i > -1) s.splice(i, 1)`: the first occurrence
      of `x` removed, nothing else changed. */
  function RemoveFirst<T(==)>(s: seq<T>, x: T): (r: seq<T>)
    ensures x !in s ==> r == s
    ensures x in s ==> |r| == |s| - 1
  {
    var i := IndexOf(s, x);
    if i == -1 then s else RemoveAt(s, i)
  }

  /** Removing the first occurrence takes away exactly one copy of `x`, when there is one,
      and keeps every other element with its multiplicity. */
  lemma RemoveFirstCounts<T>(s: seq<T>, x: T)
    ensures multiset(RemoveFirst(s, x)) == multiset(s) - multiset{x}
  {
    var i := IndexOf(s, x);
    if i != -1 {
      assert s == s[..i] + [x] + s[i + 1..];
    }
  }

  /** Putting `x` back at the index it was removed from rebuilds the original sequence, and
      no occurrence of `x` lies before that index: exactly the first occurrence was removed. */
  lemma RemoveFirstReinserted<T>(s: seq<T>, x: T)
    requires x in s
    ensures 0 <= IndexOf(s, x) <= |RemoveFirst(s, x)|
    ensures RemoveFirst(s, x)[..IndexOf(s, x)] + [x] + RemoveFirst(s, x)[IndexOf(s, x)..] == s
    ensures x !in RemoveFirst(s, x)[..IndexOf(s, x)]
  {
    var i := IndexOf(s, x);
    var front, back := s[..i], s[i + 1..];
    var r := RemoveFirst(s, x);
    assert r == front + back;
    assert r[..i] == front;
    assert r[i..] == back;
    assert s == front + [x] + back;
  }

  /** Removing the only copy of `x` leaves no `x` behind. */
  lemma RemoveOnlyCopy<T>(s: seq<T>, x: T)
    requires multiset(s)[x] == 1
    ensures x !in RemoveFirst(s, x)
  {
    RemoveFirstCounts(s, x);
    assert multiset(RemoveFirst(s, x))[x] == 0;
  }

  /** Removing a just-appended element that occurs nowhere else restores the sequence. */
  lemma RemoveAppended<T>(s: seq<T>, x: T)
    requires x !in s
    ensures RemoveFirst(s + [x], x) == s
  {
    assert IndexOf(s + [x], x) == |s| by {
      assert (s + [x])[..|s|] == s;
    }
    assert (s + [x])[..|s|] == s;
  }
}
