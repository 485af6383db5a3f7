/**
 * ConditionsUtil: the predicates the facades use to test parameters.
 */
module Conditions {
  import opened JsValues
  import opened JsStrings

  /** `value === null || value === undefined` */
  predicate IsNull(value: Value) {
    value == Null || value == Undefined
  }

  /** `value !== null && value !== undefined` */
  predicate IsNotNull(value: Value) {
    value != Null && value != Undefined
  }

  /** `value === true`: strict equality, no coercion. */
  predicate IsTrue(value: Value) {
    value == Bool(true)
  }

  /** `value === false` */
  predicate IsFalse(value: Value) {
    value == Bool(false)
  }

  /** Null, undefined, or a string whose `trim()` is empty. */
  predicate IsNullOrEmpty(value: Value) {
    value == Null || value == Undefined || (value.Str? && |Trim(value.s)| == 0)
  }

  /** `values.length` as the loop condition `i < values.length` sees it: a value without a
      `length` property gives `undefined`, and `0 < undefined` is false, so it acts as 0. */
  function Length(values: Value): nat {
    match values
    case Str(s) => |s|
    case Arr(a) => |a|
    case _ => 0
  }

  /** `values[i]`: for a string, the one-character string at `i`. */
  function At(values: Value, i: nat): Value
    requires i < Length(values)
  {
    match values
    case Str(s) => Str([s[i]])
    case Arr(a) => a[i]
  }

  /** Every character is white space, so that `trim()` leaves nothing (TrimEmptyIffBlank). */
  predicate IsBlank(s: string) {
    forall i :: 0 <= i < |s| ==> IsWhitespace(s[i])
  }

  /** The four tests in the loop body that make isNotNullNorEmpty return false. */
  predicate Rejected(value: Value) {
    value == Null
    || value == Undefined
    || (value.Str? && IsBlank(value.s))
    || (value.Arr? && |value.elements| == 0)
  }

  /** What isNotNullNorEmpty decides: the value is not null and no element is rejected. */
  predicate NotNullNorEmpty(values: Value) {
    !IsNull(values) && forall i :: 0 <= i < Length(values) ==> !Rejected(At(values, i))
  }

  /** `isNotNullNorEmpty(values)`: the indexed loop with early returns. */
  method IsNotNullNorEmpty(values: Value) returns (r: bool)
    ensures r == NotNullNorEmpty(values)
  {
    if IsNull(values) {
      return false;
    }
    var i := 0;
    while i < Length(values)
      invariant 0 <= i <= Length(values)
      invariant forall k :: 0 <= k < i ==> !Rejected(At(values, k))
    {
      var rejected := RejectsElement(At(values, i));
      if rejected {
        return false;
      }
      i := i + 1;
    }
    return true;
  }

  /** The body of the loop of isNotNullNorEmpty: its four tests on one element, in order;
      `true` where the loop returns false. */
  method RejectsElement(value: Value) returns (rejected: bool)
    ensures rejected == Rejected(value)
  {
    if value == Null {
      return true;
    }
    if value == Undefined {
      return true;
    }
    if value.Str? {
      TrimEmptyIffBlank(value.s);
      if |Trim(value.s)| == 0 {
        return true;
      }
    }
    if value.Arr? && |value.elements| == 0 {
      return true;
    }
    return false;
  }

  lemma NullComplement(value: Value)
    ensures IsNull(value) == !IsNotNull(value)
  {
  }

  /** isTrue and isFalse hold of the two booleans only: no string, array or other value
      passes, and no value passes both. */
  lemma TrueAndFalseAreStrict(value: Value)
    ensures IsTrue(value) ==> value.Bool? && value.b
    ensures IsFalse(value) ==> value.Bool? && !value.b
    ensures !(IsTrue(value) && IsFalse(value))
    ensures !IsTrue(Str("true")) && !IsFalse(Str("")) && !IsFalse(Null)
  {
  }

  /** isNullOrEmpty holds exactly for null, undefined and strings made of white space only. */
  lemma NullOrEmptyMeansBlank(value: Value)
    ensures IsNullOrEmpty(value) <==>
      value == Null || value == Undefined ||
      (value.Str? && IsBlank(value.s))
  {
    if value.Str? {
      TrimEmptyIffBlank(value.s);
    }
  }

  lemma BlankStringsAreNullOrEmpty()
    ensures IsNullOrEmpty(Str("")) && IsNullOrEmpty(Str(" \t"))
  {
    NullOrEmptyMeansBlank(Str(" \t"));
    assert IsBlank(" \t");
  }

  lemma OtherValuesAreNotNullOrEmpty()
    ensures !IsNullOrEmpty(Str(" a")) && !IsNullOrEmpty(Arr([])) && !IsNullOrEmpty(Other)
  {
    NullOrEmptyMeansBlank(Str(" a"));
    assert !IsBlank(" a") by {
      assert !IsWhitespace(" a"[1]);
    }
  }

  /** A one-character string is rejected exactly when its character is white space. */
  lemma CharRejected(c: char)
    ensures Rejected(Str([c])) <==> IsWhitespace(c)
  {
    TrimOfChar(c);
  }

  /** For a string, isNotNullNorEmpty holds exactly when no character is white space. */
  lemma NotNullNorEmptyString(s: string)
    ensures NotNullNorEmpty(Str(s)) <==> forall i :: 0 <= i < |s| ==> !IsWhitespace(s[i])
  {
    forall i | 0 <= i < |s|
      ensures Rejected(At(Str(s), i)) <==> IsWhitespace(s[i])
    {
      CharRejected(s[i]);
    }
  }

  /** For an array, isNotNullNorEmpty fails exactly when some element is null, undefined,
      a blank string or an empty array; elements are looked at one level deep only. */
  lemma NotNullNorEmptyArray(a: seq<Value>)
    ensures NotNullNorEmpty(Arr(a)) <==>
      forall i :: 0 <= i < |a| ==> !IsNullOrEmpty(a[i]) && a[i] != Arr([])
  {
    forall i | 0 <= i < |a|
      ensures Rejected(At(Arr(a), i)) <==> IsNullOrEmpty(a[i]) || a[i] == Arr([])
    {
      assert At(Arr(a), i) == a[i];
    }
  }

  /** The loop never runs on the empty string, the empty array or a value without
      `length`; null and undefined are refused before it. */
  lemma NotNullNorEmptyEdgeCases()
    ensures NotNullNorEmpty(Str("")) && NotNullNorEmpty(Arr([])) && NotNullNorEmpty(Other)
    ensures NotNullNorEmpty(Bool(false))
    ensures !NotNullNorEmpty(Null) && !NotNullNorEmpty(Undefined)
  {
  }

  /** One white-space character anywhere makes a string fail. */
  lemma NotNullNorEmptyStringExamples()
    ensures !NotNullNorEmpty(Str("a b")) && NotNullNorEmpty(Str("ab"))
  {
    NotNullNorEmptyString("a b");
    assert "a b"[1] == ' ';
    NotNullNorEmptyString("ab");
    assert "ab"[0] == 'a' && "ab"[1] == 'b';
  }

  /** Only the top level of an array is inspected. */
  lemma NotNullNorEmptyArrayExamples()
    ensures NotNullNorEmpty(Arr([Arr([Null])]))
    ensures !NotNullNorEmpty(Arr([Str("x"), Str(" ")]))
  {
    assert At(Arr([Str("x"), Str(" ")]), 1) == Str(" ");
    assert IsBlank(" ");
  }
}
