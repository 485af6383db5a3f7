/**
 * ApiService: the store of issued API keys, and the generation of a new key following the
 * template of a random (version 4) UUID, section 4.4 of RFC 4122.
 */
module Api {
  import opened JsArrays

  /** One random hexadecimal digit: the value of `Math.random() * 16 | 0`. */
  type Nibble = x: int | 0 <= x < 16

  /** The key every fresh store holds, hard-coded for development. */
  const DevKey: string := "41872b21-08aa-4a0b-8623-dc1fac0e1fae"

  /** The template `createKey` fills: every `x` becomes a random hex digit, the `y` a
      random digit among 8, 9, a and b (the RFC 4122 variant), the `4` is the version. */
  const KeyTemplate: string := "xxxxxxxx-xxxx-4xxx-yxxx-xxxxxxxxxxxx"

  const HexDigits: string := "0123456789abcdef"

  /** `v.toString(16)` for one digit. */
  function HexDigit(v: Nibble): char {
    HexDigits[v]
  }

  predicate IsPlaceholder(c: char) {
    c == 'x' || c == 'y'
  }

  /** The callback of `replace(/[xy]/g, ...)` for the placeholder `c` and the random draw
      `r`: `c === 'x' ? r : (r & 0x3 | 0x8)` in lower-case hexadecimal. */
  function Substitute(c: char, r: Nibble): (d: char)
    requires IsPlaceholder(c)
    ensures c == 'x' ==> d == HexDigit(r)
    ensures c == 'y' ==> d in "89ab"
  {
    var v: bv4 := if c == 'x' then r as bv4 else (r as bv4 & 0x3) | 0x8;
    assert c == 'y' ==> 8 <= v as int < 12;
    HexDigit(v as int)
  }

  /** The number of placeholders in a template: the number of random draws. */
  function Draws(template: string): nat {
    if template == [] then 0
    else (if IsPlaceholder(template[0]) then 1 else 0) + Draws(template[1..])
  }

  /** The template with its placeholders replaced left to right, the `k`-th one using the
      `k`-th random draw. */
  function Fill(template: string, draws: seq<Nibble>): (key: string)
    requires |draws| == Draws(template)
    ensures |key| == |template|
    ensures forall i :: 0 <= i < |template| && !IsPlaceholder(template[i]) ==> key[i] == template[i]
    ensures forall i :: 0 <= i < |template| && template[i] == 'x' ==> key[i] in HexDigits
    ensures forall i :: 0 <= i < |template| && template[i] == 'y' ==> key[i] in "89ab"
  {
    if template == [] then []
    else if IsPlaceholder(template[0]) then [Substitute(template[0], draws[0])] + Fill(template[1..], draws[1..])
    else [template[0]] + Fill(template[1..], draws)
  }

  lemma {:induction false} DrawsAppend(a: string, b: string)
    ensures Draws(a + b) == Draws(a) + Draws(b)
  {
    if a == [] {
      assert a + b == b;
    } else {
      assert (a + b)[1..] == a[1..] + b;
      DrawsAppend(a[1..], b);
    }
  }

  /** The template in groups of at most five characters. */
  lemma KeyTemplateGroups()
    ensures KeyTemplate == "xxxx" + "xxxx" + "-xxxx" + "-4xxx" + "-yxxx" + "-xxxx" + "xxxx" + "xxxx"
  {
  }

  /** The draws each group of the template takes. */
  lemma GroupDraws()
    ensures Draws("xxxx") == 4 && Draws("-xxxx") == 4 && Draws("-4xxx") == 3 && Draws("-yxxx") == 4
  {
  }

  /** Thirty `x` and one `y`: `createKey` draws 31 random digits. */
  lemma KeyTemplateDraws()
    ensures Draws(KeyTemplate) == 31
  {
    KeyTemplateGroups();
    GroupDraws();
    var x, dx, v, y := "xxxx", "-xxxx", "-4xxx", "-yxxx";
    DrawsAppend(x + x + dx + v + y + dx + x, x);
    DrawsAppend(x + x + dx + v + y + dx, x);
    DrawsAppend(x + x + dx + v + y, dx);
    DrawsAppend(x + x + dx + v, y);
    DrawsAppend(x + x + dx, v);
    DrawsAppend(x + x, dx);
    DrawsAppend(x, x);
  }

  /** The layout of a version 4 UUID in lower case: 36 characters, dashes at 8, 13, 18 and
      23, the version digit 4 at 14, the variant digit (8, 9, a or b) at 19, and a hex digit
      everywhere else. */
  predicate IsV4Layout(key: string) {
    && |key| == 36
    && key[8] == '-' && key[13] == '-' && key[18] == '-' && key[23] == '-'
    && key[14] == '4'
    && key[19] in "89ab"
    && forall i :: 0 <= i < 36 && i !in {8, 13, 14, 18, 19, 23} ==> key[i] in HexDigits
  }

  /** The key `createKey` builds from its 31 random draws. */
  function NewKey(draws: seq<Nibble>): string
    requires |draws| == 31
  {
    KeyTemplateDraws();
    Fill(KeyTemplate, draws)
  }

  /** Where the template has its dashes, its version digit and its variant placeholder;
      everything else is an `x`. */
  lemma KeyTemplateShape()
    ensures |KeyTemplate| == 36
    ensures KeyTemplate[8] == '-' && KeyTemplate[13] == '-' && KeyTemplate[18] == '-' && KeyTemplate[23] == '-'
    ensures KeyTemplate[14] == '4' && KeyTemplate[19] == 'y'
    ensures forall i :: 0 <= i < 36 && i !in {8, 13, 14, 18, 19, 23} ==> KeyTemplate[i] == 'x'
  {
    var a, b, c, d, e := "xxxxxxxx", "-xxxx", "-4xxx", "-yxxx", "-xxxxxxxxxxxx";
    var t := KeyTemplate;
    assert t == a + b + c + d + e;
    assert t[8..13] == b && t[13..18] == c && t[18..23] == d;
    forall i | 0 <= i < 36 && i !in {8, 13, 14, 18, 19, 23} ensures t[i] == 'x' {
      if i < 8 {
        assert t[i] == a[i];
      } else if i < 13 {
        assert t[i] == b[i - 8];
      } else if i < 18 {
        assert t[i] == c[i - 13];
      } else if i < 23 {
        assert t[i] == d[i - 18];
      } else {
        assert t[i] == e[i - 23];
      }
    }
  }

  /** Every generated key has the version 4 UUID layout. */
  lemma NewKeyLayout(draws: seq<Nibble>)
    requires |draws| == 31
    ensures IsV4Layout(NewKey(draws))
  {
    KeyTemplateShape();
  }

  /** The hard-coded development key has the same layout. */
  lemma DevKeyLayout()
    ensures IsV4Layout(DevKey)
  {
  }

  /** The key store: `this.keys`, mutated in place. */
  class ApiService {
    var keys: seq<string>

    constructor ()
      ensures keys == [DevKey]
      ensures IsKeyValid(DevKey)
    {
      keys := [DevKey];
    }

    /** `isKeyValid(key)`: `this.keys.indexOf(key) !== -1`. */
    predicate IsKeyValid(key: string)
      reads this
      ensures IsKeyValid(key) <==> key in keys
    {
      IndexOf(keys, key) != -1
    }

    /** `createKey()`, with the 31 values of `Math.random() * 16 | 0` as a parameter: the
        new key is appended, the earlier keys stay as they were, and the key is valid. */
    method CreateKey(draws: seq<Nibble>) returns (key: string)
      requires |draws| == 31
      modifies this
      ensures key == NewKey(draws) && IsV4Layout(key)
      ensures keys == old(keys) + [key]
      ensures IsKeyValid(key)
    {
      key := NewKey(draws);
      NewKeyLayout(draws);
      keys := keys + [key];
    }

    /** `deleteKey(key)`: the first occurrence is spliced out and true returned; a key not in
        the list leaves it unchanged and gives false. */
    method DeleteKey(key: string) returns (deleted: bool)
      modifies this
      ensures deleted <==> key in old(keys)
      ensures keys == RemoveFirst(old(keys), key)
      ensures deleted ==> |keys| == |old(keys)| - 1
      ensures !deleted ==> keys == old(keys)
    {
      var keyIndex := IndexOf(keys, key);
      if keyIndex > -1 {
        keys := RemoveAt(keys, keyIndex);
        return true;
      } else {
        return false;
      }
    }
  }

  /** Deleting a key held once makes it invalid. */
  lemma DeletedKeyIsInvalid(keys: seq<string>, key: string)
    requires multiset(keys)[key] == 1
    ensures key !in RemoveFirst(keys, key)
  {
    RemoveOnlyCopy(keys, key);
  }

  /** Deleting a freshly created key that was not already in the store restores the store. */
  lemma DeleteUndoesCreate(keys: seq<string>, draws: seq<Nibble>)
    requires |draws| == 31 && NewKey(draws) !in keys
    ensures RemoveFirst(keys + [NewKey(draws)], NewKey(draws)) == keys
  {
    RemoveAppended(keys, NewKey(draws));
  }

  /** A client of the store: a created key is valid until it is deleted, and deleting it
      again reports that it is gone. */
  method CreateDeleteScenario(draws: seq<Nibble>)
    requires |draws| == 31 && NewKey(draws) != DevKey
  {
    var store := new ApiService();
    var key := store.CreateKey(draws);
    assert store.keys == [DevKey, key];
    assert store.IsKeyValid(key) && store.IsKeyValid(DevKey);
    var deleted := store.DeleteKey(key);
    assert deleted;
    DeleteUndoesCreate([DevKey], draws);
    assert store.keys == [DevKey];
    assert !store.IsKeyValid(key);
    deleted := store.DeleteKey(key);
    assert !deleted && store.keys == [DevKey];
  }
}
