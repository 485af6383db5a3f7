/**
 * BrowserService: the list of saved browser sessions (DevTools WebSocket endpoints) kept in
 * one file of a GitHub gist, newest first, and the session the service has loaded from it.
 */
module Browser {
  import opened JsValues
  import opened JsArrays

  /** `browsers` after `saveSessionKey(key)`: put in front unless it is already there. */
  function Saved(browsers: seq<string>, key: string): (r: seq<string>)
    ensures key in r
    ensures key !in browsers ==> r == [key] + browsers
    ensures key in browsers ==> r == browsers
  {
    if IndexOf(browsers, key) == -1 then [key] + browsers else browsers
  }

  /** Saving the same key twice is the same as saving it once. */
  lemma SavedIdempotent(browsers: seq<string>, key: string)
    ensures Saved(Saved(browsers, key), key) == Saved(browsers, key)
  {
  }

  /** Saving never loses a session and never duplicates one: the old list is a suffix of the
      new one, and a list without repeats stays without repeats. */
  lemma SavedKeepsOthers(browsers: seq<string>, key: string)
    ensures Saved(browsers, key)[|Saved(browsers, key)| - |browsers|..] == browsers
    ensures (forall i, j :: 0 <= i < j < |browsers| ==> browsers[i] != browsers[j]) ==>
      (forall i, j :: 0 <= i < j < |Saved(browsers, key)| ==> Saved(browsers, key)[i] != Saved(browsers, key)[j])
  {
    var r := Saved(browsers, key);
    if key !in browsers {
      assert r[1..] == browsers;
      forall i, j | 0 <= i < j < |r| && (forall i, j :: 0 <= i < j < |browsers| ==> browsers[i] != browsers[j])
        ensures r[i] != r[j]
      {
        if i == 0 {
          assert r[j] == browsers[j - 1];
        } else {
          assert r[i] == browsers[i - 1] && r[j] == browsers[j - 1];
        }
      }
    }
  }

  /** The default index 0 of `loadSessionKey` finds a newly saved key. */
  lemma NewestFirst(browsers: seq<string>, key: string)
    requires key !in browsers
    ensures Saved(browsers, key)[0] == key
  {
  }

  /** What `loadSessionKey(index)` returns for the list `browsers`: the entry at `index` when
      `browsers.length > index` (`undefined` for a negative index, as `browsers[-1]` is),
      `null` otherwise. */
  function Loaded(browsers: seq<string>, index: int): (r: Value)
    ensures r == Null <==> index >= |browsers|
    ensures 0 <= index < |browsers| ==> r == Str(browsers[index])
    ensures index < 0 ==> r == Undefined
  {
    if |browsers| > index then (if index >= 0 then Str(browsers[index]) else Undefined) else Null
  }

  /** After saving a new key, loading at the default index gives that key. */
  lemma LoadAfterSave(browsers: seq<string>, key: string)
    ensures Loaded(Saved(browsers, key), 0) == Str(key) || key in browsers
  {
  }

  /** The gist file: a JSON array of session keys, held remotely and shared by every
      service pointed at the same gist id and file name. */
  class GistFile {
    var browsers: seq<string>

    constructor (browsers: seq<string>)
      ensures this.browsers == browsers
    {
      this.browsers := browsers;
    }
  }

  class BrowserService {
    const authToken: string
    const gistId: string
    const file: string
    /** The file `gistId`/`file` names. */
    const gist: GistFile
    var sessionKey: Value

    constructor (authToken: string, gistId: string, file: string, gist: GistFile)
      ensures this.authToken == authToken && this.gistId == gistId && this.file == file
      ensures this.gist == gist
      ensures sessionKey == Null
    {
      this.authToken := authToken;
      this.gistId := gistId;
      this.file := file;
      this.gist := gist;
      sessionKey := Null;
    }

    /** `saveSessionKey(sessionKey)`: read the list, put the key in front unless it is
        there, write the list back. The loaded session is untouched. */
    method SaveSessionKey(key: string)
      modifies gist
      ensures gist.browsers == Saved(old(gist.browsers), key)
    {
      var browsers := gist.browsers;
      if IndexOf(browsers, key) == -1 {
        browsers := [key] + browsers;
      }
      gist.browsers := browsers;
    }

    /** `loadSessionKey(index = 0)`: when the list is longer than `index`, the entry becomes
        the loaded session and is returned; otherwise `null` is returned and the loaded session
        stays as it was. The gist is only read. */
    method LoadSessionKey(index: int := 0) returns (r: Value)
      modifies this
      ensures r == Loaded(gist.browsers, index)
      ensures r != Null ==> sessionKey == r
      ensures r == Null ==> sessionKey == old(sessionKey)
    {
      var browsers := gist.browsers;
      if |browsers| > index {
        sessionKey := if index >= 0 then Str(browsers[index]) else Undefined;
        return sessionKey;
      }
      return Null;
    }

    /** `clearAllKeys()`: the file becomes the empty array. */
    method ClearAllKeys()
      modifies gist
      ensures gist.browsers == []
    {
      gist.browsers := [];
    }
  }

  /** A client: two services on the same gist see each other's saves, and a cleared gist
      loads nothing. */
  method SharedGistScenario(key: string)
  {
    var gist := new GistFile([]);
    var a := new BrowserService("token", "gist", "browsers.json", gist);
    var b := new BrowserService("token", "gist", "browsers.json", gist);
    a.SaveSessionKey(key);
    var loaded := b.LoadSessionKey();
    assert loaded == Str(key) && b.sessionKey == Str(key);
    assert a.sessionKey == Null;
    a.ClearAllKeys();
    loaded := b.LoadSessionKey();
    assert loaded == Null && b.sessionKey == Str(key);
  }
}
