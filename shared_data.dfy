/**
 * The `data` object the Twitter facade creates and hands, by reference, to every `User` it
 * returns.
 */
module SharedData {
  import opened JsValues

  const BaseUrl: string := "https://twitter.com"

  /** The placeholder `login` stores once the form login went through. */
  const SessionMarker: string := "SESSION_KEY"

  class Data {
    const baseurl: string
    /** `data.session`: `null` (None) until a form login succeeds. */
    var session: Option<string>
    /** `data.username`: absent (None) until the first `login` call records its argument. */
    var username: Option<string>

    constructor ()
      ensures baseurl == BaseUrl && session == None && username == None
    {
      baseurl := BaseUrl;
      session := None;
      username := None;
    }
  }
}
