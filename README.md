# twitter-api core, modelled in Dafny

This project models the core of capJavert/twitter-api, a small Node.js service that drives a
headless browser through puppeteer to act on twitter.com for one signed-in user. Five
pieces are modelled:

- **Helpers and ConditionsUtil.** These are the string and value predicates the facades use:
  - regex trimming of URLs;
  - URL comparison up to trailing slashes;
  - removal of HTML tags;
  - error wrapping;
  - the null, empty and blank tests on JavaScript values.
- **ApiService.** This is the in-memory list of issued API keys, mutated in place. A new key
  follows the template of a random version 4 UUID (section 4.4 of RFC 4122). The 31 random
  hex digits are a parameter.
- **BrowserService.** This is the list of saved browser sessions kept in one gist file,
  newest first, plus the session the service has loaded. The remote file is an object that
  several services can share.
- **Twitter.** This is the login/logout state machine over the shared `data` object. The
  session is `null` or the marker `"SESSION_KEY"`. The username is recorded on every login.
  `user()` hands out a `User` that shares the same `data`.
- **User and DirectMessaging.** These are the profile and inbox facades. Each is modelled as
  the steps it performs on an abstract page and what it returns:
  - the URL it visits;
  - when it clicks;
  - which failures it swallows in an inner `try`;
  - which failures reach the outer `catch` and give `false` or `[]`;
  - the drop-first rule of `followers` and `interests`;
  - the mapping from inbox item to conversation record in `list()`.

**The page abstraction.** The puppeteer page is a class, `Puppeteer.Page`. It holds the
URL it was opened at and the trace of steps performed so far; `page.url()` is the function
`Url()` of the two. Its environment `Env` is an oracle:
- `succeeds(t)` says whether the step at trace position `t` raises;
- `dom(t, selector)` lists the elements a selector matches at that moment;
- `moved(t)` is the URL the browser reached by itself during that step, if it did: a
  redirect, a click that submits a form or follows a link, or a navigation that committed
  before it timed out.

A step leaves the page where `moved` says when it is set, else at the target of a
successful `goto`, else where it was (`Landed`). So the model does not assume that a
login lands on `/login` or that a click stays on the page; `UrlAfterOpen` gives the
landing only where the oracle records no such move.

**How the facades are specified.** Every facade method is imperative. It performs its
awaited steps on the page one by one and updates the shared `data`. Its contract states two
things:
- the new trace: the old trace followed by the steps of a specification function
  (`LoginPlan`, `ToggleFollowRun`, `ListRun` and so on);
- its result. The page's new URL follows from the new trace (`UrlFollowsTrace`).

`Attempt(env, plan, t)` is the prefix of `plan` that runs up to and including its first
failing step. It is the meaning of a sequence of awaited calls inside one `try`, and
`Completes(env, plan, t)` says that no step failed. The lemmas then state what the source
promises about the specification functions:
- a click happens at most once, and only when the marker was present;
- a failure gives false, and never a partial list;
- the username loses only its first `@`.

## Model

| member | source | states |
|---|---|---|
| Conditions.IsNull | src/helpers/conditions-util.js:5-7 | Defines `isNull`: the loose `== null`, which holds for `null` and `undefined` only |
| Conditions.IsNotNull | src/helpers/conditions-util.js:9-11 | Defines `isNotNull`: the loose `!= null`, false for `null` and `undefined` only |
| Conditions.IsTrue | src/helpers/conditions-util.js:13-15 | Defines `isTrue`: strict equality with the boolean `true` |
| Conditions.IsFalse | src/helpers/conditions-util.js:17-19 | Defines `isFalse`: strict equality with the boolean `false` |
| Conditions.IsNullOrEmpty | src/helpers/conditions-util.js:21-25 | Defines `isNullOrEmpty`: `null`, `undefined`, or a string whose `trim()` is empty |
| Conditions.IsNotNullNorEmpty | src/helpers/conditions-util.js:27-39 | The indexed loop with early returns decides `NotNullNorEmpty`: not null or undefined, and no element (for a string, no one-character substring) is rejected |
| Conditions.RejectsElement | src/helpers/conditions-util.js:33-36 | The four tests of the loop body, in order, reject exactly null, undefined, a string whose `trim()` is empty, and an empty array |
| Conditions.NullComplement | src/helpers/conditions-util.js:5-11 | `isNull(v)` is the negation of `isNotNull(v)` for every value |
| Conditions.TrueAndFalseAreStrict | src/helpers/conditions-util.js:13-19 | `isTrue` and `isFalse` hold only for the booleans true and false, never both, and not for "true", "" or null |
| Conditions.NullOrEmptyMeansBlank | src/helpers/conditions-util.js:21-25 | `isNullOrEmpty` holds exactly for null, undefined and strings made only of white space |
| Conditions.BlankStringsAreNullOrEmpty | src/helpers/conditions-util.js:21-25 | The empty string and a string of blanks are null-or-empty |
| Conditions.OtherValuesAreNotNullOrEmpty | src/helpers/conditions-util.js:21-25 | A string with a non-blank character, an empty array and a value of another kind are not null-or-empty |
| Conditions.CharRejected | src/helpers/conditions-util.js:35 | A one-character string is rejected by the loop exactly when its character is white space |
| Conditions.NotNullNorEmptyString | src/helpers/conditions-util.js:31-38 | For a string, `isNotNullNorEmpty` holds exactly when none of its characters is white space |
| Conditions.NotNullNorEmptyArray | src/helpers/conditions-util.js:31-38 | For an array, `isNotNullNorEmpty` holds exactly when no element is null, undefined, a blank string or an empty array |
| Conditions.NotNullNorEmptyEdgeCases | src/helpers/conditions-util.js:28-38 | Null and undefined give false; "", [], a boolean and a value without `length` give true, because the loop never runs |
| Conditions.NotNullNorEmptyStringExamples | src/helpers/conditions-util.js:31-38 | "a b" is rejected and "ab" accepted |
| Conditions.NotNullNorEmptyArrayExamples | src/helpers/conditions-util.js:31-37 | Only the top level of an array is inspected: `[[null]]` passes, `["x", " "]` fails |
| JsStrings.Trim | src/helpers/conditions-util.js:24 | Defines `s.trim()`: leading whitespace, then trailing whitespace, removed |
| JsStrings.TrimStart | src/helpers/conditions-util.js:24 | The result is a suffix of the input, every removed character satisfies the predicate, and the result does not start with one that does |
| JsStrings.TrimEnd | src/helpers/conditions-util.js:24 | The result is a prefix of the input, every removed character satisfies the predicate, and the result does not end with one that does |
| JsStrings.TrimStartUnique | src/helpers/conditions-util.js:24 | Any suffix with those three properties is the TrimStart result |
| JsStrings.TrimEndUnique | src/helpers/conditions-util.js:24 | Any prefix with those three properties is the TrimEnd result |
| JsStrings.TrimStartIdempotent | src/helpers/conditions-util.js:24 | Trimming the start twice equals trimming it once |
| JsStrings.TrimEndIdempotent | src/helpers/conditions-util.js:24 | Trimming the end twice equals trimming it once |
| JsStrings.TrimEndAppended | src/helpers/helpers.js:37-39 | Characters of the trimmed class appended to a string are all removed again |
| JsStrings.TrimEmptyIffBlank | src/helpers/conditions-util.js:24 | `s.trim()` is empty exactly when every character of `s` is white space |
| JsStrings.TrimOfChar | src/helpers/conditions-util.js:35 | A one-character string trims to nothing exactly when the character is white space |
| JsStrings.ReplaceFirst | src/twitter/direct-messaging.js:22 | Defines `s.replace(c, '')` with a one-character string pattern: the first occurrence of `c` removed |
| JsStrings.ReplaceFirstAtIndexOf | src/twitter/direct-messaging.js:22 | `s.replace(c, '')` returns `s` when `c` is absent, and otherwise `s` without the character at `s.indexOf(c)` |
| JsArrays.IndexOf | src/services/api.service.js:25 | `indexOf` gives -1 exactly for an absent element, and otherwise an index holding it with no earlier occurrence |
| JsArrays.RemoveAt | src/services/api.service.js:28 | `splice(i, 1)` shortens the list by one, keeps the elements before `i` and shifts those after it down by one |
| JsArrays.RemoveFirst | src/services/api.service.js:25-29 | Deleting by `indexOf` then `splice` leaves the list unchanged when the element is absent, and shortens it by one otherwise |
| JsArrays.RemoveFirstCounts | src/services/api.service.js:25-29 | Exactly one copy of the element is removed when there is one, and nothing else changes in the multiset |
| JsArrays.RemoveFirstReinserted | src/services/api.service.js:25-29 | Putting the element back at the index it came from rebuilds the list, and no copy of it precedes that index |
| JsArrays.RemoveOnlyCopy | src/services/api.service.js:25-29 | Removing the only copy of an element leaves no copy behind |
| JsArrays.RemoveAppended | src/services/api.service.js:14-29 | Removing a just-appended element that occurs nowhere else restores the list |
| Api.Substitute | src/services/api.service.js:15-17 | The callback turns `x` into the hex digit of its draw and `y` into one of 8, 9, a, b |
| Api.Fill | src/services/api.service.js:15-18 | The filled template has the template's length, keeps every non-placeholder character, puts a hex digit at each `x` and one of 8, 9, a, b at the `y` |
| Api.KeyTemplateDraws | src/services/api.service.js:15 | The template has 31 placeholders, so a key takes 31 random draws |
| Api.KeyTemplateShape | src/services/api.service.js:15 | The template is 36 characters long, with dashes at 8, 13, 18, 23, the version `4` at 14, the `y` at 19, and `x` everywhere else |
| Api.NewKey | src/services/api.service.js:15-18 | Defines the generated key: the UUID template with its placeholders filled from the 31 draws |
| Api.NewKeyLayout | src/services/api.service.js:15-18 | Every generated key has the version 4 UUID layout of section 4.4 of RFC 4122 in lower-case hex |
| Api.DevKeyLayout | src/services/api.service.js:10 | The hard-coded development key has the same layout |
| Api.ApiService.constructor | src/services/api.service.js:8-12 | A fresh store holds exactly the development key, and that key is valid |
| Api.ApiService.IsKeyValid | src/services/api.service.js:36-38 | A key is valid exactly when it is in the list |
| Api.ApiService.CreateKey | src/services/api.service.js:14-22 | The new key is the filled template; it is appended after the earlier keys, which are unchanged; it is valid afterwards |
| Api.ApiService.DeleteKey | src/services/api.service.js:24-34 | True exactly when the key was present; the list loses its first occurrence and shrinks by one; an absent key leaves the list unchanged |
| Api.DeletedKeyIsInvalid | src/services/api.service.js:24-38 | After deleting a key held once it is no longer valid |
| Api.DeleteUndoesCreate | src/services/api.service.js:14-34 | Deleting a freshly created key that was not already stored restores the store |
| Api.CreateDeleteScenario | src/services/api.service.js:14-38 | A client scenario: a created key is valid beside the development key; deleting it leaves only the development key and the key invalid, and a second delete reports false |
| Browser.Saved | src/services/browser.service.js:32-36 | The key is in the new list; it is put in front when absent; the list is unchanged when it is present |
| Browser.SavedIdempotent | src/services/browser.service.js:32-36 | Saving the same key twice equals saving it once |
| Browser.SavedKeepsOthers | src/services/browser.service.js:32-36 | The old list is a suffix of the new one, so all entries keep their relative order; a list without repeats stays without repeats |
| Browser.NewestFirst | src/services/browser.service.js:33 | A newly saved key sits at index 0 |
| Browser.Loaded | src/services/browser.service.js:55-60 | `null` exactly when the index is not below the length; the entry at a valid index; `undefined` for a negative index |
| Browser.LoadAfterSave | src/services/browser.service.js:48-60 | After saving a new key, loading at the default index 0 returns it |
| Browser.GistFile.constructor | src/services/browser.service.js:29-30 | The gist file holds the given list |
| Browser.BrowserService.constructor | src/services/browser.service.js:11-20 | The gist id and file are recorded, and no session is loaded (`sessionKey` is null) |
| Browser.BrowserService.SaveSessionKey | src/services/browser.service.js:28-39 | The stored list becomes `Saved(old list, key)`; only the gist file changes |
| Browser.BrowserService.LoadSessionKey | src/services/browser.service.js:48-61 | Returns `Loaded(list, index)`; a non-null result becomes the loaded session; on null the loaded session is unchanged |
| Browser.BrowserService.ClearAllKeys | src/services/browser.service.js:67-72 | The stored list becomes empty |
| Browser.SharedGistScenario | src/services/browser.service.js:28-72 | A client scenario: a key saved through one service is loaded by another on the same gist; after a clear, loading gives null and the loaded session stays |
| Helpers.TrimLeft | src/helpers/helpers.js:9-14 | The result is a suffix of the input; every removed character is in the charlist; the result does not start with one; no charlist means the letter `s` |
| Helpers.TrimRight | src/helpers/helpers.js:23-28 | The result is a prefix of the input; every removed character is in the charlist; the result does not end with one; no charlist means the letter `s` |
| Helpers.TrimLeftIdempotent | src/helpers/helpers.js:9-14 | `trimLeft` applied twice equals `trimLeft` applied once |
| Helpers.TrimRightIdempotent | src/helpers/helpers.js:23-28 | `trimRight` applied twice equals `trimRight` applied once |
| Helpers.DefaultCharlistStripsLetterS | src/helpers/helpers.js:9-28 | Without a charlist only the letter `s` is stripped (`'\s'` is the string "s"): "sassy" loses its first `s`, "class" its last two, and a leading blank stays |
| Helpers.UrlsEqual | src/helpers/helpers.js:37-39 | Defines `urlsEqual`: the two URLs agree once trailing slashes are trimmed from both |
| Helpers.UrlsEqualIsEquivalence | src/helpers/helpers.js:37-39 | `urlsEqual` is reflexive, symmetric and transitive |
| Helpers.UrlsEqualUpToTrailingSlashes | src/helpers/helpers.js:37-39 | A URL equals itself followed by any number of slashes |
| Helpers.UrlsEqualExamples | src/helpers/helpers.js:37-39 | `u` equals `u + "/"` and `u + "///"`; the site URL with and without the slash are equal; the home page differs from the site URL |
| Helpers.TagLength | src/helpers/helpers.js:52 | A tag at the head is at least three characters long, ends with the first `>` after the `<`, and holds no other `>` |
| Helpers.TagAtIsPattern | src/helpers/helpers.js:52 | A tag starts at the head exactly when the pattern `<[^>]+>` matches there |
| Helpers.StripTags | src/helpers/helpers.js:51-53 | Defines `stripTags`: scanning left to right, each `<` followed by at least one non-`>` character and a `>` is dropped with them; other characters are kept |
| Helpers.StripTagsIsSubsequence | src/helpers/helpers.js:51-53 | The output of `stripTags` is the input with some characters deleted |
| Helpers.StripTagsOfTagFree | src/helpers/helpers.js:51-53 | A string in which no tag starts is unchanged |
| Helpers.StripTagsWithoutLt | src/helpers/helpers.js:51-53 | A string without `<` is unchanged |
| Helpers.StripTagsLeavesNoTag | src/helpers/helpers.js:51-53 | No tag starts anywhere in the output |
| Helpers.StripTagsIdempotent | src/helpers/helpers.js:51-53 | Stripping twice equals stripping once |
| Helpers.StripTagsKeepsEmptyBrackets | src/helpers/helpers.js:51-53 | "<>" is not a tag and survives |
| Helpers.StripTagsExample | src/helpers/helpers.js:51-53 | "<b>hi</b>" strips to "hi" |
| Helpers.TextThenClosingTag | src/helpers/helpers.js:51-53 | "hi</b>" strips to "hi" |
| Helpers.ClosingTagDropped | src/helpers/helpers.js:51-53 | "</b>" strips to the empty string |
| Helpers.WrapError | src/helpers/helpers.js:55-60 | The wrapped object has the error's name and message |
| Helpers.WrapErrorKeepsNameAndMessage | src/helpers/helpers.js:55-60 | Two errors wrap to the same object exactly when their names and messages agree |
| Puppeteer.GetAttribute | src/twitter/direct-messaging.js:28-30 | `getAttribute` is null exactly when the attribute is absent, and its value otherwise |
| Puppeteer.Attempt | src/twitter/twitter.js:31-65 | The steps performed inside one `try` are no more than the plan |
| Puppeteer.AttemptPrefix | src/twitter/twitter.js:31-65 | The steps performed are a prefix of the plan |
| Puppeteer.AttemptSpec | src/twitter/twitter.js:31-65 | A plan that completes is performed whole; otherwise the steps stop right after the first failing one, and all before it succeeded |
| Puppeteer.AttemptOutcome | src/twitter/twitter.js:60-65 | The steps performed all succeeded exactly when the whole plan did, so the `catch` reports whether some step failed |
| Puppeteer.AttemptStops | src/twitter/twitter.js:31-65 | When step `k` is the first to fail, nothing after it is attempted |
| Puppeteer.AttemptThen | src/twitter/user.js:17-34 | Running `plan + more` runs `plan` and, only if it completed, `more` |
| Puppeteer.ClickAll | src/twitter/user.js:198-200 | The `for ... of` click loop issues one click per match, in document order |
| Puppeteer.QueryClick | src/twitter/user.js:106 | `(await page.$(sel)).click()` first queries; it clicks only when the query succeeded and found a node |
| Puppeteer.UrlAfterAppend | src/twitter/user.js:17-34 | The URL after two stretches of steps is the URL the second reaches from where the first left the page |
| Puppeteer.UrlAfterStill | src/twitter/user.js:17-34 | Steps without a navigation, where the browser does not move by itself, leave `page.url()` unchanged |
| Puppeteer.UrlAfterOpen | src/twitter/twitter.js:82-85 | A navigation followed by steps without one, and no move by the browser itself, lands on the target exactly when the navigation succeeds |
| Puppeteer.UrlFollowsTrace | src/twitter/user.js:72 | Across any calls, `page.url()` is the URL the newly performed steps lead to from the old one |
| Puppeteer.Page.constructor | src/twitter/user.js:72 | A new page is at its start URL with an empty trace |
| Puppeteer.Page.Perform | src/twitter/user.js:18 | One awaited step is appended to the trace, and `page.url()` becomes what `Landed` gives: where the browser moved by itself if it did, else the target of a successful navigation, else where it was |
| Puppeteer.Page.Query | src/twitter/user.js:22 | `page.$(sel)` gives the first match, or null when nothing matches |
| Puppeteer.Page.QueryAll | src/twitter/user.js:131 | `page.$$(sel)` and `page.$$eval(sel, ...)` give every match in document order |
| Puppeteer.Page.EvalFirst | src/twitter/user.js:172-174 | `page.$eval(sel, ...)` sees the first match and fails when there is none |
| Puppeteer.Page.EvalWithin | src/twitter/direct-messaging.js:19 | `element.$eval(sel, ...)` sees the element's descendant and fails when there is none |
| Puppeteer.Page.Run | src/twitter/user.js:77-82 | Awaited steps run until the first failure: the trace grows by the attempt, and the result says whether all succeeded |
| Puppeteer.Page.Open | src/twitter/twitter.js:82-85 | A navigation then awaited steps: the trace grows by the attempt of the whole plan, and the result says whether it completed |
| Puppeteer.Page.OpenWaiting | src/twitter/user.js:18-20 | Navigation then a wait; when both succeed they are exactly the steps performed |
| Puppeteer.Page.OpenListing | src/twitter/user.js:127-131 | Navigation, wait and `$$`: the handles are the matches at the listing step, or none on failure |
| Puppeteer.Page.GotoThen | src/twitter/twitter.js:82-85 | The same as Open, stated step by step: the plan runs only after a successful navigation |
| Puppeteer.Page.ClickFirst | src/twitter/user.js:106 | The query and the click on its result; it throws on a failed query, a null handle or a failed click |
| SharedData.Data.constructor | src/twitter/twitter.js:11-14 | `data` starts with the base URL `https://twitter.com`, no session and no username |
| Twitter.LoginPlan | src/twitter/twitter.js:32-58 | Defines the steps of `login`: the navigation to `/login`, then the form login without a session, or the one `sessionStorage` restore with one |
| Twitter.LogoutPlan | src/twitter/twitter.js:82-85 | Defines the steps of `logout`: the navigation to `/logout`, then the wait for and the click on the confirmation button |
| Twitter.FormLogin | src/twitter/twitter.js:35-43 | The form login does not navigate, types twice and clicks the submit button once |
| Twitter.LoginWithSessionSkipsForm | src/twitter/twitter.js:32-60 | With a stored session, `login` neither types nor clicks, and it succeeds exactly when the navigation and the session restore succeed |
| Twitter.FormLoginOrder | src/twitter/twitter.js:32-45 | A fresh login types the username, then the password, then submits at most once; success means the dashboard was found |
| Twitter.Twitter.constructor | src/twitter/twitter.js:9-14 | A new facade on the page with a fresh `data`: base URL, no session |
| Twitter.Twitter.Login | src/twitter/twitter.js:28-67 | The username is recorded first; the steps of the login plan run until one fails; the result says whether all succeeded; only a successful form login stores the marker |
| Twitter.Twitter.Logout | src/twitter/twitter.js:74-96 | Without a session: false, no step, nothing changes. With one: the logout steps run until one fails; only full success clears the session and gives true |
| Twitter.Twitter.User | src/twitter/twitter.js:103-105 | The new `User` shares the page and the very same `data` object, so later logins and logouts are visible through it |
| Twitter.SharedDataScenario | src/twitter/twitter.js:103-105 | A client scenario: a `User` handed out before a login sees the username and the session that login stores, and what a later logout does to them |
| Messaging.ItemAttempt | src/twitter/direct-messaging.js:19-37 | The four `$eval` calls on an item run until the first fails; each fails exactly when its part is missing or the oracle raises; when all succeed, the item has every part |
| Messaging.ItemsPlan | src/twitter/direct-messaging.js:17-40 | The flat plan of the item loop has four calls per item |
| Messaging.ItemsAttemptIsPlanAttempt | src/twitter/direct-messaging.js:17-40 | The item-by-item loop performs the same steps as the attempt of the flat plan, and completes exactly when it does |
| Messaging.ItemsExtractable | src/twitter/direct-messaging.js:17-40 | When the loop completes, every item had all four parts |
| Messaging.ConversationOf | src/twitter/direct-messaging.js:18-38 | Defines the record built from one complete inbox item: the name, the handle without its first `@`, the thread id, the last message id, the mute flag and the time |
| Messaging.ListRun | src/twitter/direct-messaging.js:8-50 | Defines what `list()` performs and returns: the opening, then the items one by one; false at the first failure, otherwise the records in order |
| Messaging.ListFalseOnAnyFailure | src/twitter/direct-messaging.js:8-50 | `list()` performs the flat plan (navigation, wait, listing, four calls per item) up to the first failure, and gives a list exactly when every step succeeded |
| Messaging.ListOnePerItem | src/twitter/direct-messaging.js:14-44 | A list holds one conversation per inbox item, in page order, each built from its own item |
| Messaging.ListRejectsIncompleteItem | src/twitter/direct-messaging.js:17-49 | An inbox item that lacks any part makes the listing false, never a partial list |
| Messaging.UsernameDropsFirstAt | src/twitter/direct-messaging.js:20-23 | The username is the handle with only its first `@` removed; a handle without `@` is kept whole |
| Messaging.MutedOnlyByExactTrue | src/twitter/direct-messaging.js:28-30 | `is_muted` holds exactly when `data-is-muted` is the string "true"; with no attributes the conversation is not muted and its `id` is null |
| Messaging.DirectMessaging.constructor | src/twitter/direct-messaging.js:3-6 | The facade keeps the given page and data |
| Messaging.DirectMessaging.List | src/twitter/direct-messaging.js:8-50 | The trace grows by the steps of `ListRun` and the result is its result |
| Messaging.DirectMessaging.ExtractAll | src/twitter/direct-messaging.js:17-40 | The loop performs the item-by-item attempt; it completes exactly when every item's calls succeed, and then the records are `Conversations(items)`, in order |
| Messaging.DirectMessaging.Extract | src/twitter/direct-messaging.js:18-39 | One item's calls run until the first fails; on success the item has every part and the record is `ConversationOf(item)` |
| Messaging.DirectMessaging.Create | src/twitter/direct-messaging.js:52-54 | An empty body: no effect, result undefined |
| Messaging.DirectMessaging.Reply | src/twitter/direct-messaging.js:56-58 | An empty body: no effect, result undefined |
| Messaging.DirectMessaging.Delete | src/twitter/direct-messaging.js:60-62 | An empty body: no effect, result undefined |
| Profile.NetworkUrl | src/twitter/user.js:190-194 | The list page of `username` when `isNotNullNorEmpty(username)` holds, the own list page otherwise |
| Profile.NetworkUrlEdgeCases | src/twitter/user.js:190-194 | The empty default name gives `baseurl + "//followers"`; a name with a blank gives `baseurl + "/followers"` |
| Profile.ToggleFollowRun | src/twitter/user.js:16-35 | Defines what `follow` and `unfollow` perform: the opening and the marker lookup, then the wait and the click only when the marker is present, up to the first failure; true when none failed |
| Profile.ToggleFollowClicksOnlyWhenMarked | src/twitter/user.js:16-35 | The follow button is clicked at most once, and exactly when the lookup succeeded, the marker was present and the second wait succeeded; with no marker the result is true and nothing is clicked; the result says whether every step succeeded |
| Profile.TweetCompose | src/twitter/user.js:77-82 | Composing does not navigate, types once and clicks the tweet button once |
| Profile.TweetPlan | src/twitter/user.js:72-82 | Defines the steps of `tweet` from the current URL: the navigation home and the wait only when the page is elsewhere, then the compose steps |
| Profile.TweetNavigatesOnlyWhenAway | src/twitter/user.js:72-82 | `tweet` navigates exactly when `!urlsEqual(page.url(), baseurl)`, and then to the base URL first; it types once and submits once |
| Profile.LikeRun | src/twitter/user.js:99-117 | Defines what `like` performs: the opening of the status page and the wait, then the inner `try` around the click; true when the opening succeeded |
| Profile.LikeSwallowsClickFailure | src/twitter/user.js:99-117 | `like` is true exactly when the navigation and the wait succeed, whatever the click does; the button is clicked at most once |
| Profile.RetweetRun | src/twitter/user.js:335-354 | Defines what `retweet` performs: the opening of the status page and the wait, then the inner `try` around the retweet click and its confirmation |
| Profile.RetweetConfirmsOnlyAfterClick | src/twitter/user.js:335-354 | `retweet` is true exactly when the navigation and the wait succeed; the confirmation is clicked only after the retweet click went through; each is clicked at most once |
| Profile.QueryClickCounts | src/twitter/user.js:106 | `(await page.$(sel)).click()` clicks `sel` at most once and no other selector |
| Profile.LikeLastTweetRun | src/twitter/user.js:160-180 | Defines what `likeLastTweet` performs: the opening of the profile and the wait, the swallowed click on the first like button, then the read of the first tweet's id |
| Profile.RetweetLastTweetRun | src/twitter/user.js:306-327 | Defines what `retweetLastTweet` performs: the same shape with the retweet click and its confirmation |
| Profile.LastTweetIdDespiteClicks | src/twitter/user.js:160-180 | Whatever the inner clicks do, the id is read; the result is false exactly when opening, waiting or reading failed, and otherwise it is the first tweet's `data-tweet-id` |
| Profile.LikeRecentTweetsRun | src/twitter/user.js:125-153 | Defines what `likeRecentTweets` performs: the opening and the listing, one click per button whatever it does, then the read of the ids; `[]` when the opening fails |
| Profile.LikeRecentTweetsClicksEvery | src/twitter/user.js:131-137 | Once the buttons are listed, every one gets its click, failing or not, in document order, and the tweets are read after the last click |
| Profile.LikeRecentTweetsIds | src/twitter/user.js:139-147 | The ids come back one per tweet, in document order, null for a tweet without the attribute |
| Profile.LikeRecentTweetsNoClickOnFailure | src/twitter/user.js:125-152 | When opening or listing fails, nothing is clicked and the result is `[]` |
| Profile.FollowAllRun | src/twitter/user.js:188-208 | Defines what the follow loops perform: the opening and the listing, then one click per button up to the first failure; true when none failed |
| Profile.FollowAllRunFollowsPlan | src/twitter/user.js:196-207 | The staged run performs the plan (listing, then one click per button) up to its first failure, and is true exactly when the plan completes |
| Profile.FollowAllClicksEvery | src/twitter/user.js:198-202 | On success every follow button was clicked once, in document order |
| Profile.FollowAllStopsAtFailure | src/twitter/user.js:196-207 | The result says whether every step succeeded; on failure the last step performed is the one that failed |
| Profile.ScrapeRun | src/twitter/user.js:240-265 | Defines what `followers` and `interests` perform: the opening, the wait and the `$$eval`, and returns the handles but the first, or `[]` on a failure |
| Profile.ScrapeDropsFirst | src/twitter/user.js:248-264 | The result is the scraped texts in page order with exactly the first dropped (zero or one match gives `[]`); any failure gives `[]` |
| Profile.CollectTweetIds | src/twitter/user.js:140-146 | The callback's push loop returns each element's `data-tweet-id`, in order |
| Profile.CollectHandles | src/twitter/user.js:251-258 | The callback's push loop then `shift()` returns the texts of all elements but the first, in order |
| Profile.User.constructor | src/twitter/user.js:5-8 | The facade keeps the given page and data |
| Profile.User.Follow | src/twitter/user.js:16-35 | The trace grows by the steps of `ToggleFollowRun` with the not-following marker, and the result is its result |
| Profile.User.Unfollow | src/twitter/user.js:43-62 | The trace grows by the steps of `ToggleFollowRun` with the following marker, and the result is its result |
| Profile.User.ToggleFollow | src/twitter/user.js:17-34 | The body follow and unfollow share: the lookup, then the wait and click only when the marker is present |
| Profile.User.Tweet | src/twitter/user.js:70-90 | The trace grows by the attempt of `TweetPlan` from the current `page.url()`, and the result says whether it completed |
| Profile.User.Like | src/twitter/user.js:99-117 | The trace grows by the steps of `LikeRun`, and the result is its result |
| Profile.User.Retweet | src/twitter/user.js:335-354 | The trace grows by the steps of `RetweetRun`, and the result is its result |
| Profile.User.ClickRetweet | src/twitter/user.js:312-317 | The inner `try`: the retweet click, then the confirmation only after it went through; failures are swallowed |
| Profile.User.LikeLastTweet | src/twitter/user.js:160-180 | The trace grows by the steps of `LikeLastTweetRun`, and the result is the first tweet's id or false |
| Profile.User.RetweetLastTweet | src/twitter/user.js:306-327 | The trace grows by the steps of `RetweetLastTweetRun`, and the result is the first tweet's id or false |
| Profile.User.LikeRecentTweets | src/twitter/user.js:125-153 | The trace grows by the steps of `LikeRecentTweetsRun`, and the result is its list of ids |
| Profile.User.ClickEachIgnoringFailures | src/twitter/user.js:131-137 | Each of the listed buttons is clicked in turn, and a failing click does not stop the loop |
| Profile.User.ClickEachUntilFailure | src/twitter/user.js:198-200 | The buttons are clicked in turn until one click fails, and the result says whether all succeeded |
| Profile.User.FollowNetwork | src/twitter/user.js:188-208 | The run of `FollowAllRun` on the followers URL chosen by `NetworkUrl` |
| Profile.User.FollowInterests | src/twitter/user.js:216-232 | The run of `FollowAllRun` on `baseurl/username/following` |
| Profile.User.FollowAll | src/twitter/user.js:218-226 | The body both follow methods share: open the list, wait, list the buttons, click each until one fails |
| Profile.User.Followers | src/twitter/user.js:240-265 | The run of `ScrapeRun` on the followers URL chosen by `NetworkUrl` |
| Profile.User.Interests | src/twitter/user.js:273-298 | The run of `ScrapeRun` on the following URL chosen by `NetworkUrl` |
| Profile.User.Scrape | src/twitter/user.js:276-292 | The scrape both list methods share: open, wait, collect the handles with the first dropped |

## Left out

- The browser itself is left out: puppeteer, the network, page loading (`networkidle2`) and CSS selector matching. They are the `Env` oracle: whether a step fails, which elements a selector matches at each step, and which URL the browser reached by itself during a step (redirects and navigations caused by clicks are not derived from the page's content). Selectors are opaque labels.
- Values with a `length` other than strings and arrays are not modelled: array-like objects, and functions, whose `length` is their parameter count. `Other` stands for values without a `length` only.
- `innerText` is the element's text field. Layout-dependent text rendering is not modelled.
- The numeric coercions `+getAttribute(...)` of `last_message_id` and `timestamp` (src/twitter/direct-messaging.js:29, 36) are floating point with NaN. The records keep the raw attributes instead.
- `Math.random()` in `createKey` is floating point and random. The 31 digits `Math.random() * 16 | 0` are a parameter.
- The GitHub gist HTTP calls are abstracted: `axios`, the bearer token, `JSON.parse` and `JSON.stringify`. The stored file is a shared `GistFile` object holding the list of keys.
- `Helpers.sleep` uses timers, and is not modelled.
- A charlist with regex metacharacters (`]`, `\`, `^`, `-`) is excluded by `Helpers.TrimLeft`'s and `Helpers.TrimRight`'s requires. The code only ever passes `'/'`.
- The `dialog` auto-accept handler of the Twitter constructor is an event callback and is not modelled.
- The browser-side `sessionStorage` restore in `login` is one step that may fail.
- `console.log` is not modelled.
- Asynchronous interleaving of concurrent requests on the one shared page is not modelled. Every method runs its awaited steps to completion before the next starts.
- src/routes.js, server.js and src/devices.profiles.js are not part of this model. They are HTTP routing, process bootstrap and a constant device profile.
