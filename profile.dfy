/**
 * The `User` facade: profile actions driven through the shared page. Every method opens a
 * page, waits for an anchor element and acts on it inside one `try`; a failing step jumps
 * to the `catch`, which gives `false` (or `[]` for the methods that return lists), while a
 * few clicks sit in an inner `try` of their own whose failure is ignored.
 */
module Profile {
  import opened JsValues
  import opened Puppeteer
  import opened SharedData
  import Conditions
  import Helpers

  const FollowButton: Selector := ".ProfileNav-list .user-actions .js-follow-btn"
  const NotFollowingMarker: Selector := ".ProfileNav-list .user-actions.not-following"
  const FollowingMarker: Selector := ".ProfileNav-list .user-actions.following"
  const TweetBox: Selector := "#tweet-box-home-timeline"
  const TweetBoxReady: Selector := "#tweet-box-home-timeline.is-showPlaceholder"
  const TweetButton: Selector := ".js-tweet-btn"
  const PermalinkFavorite: Selector := ".PermalinkOverlay-modal div.stream-item-footer .ProfileTweet-actionButton.js-actionFavorite"
  const PermalinkRetweet: Selector := ".PermalinkOverlay-modal div.stream-item-footer .ProfileTweet-actionButton.js-actionRetweet"
  const FavoriteAction: Selector := ".ProfileTweet-action--favorite"
  const FavoriteButton: Selector := ".ProfileTweet-actionButton.js-actionFavorite"
  const RetweetAction: Selector := ".ProfileTweet-action--retweet"
  const RetweetButton: Selector := ".ProfileTweet-actionButton.js-actionRetweet"
  const RetweetConfirm: Selector := ".RetweetDialog-retweetActionLabel"
  const TweetItem: Selector := "div[data-tweet-id]"
  const TweetIdAttribute: string := "data-tweet-id"
  const MainContent: Selector := ".AppContent-main"
  const MainFollowButton: Selector := ".AppContent-main .js-follow-btn"
  const HandleLink: Selector := ".AppContent-main .username.u-dir .u-linkComplex-target"

  function ProfileUrl(base: string, username: string): string {
    base + "/" + username
  }

  function StatusUrl(base: string, username: string, tweetId: string): string {
    base + "/" + username + "/status/" + tweetId
  }

  /** The followers or following page (`list` is "followers" or "following") of `username`
      when `isNotNullNorEmpty(username)` holds, the signed-in user's own otherwise. */
  function NetworkUrl(base: string, username: string, list: string): (url: string)
    ensures Conditions.NotNullNorEmpty(Str(username)) ==> url == base + "/" + username + "/" + list
    ensures !Conditions.NotNullNorEmpty(Str(username)) ==> url == base + "/" + list
  {
    if Conditions.NotNullNorEmpty(Str(username)) then base + "/" + username + "/" + list else base + "/" + list
  }

  /** The empty default name passes `isNotNullNorEmpty`, so it yields a double slash; a name
      with a blank in it fails it and falls back to the own list. */
  lemma NetworkUrlEdgeCases(base: string)
    ensures NetworkUrl(base, "", "followers") == base + "//followers"
    ensures NetworkUrl(base, "a b", "followers") == base + "/followers"
  {
    Conditions.NotNullNorEmptyEdgeCases();
    Conditions.NotNullNorEmptyStringExamples();
    assert base + "/" + "" + "/" + "followers" == base + "//followers";
  }

  // ---------------------------------------------------------------------------------------
  // Follow and unfollow

  /** The steps of `follow` (marker: not following) and `unfollow` (marker: following): open
      the profile, wait for the button, look for the marker, and only when it is there wait
      for the button again and click it. */
  function ToggleFollowPlan(env: Env, t: nat, url: string, marker: Selector): seq<Step> {
    var lookup := [Goto(url)] + [WaitForSelector(FollowButton)] + [Query(marker)];
    if Completes(env, lookup, t) && |env.dom(t + 2, marker)| > 0 then lookup + [WaitForSelector(FollowButton), Click(FollowButton)]
    else lookup
  }

  function ToggleFollowRun(env: Env, t: nat, url: string, marker: Selector): Outcome<bool> {
    var plan := ToggleFollowPlan(env, t, url, marker);
    Outcome(Attempt(env, plan, t), Completes(env, plan, t))
  }

  /** The button is clicked at most once, and it is clicked exactly when the lookup went
      through, the marker was present and the second wait succeeded. When the marker is
      absent nothing is clicked and the result is still true. Any failing step gives false. */
  lemma ToggleFollowClicksOnlyWhenMarked(env: Env, t: nat, url: string, marker: Selector)
    requires marker != FollowButton
    ensures var run := ToggleFollowRun(env, t, url, marker);
      var lookup := [Goto(url)] + [WaitForSelector(FollowButton)] + [Query(marker)];
      && Clicks(run.steps, FollowButton) <= 1
      && (Clicks(run.steps, FollowButton) == 1 <==>
            Completes(env, lookup, t) && |env.dom(t + 2, marker)| > 0 && StepOk(env, t + 3, WaitForSelector(FollowButton)))
      && (Completes(env, lookup, t) && |env.dom(t + 2, marker)| == 0 ==> run.result && Clicks(run.steps, FollowButton) == 0)
      && (run.result <==> Completes(env, run.steps, t))
  {
    var lookup := [Goto(url)] + [WaitForSelector(FollowButton)] + [Query(marker)];
    assert lookup == [Goto(url), WaitForSelector(FollowButton), Query(marker)];
    var plan := ToggleFollowPlan(env, t, url, marker);
    var done := Attempt(env, plan, t);
    AttemptOutcome(env, plan, t);
    assert Clicks(lookup, FollowButton) == 0 by {
      assert lookup[2..][1..] == [] && Clicks(lookup[2..], FollowButton) == 0;
      assert lookup[1..][1..] == lookup[2..];
    }
    if Completes(env, lookup, t) && |env.dom(t + 2, marker)| > 0 {
      var tail := [WaitForSelector(FollowButton), Click(FollowButton)];
      AttemptAppend(env, lookup, tail, t);
      ClicksAppend(lookup, Attempt(env, tail, t + 3), FollowButton);
      assert tail[1..] == [Click(FollowButton)];
      assert Attempt(env, tail, t + 3) == if StepOk(env, t + 3, tail[0]) then tail else [tail[0]];
    } else {
      AttemptSpec(env, plan, t);
      ClicksPrefix(lookup, |done|, FollowButton);
    }
  }

  // ---------------------------------------------------------------------------------------
  // Tweeting

  /** Writing and sending a tweet: open the box, wait until it is ready, type, submit. */
  function TweetCompose(text: string): (plan: seq<Step>)
    ensures NoNavigation(plan) && Typings(plan) == 1 && Clicks(plan, TweetButton) == 1
  {
    var plan := [WaitForSelector(TweetBox), Click(TweetBox), WaitForSelector(TweetBoxReady), Type(TweetBox, text),
       WaitForSelector(TweetButton), Click(TweetButton)];
    assert Typings(plan[5..]) == 0 && Clicks(plan[5..], TweetButton) == 1;
    assert plan[4..][1..] == plan[5..];
    assert plan[3..][1..] == plan[4..];
    assert Typings(plan[3..]) == 1 && Clicks(plan[3..], TweetButton) == 1;
    assert plan[2..][1..] == plan[3..];
    assert plan[1..][1..] == plan[2..];
    assert Typings(plan[1..]) == 1 && Clicks(plan[1..], TweetButton) == 1;
    plan
  }

  /** Going home before tweeting, unless the page is already there. */
  function TweetNavigation(current: string, base: string): seq<Step> {
    if Helpers.UrlsEqual(current, base) then [] else [Goto(base), WaitForSelector(TweetButton)]
  }

  /** The steps of `tweet(text)` from a page at `current`. */
  function TweetPlan(current: string, base: string, text: string): seq<Step> {
    TweetNavigation(current, base) + TweetCompose(text)
  }

  /** `tweet` navigates exactly when the page is not already on the home page (trailing
      slashes aside), and then to the home page first of all; it types once, the text itself,
      into the tweet box, and submits once. */
  lemma TweetNavigatesOnlyWhenAway(current: string, base: string, text: string)
    ensures var plan := TweetPlan(current, base, text);
      && ((exists i :: 0 <= i < |plan| && plan[i].Goto?) <==> !Helpers.UrlsEqual(current, base))
      && (!Helpers.UrlsEqual(current, base) ==> plan[0] == Goto(base))
      && Typings(plan) == 1
      && Clicks(plan, TweetButton) == 1
  {
    var nav := TweetNavigation(current, base);
    var compose := TweetCompose(text);
    var plan := nav + compose;
    assert Typings(nav) == 0 && Clicks(nav, TweetButton) == 0 by {
      if nav != [] {
        assert nav[1..][1..] == [];
      }
    }
    ClicksAppend(nav, compose, TweetButton);
    TypingsAppend(nav, compose);
    if Helpers.UrlsEqual(current, base) {
      assert plan == compose;
      assert NoNavigation(plan);
    } else {
      assert plan[0] == Goto(base);
      assert TweetPlan(current, base, text)[0].Goto?;
    }
  }

  lemma {:induction false} TypingsAppend(a: seq<Step>, b: seq<Step>)
    ensures Typings(a + b) == Typings(a) + Typings(b)
  {
    if a == [] {
      assert a + b == b;
    } else {
      assert (a + b)[1..] == a[1..] + b;
      TypingsAppend(a[1..], b);
    }
  }

  // ---------------------------------------------------------------------------------------
  // Likes and retweets

  /** The steps of `like` and `retweet`: open the tweet's page and wait for the action
      button; the clicks that follow sit in an inner `try`, so whatever they do the result
      is true. */
  function ActOnTweetRun(env: Env, t: nat, url: string, anchor: Selector, clicks: seq<Step>): Outcome<bool> {
    var open := [Goto(url), WaitForSelector(anchor)];
    if Completes(env, open, t) then Outcome(open + clicks, true) else Outcome(Attempt(env, open, t), false)
  }

  /** The clicks of the retweet button `button` and then, only once that click went through,
      of the confirmation in the retweet dialog. */
  function RetweetClicks(env: Env, t: nat, button: Selector): seq<Step> {
    var first := QueryClick(env, t, button);
    if QueryClicked(env, t, button) then first + QueryClick(env, t + 2, RetweetConfirm) else first
  }

  function LikeRun(env: Env, t: nat, base: string, tweetId: string, username: string): Outcome<bool> {
    ActOnTweetRun(env, t, StatusUrl(base, username, tweetId), PermalinkFavorite, QueryClick(env, t + 2, PermalinkFavorite))
  }

  function RetweetRun(env: Env, t: nat, base: string, tweetId: string, username: string): Outcome<bool> {
    ActOnTweetRun(env, t, StatusUrl(base, username, tweetId), PermalinkRetweet, RetweetClicks(env, t + 2, PermalinkRetweet))
  }

  /** A failed like click is swallowed: `like` is true exactly when opening the tweet and
      waiting for its like button succeed, and then it has tried one click at most. */
  lemma LikeSwallowsClickFailure(env: Env, t: nat, base: string, tweetId: string, username: string)
    ensures var run := LikeRun(env, t, base, tweetId, username);
      && (run.result <==> StepOk(env, t, Goto(StatusUrl(base, username, tweetId))) && StepOk(env, t + 1, WaitForSelector(PermalinkFavorite)))
      && Clicks(run.steps, PermalinkFavorite) <= 1
      && (run.result ==> run.steps[2] == Query(PermalinkFavorite))
  {
    var url := StatusUrl(base, username, tweetId);
    var open := [Goto(url), WaitForSelector(PermalinkFavorite)];
    AttemptCons(env, Goto(url), [WaitForSelector(PermalinkFavorite)], t);
    assert [WaitForSelector(PermalinkFavorite)][1..] == [];
    assert Clicks(open, PermalinkFavorite) == 0 by {
      assert open[1..][1..] == [];
    }
    var clicks := QueryClick(env, t + 2, PermalinkFavorite);
    assert Clicks(clicks, PermalinkFavorite) <= 1 by {
      if |clicks| == 2 {
        assert clicks[1..][1..] == [];
      }
    }
    ClicksAppend(open, clicks, PermalinkFavorite);
    AttemptSpec(env, open, t);
    ClicksPrefix(open, |Attempt(env, open, t)|, PermalinkFavorite);
  }

  /** `retweet` is true exactly when opening the tweet and waiting for its retweet button
      succeed; the dialog's confirmation is clicked only after the retweet click itself went
      through, and each of the two is clicked once at most. */
  lemma RetweetConfirmsOnlyAfterClick(env: Env, t: nat, base: string, tweetId: string, username: string)
    ensures var run := RetweetRun(env, t, base, tweetId, username);
      && (run.result <==> StepOk(env, t, Goto(StatusUrl(base, username, tweetId))) && StepOk(env, t + 1, WaitForSelector(PermalinkRetweet)))
      && Clicks(run.steps, PermalinkRetweet) <= 1
      && Clicks(run.steps, RetweetConfirm) <= 1
      && (Clicks(run.steps, RetweetConfirm) == 1 ==> run.result && QueryClicked(env, t + 2, PermalinkRetweet))
  {
    var url := StatusUrl(base, username, tweetId);
    var open := [Goto(url), WaitForSelector(PermalinkRetweet)];
    AttemptCons(env, Goto(url), [WaitForSelector(PermalinkRetweet)], t);
    assert [WaitForSelector(PermalinkRetweet)][1..] == [];
    assert Clicks(open, PermalinkRetweet) == 0 && Clicks(open, RetweetConfirm) == 0 by {
      assert open[1..][1..] == [];
    }
    AttemptSpec(env, open, t);
    ClicksPrefix(open, |Attempt(env, open, t)|, PermalinkRetweet);
    ClicksPrefix(open, |Attempt(env, open, t)|, RetweetConfirm);
    var first := QueryClick(env, t + 2, PermalinkRetweet);
    var second := QueryClick(env, t + 4, RetweetConfirm);
    QueryClickCounts(env, t + 2, PermalinkRetweet, RetweetConfirm);
    QueryClickCounts(env, t + 4, RetweetConfirm, PermalinkRetweet);
    ClicksAppend(first, second, PermalinkRetweet);
    ClicksAppend(first, second, RetweetConfirm);
    var clicks := RetweetClicks(env, t + 2, PermalinkRetweet);
    ClicksAppend(open, clicks, PermalinkRetweet);
    ClicksAppend(open, clicks, RetweetConfirm);
  }

  /** `(await page.$(sel)).click()` clicks `sel` once at most and no other selector. */
  lemma QueryClickCounts(env: Env, t: nat, sel: Selector, other: Selector)
    requires sel != other
    ensures Clicks(QueryClick(env, t, sel), sel) <= 1 && Clicks(QueryClick(env, t, sel), other) == 0
  {
    var steps := QueryClick(env, t, sel);
    if |steps| == 2 {
      assert steps[1..][1..] == [];
    }
  }

  /** The tweet id `$eval('div[data-tweet-id]', ...)` reads at position `t`: the attribute of
      the first tweet on the page, or false through the `catch` when there is none. */
  function LastTweetId(env: Env, t: nat): OrFalse<Option<string>> {
    if StepOk(env, t, EvalFirst(TweetItem)) then Value(GetAttribute(env.dom(t, TweetItem)[0], TweetIdAttribute)) else False
  }

  /** The steps of `likeLastTweet` and `retweetLastTweet`: open the profile and wait for the
      action, try the inner clicks, then read the id of the first tweet. */
  function ActOnLastTweetRun(env: Env, t: nat, url: string, anchor: Selector, clicks: seq<Step>): Outcome<OrFalse<Option<string>>> {
    var open := [Goto(url), WaitForSelector(anchor)];
    if Completes(env, open, t) then Outcome(open + clicks + [EvalFirst(TweetItem)], LastTweetId(env, t + 2 + |clicks|))
    else Outcome(Attempt(env, open, t), False)
  }

  function LikeLastTweetRun(env: Env, t: nat, base: string, username: string): Outcome<OrFalse<Option<string>>> {
    ActOnLastTweetRun(env, t, ProfileUrl(base, username), FavoriteAction, QueryClick(env, t + 2, FavoriteButton))
  }

  function RetweetLastTweetRun(env: Env, t: nat, base: string, username: string): Outcome<OrFalse<Option<string>>> {
    ActOnLastTweetRun(env, t, ProfileUrl(base, username), RetweetAction, RetweetClicks(env, t + 2, RetweetButton))
  }

  /** Whatever happens to the inner clicks, the id is read; the result is false exactly when
      opening, waiting or reading failed, and otherwise it is the first tweet's id. */
  lemma LastTweetIdDespiteClicks(env: Env, t: nat, url: string, anchor: Selector, clicks: seq<Step>)
    ensures var run := ActOnLastTweetRun(env, t, url, anchor, clicks);
      var open := [Goto(url), WaitForSelector(anchor)];
      var te := t + 2 + |clicks|;
      && (run.result == False <==> !Completes(env, open, t) || !StepOk(env, te, EvalFirst(TweetItem)))
      && (run.result != False ==>
            && run.steps[|run.steps| - 1] == EvalFirst(TweetItem)
            && |env.dom(te, TweetItem)| > 0
            && run.result == Value(GetAttribute(env.dom(te, TweetItem)[0], TweetIdAttribute)))
  {
  }

  // ---------------------------------------------------------------------------------------
  // Liking recent tweets

  /** The ids `elements.map(e => e.getAttribute('data-tweet-id'))`. */
  function TweetIds(elements: seq<Element>): seq<Option<string>> {
    seq(|elements|, i requires 0 <= i < |elements| => GetAttribute(elements[i], TweetIdAttribute))
  }

  /** The steps of `likeRecentTweets`: open the profile, wait, list the like buttons, click
      each of them with failures ignored, then collect every tweet id. */
  function LikeRecentTweetsRun(env: Env, t: nat, url: string): Outcome<seq<Option<string>>> {
    var open := [Goto(url), WaitForSelector(FavoriteAction), QueryAll(FavoriteButton)];
    if Completes(env, open, t) then
      var n := |env.dom(t + 2, FavoriteButton)|;
      Outcome(open + ClickAll(FavoriteButton, n) + [EvalAll(TweetItem)],
          if StepOk(env, t + 3 + n, EvalAll(TweetItem)) then TweetIds(env.dom(t + 3 + n, TweetItem)) else [])
    else Outcome(Attempt(env, open, t), [])
  }

  /** Once the buttons are listed, every one of them gets its click, failing or not, in
      document order, and the tweets are collected after the last click. */
  lemma LikeRecentTweetsClicksEvery(env: Env, t: nat, url: string)
    requires Completes(env, [Goto(url), WaitForSelector(FavoriteAction), QueryAll(FavoriteButton)], t)
    ensures var run := LikeRecentTweetsRun(env, t, url);
      var n := |env.dom(t + 2, FavoriteButton)|;
      && |run.steps| == n + 4
      && (forall i :: 0 <= i < n ==> run.steps[3 + i] == ClickHandle(FavoriteButton, i))
      && run.steps[n + 3] == EvalAll(TweetItem)
  {
    var open := [Goto(url), WaitForSelector(FavoriteAction), QueryAll(FavoriteButton)];
    var n := |env.dom(t + 2, FavoriteButton)|;
    var clicks := ClickAll(FavoriteButton, n);
    var steps := open + clicks + [EvalAll(TweetItem)];
    assert LikeRecentTweetsRun(env, t, url).steps == steps;
    forall i | 0 <= i < n ensures steps[3 + i] == ClickHandle(FavoriteButton, i) {
      assert steps[3 + i] == clicks[i];
    }
  }

  /** Once the buttons are listed and the tweets read, the ids come back one per tweet, in
      document order, `null` for a tweet without the attribute. */
  lemma LikeRecentTweetsIds(env: Env, t: nat, url: string)
    requires Completes(env, [Goto(url), WaitForSelector(FavoriteAction), QueryAll(FavoriteButton)], t)
    requires StepOk(env, t + 3 + |env.dom(t + 2, FavoriteButton)|, EvalAll(TweetItem))
    ensures var items := env.dom(t + 3 + |env.dom(t + 2, FavoriteButton)|, TweetItem);
      var ids := LikeRecentTweetsRun(env, t, url).result;
      |ids| == |items| && forall i :: 0 <= i < |items| ==> ids[i] == GetAttribute(items[i], TweetIdAttribute)
  {
    var n := |env.dom(t + 2, FavoriteButton)|;
    assert LikeRecentTweetsRun(env, t, url).result == TweetIds(env.dom(t + 3 + n, TweetItem));
  }

  /** When opening the profile or listing its buttons fails, nothing is clicked and the
      result is `[]`, the value of the outer `catch`. */
  lemma LikeRecentTweetsNoClickOnFailure(env: Env, t: nat, url: string)
    requires !Completes(env, [Goto(url), WaitForSelector(FavoriteAction), QueryAll(FavoriteButton)], t)
    ensures var run := LikeRecentTweetsRun(env, t, url);
      run.result == [] && Clicks(run.steps, FavoriteButton) == 0
  {
    var open := [Goto(url), WaitForSelector(FavoriteAction), QueryAll(FavoriteButton)];
    assert Clicks(open, FavoriteButton) == 0 by {
      assert open[2..][1..] == [] && Clicks(open[2..], FavoriteButton) == 0;
      assert open[1..][1..] == open[2..];
    }
    AttemptSpec(env, open, t);
    ClicksPrefix(open, |Attempt(env, open, t)|, FavoriteButton);
  }

  // ---------------------------------------------------------------------------------------
  // Following a network

  /** The steps of `followNetwork` and `followInterests`: open the list, wait for it, list
      its follow buttons and click every one; a failing click ends it all. */
  function FollowAllPlan(env: Env, t: nat, url: string): seq<Step> {
    [Goto(url), WaitForSelector(MainContent), QueryAll(MainFollowButton)] + ClickAll(MainFollowButton, |env.dom(t + 2, MainFollowButton)|)
  }

  /** The same steps, stage by stage: the listing, then the clicks until one fails. */
  function FollowAllRun(env: Env, t: nat, url: string): Outcome<bool> {
    var open := [Goto(url), WaitForSelector(MainContent), QueryAll(MainFollowButton)];
    if Completes(env, open, t) then
      var clicks := ClickAll(MainFollowButton, |env.dom(t + 2, MainFollowButton)|);
      Outcome(open + Attempt(env, clicks, t + 3), Completes(env, clicks, t + 3))
    else Outcome(Attempt(env, open, t), false)
  }

  /** The staged run is the plan's attempt: the steps performed are those of `FollowAllPlan`
      up to its first failure, and the result says whether it completed. */
  lemma FollowAllRunFollowsPlan(env: Env, t: nat, url: string)
    ensures var plan := FollowAllPlan(env, t, url);
      FollowAllRun(env, t, url) == Outcome(Attempt(env, plan, t), Completes(env, plan, t))
  {
    var open := [Goto(url), WaitForSelector(MainContent), QueryAll(MainFollowButton)];
    var clicks := ClickAll(MainFollowButton, |env.dom(t + 2, MainFollowButton)|);
    assert FollowAllPlan(env, t, url) == open + clicks;
    AttemptThen(env, open, clicks, t);
    AttemptSpec(env, open, t);
  }

  /** On success every follow button was clicked once, in document order. */
  lemma FollowAllClicksEvery(env: Env, t: nat, url: string)
    ensures var run := FollowAllRun(env, t, url);
      var n := |env.dom(t + 2, MainFollowButton)|;
      run.result ==> |run.steps| == n + 3 && forall i :: 0 <= i < n ==> run.steps[3 + i] == ClickHandle(MainFollowButton, i)
  {
    FollowAllRunFollowsPlan(env, t, url);
    var plan := FollowAllPlan(env, t, url);
    var clicks := ClickAll(MainFollowButton, |env.dom(t + 2, MainFollowButton)|);
    AttemptSpec(env, plan, t);
    if Completes(env, plan, t) {
      forall i | 0 <= i < |clicks| ensures plan[3 + i] == ClickHandle(MainFollowButton, i) {
        assert plan[3 + i] == clicks[i];
      }
    }
  }

  /** The first failing step, say a click, is the last one performed, and it gives false. */
  lemma FollowAllStopsAtFailure(env: Env, t: nat, url: string)
    ensures var run := FollowAllRun(env, t, url);
      && (run.result <==> Completes(env, run.steps, t))
      && (!run.result ==> 0 < |run.steps| && !StepOk(env, t + |run.steps| - 1, run.steps[|run.steps| - 1]))
  {
    FollowAllRunFollowsPlan(env, t, url);
    var plan := FollowAllPlan(env, t, url);
    var done := Attempt(env, plan, t);
    AttemptOutcome(env, plan, t);
    AttemptSpec(env, plan, t);
    if !Completes(env, plan, t) {
      assert done[|done| - 1] == plan[|done| - 1];
    }
  }

  // ---------------------------------------------------------------------------------------
  // Scraping followers and interests

  /** The handles the `$$eval` callback of `followers` and `interests` returns for `elements`:
      their `innerText`s, less the first one (`Array.prototype.shift` on an empty list
      removes nothing). */
  function ScrapedHandles(elements: seq<Element>): seq<string> {
    if elements == [] then [] else seq(|elements| - 1, i requires 0 <= i < |elements| - 1 => elements[i + 1].text)
  }

  /** The steps of `followers` and `interests`: open the list, wait for it, scrape it. */
  function ScrapePlan(url: string): seq<Step> {
    [Goto(url), WaitForSelector(MainContent), EvalAll(HandleLink)]
  }

  function ScrapeRun(env: Env, t: nat, url: string): Outcome<seq<string>> {
    var plan := ScrapePlan(url);
    Outcome(Attempt(env, plan, t), if Completes(env, plan, t) then ScrapedHandles(env.dom(t + 2, HandleLink)) else [])
  }

  /** The result lists the scraped handles in page order with exactly the first dropped, so
      zero or one match gives `[]`; any failure gives `[]` as well. */
  lemma ScrapeDropsFirst(env: Env, t: nat, url: string)
    ensures var run := ScrapeRun(env, t, url);
      var found := env.dom(t + 2, HandleLink);
      && (!Completes(env, ScrapePlan(url), t) ==> run.result == [])
      && (Completes(env, ScrapePlan(url), t) ==>
            && |run.result| == (if |found| == 0 then 0 else |found| - 1)
            && forall i :: 0 <= i < |run.result| ==> run.result[i] == found[i + 1].text)
  {
  }

  /** The `$$eval` callback of `likeRecentTweets`: push each element's tweet id. */
  method CollectTweetIds(elements: seq<Element>) returns (tweetIds: seq<Option<string>>)
    ensures |tweetIds| == |elements|
    ensures forall i :: 0 <= i < |elements| ==> tweetIds[i] == GetAttribute(elements[i], TweetIdAttribute)
    ensures tweetIds == TweetIds(elements)
  {
    tweetIds := [];
    for k := 0 to |elements|
      invariant |tweetIds| == k
      invariant forall i :: 0 <= i < k ==> tweetIds[i] == GetAttribute(elements[i], TweetIdAttribute)
    {
      tweetIds := tweetIds + [GetAttribute(elements[k], TweetIdAttribute)];
    }
  }

  /** The `$$eval` callback of `followers` and `interests`: push each element's text, then
      `shift()` the first one off. */
  method CollectHandles(elements: seq<Element>) returns (followers: seq<string>)
    ensures |followers| == if |elements| == 0 then 0 else |elements| - 1
    ensures forall i :: 0 <= i < |followers| ==> followers[i] == elements[i + 1].text
    ensures followers == ScrapedHandles(elements)
  {
    followers := [];
    for k := 0 to |elements|
      invariant |followers| == k
      invariant forall i :: 0 <= i < k ==> followers[i] == elements[i].text
    {
      followers := followers + [elements[k].text];
    }
    if |followers| > 0 {
      followers := followers[1..];
    }
  }

  // ---------------------------------------------------------------------------------------
  // The facade

  class User {
    const page: Page
    const data: Data

    constructor (page: Page, data: Data)
      ensures this.page == page && this.data == data
    {
      this.page := page;
      this.data := data;
    }

    /** `follow(username)`. */
    method Follow(username: string) returns (ok: bool)
      modifies page
      ensures var run := ToggleFollowRun(page.env, |old(page.trace)|, ProfileUrl(data.baseurl, username), NotFollowingMarker);
        page.trace == old(page.trace) + run.steps && ok == run.result
    {
      ok := ToggleFollow(username, NotFollowingMarker);
    }

    /** `unfollow(username)`. */
    method Unfollow(username: string) returns (ok: bool)
      modifies page
      ensures var run := ToggleFollowRun(page.env, |old(page.trace)|, ProfileUrl(data.baseurl, username), FollowingMarker);
        page.trace == old(page.trace) + run.steps && ok == run.result
    {
      ok := ToggleFollow(username, FollowingMarker);
    }

    /** The body `follow` and `unfollow` share: click the follow button only when `marker`
        is on the profile. */
    method ToggleFollow(username: string, marker: Selector) returns (ok: bool)
      modifies page
      ensures var run := ToggleFollowRun(page.env, |old(page.trace)|, ProfileUrl(data.baseurl, username), marker);
        page.trace == old(page.trace) + run.steps && ok == run.result
    {
      var url := ProfileUrl(data.baseurl, username);
      ghost var t := |page.trace|;
      ghost var open := [Goto(url)] + [WaitForSelector(FollowButton)];
      ghost var lookup := open + [Query(marker)];
      var tail := [WaitForSelector(FollowButton), Click(FollowButton)];
      AttemptThen(page.env, open, [Query(marker)], t);
      AttemptThen(page.env, lookup, tail, t);
      AttemptSingle(page.env, Query(marker), t + 2);
      ok := page.Open(url, [WaitForSelector(FollowButton)]);
      if !ok {
        return false;
      }
      var handle;
      ok, handle := page.Query(marker);
      if !ok {
        return false;
      }
      if handle.Some? {
        ok := page.Run(tail);
      }
    }

    /** `tweet(text)`: the steps of `TweetPlan` from the page's current URL, until one fails;
        true exactly when all succeed. It navigates home only when the page was elsewhere. */
    method Tweet(text: string) returns (ok: bool)
      modifies page
      ensures var plan := TweetPlan(old(page.Url()), data.baseurl, text);
        page.trace == old(page.trace) + Attempt(page.env, plan, |old(page.trace)|) && ok == Completes(page.env, plan, |old(page.trace)|)
    {
      var compose := TweetCompose(text);
      if Helpers.UrlsEqual(page.Url(), data.baseurl) {
        assert TweetPlan(page.Url(), data.baseurl, text) == compose;
        ok := page.Run(compose);
      } else {
        assert TweetPlan(page.Url(), data.baseurl, text) == [Goto(data.baseurl)] + ([WaitForSelector(TweetButton)] + compose);
        ok := page.Open(data.baseurl, [WaitForSelector(TweetButton)] + compose);
      }
    }

    /** `like(tweetId, username)`: a failed or impossible click on the like button is
        ignored. */
    method Like(tweetId: string, username: string) returns (ok: bool)
      modifies page
      ensures var run := LikeRun(page.env, |old(page.trace)|, data.baseurl, tweetId, username);
        page.trace == old(page.trace) + run.steps && ok == run.result
    {
      var url := StatusUrl(data.baseurl, username, tweetId);
      ok := page.OpenWaiting(url, PermalinkFavorite);
      if !ok {
        return false;
      }
      var clicked := page.ClickFirst(PermalinkFavorite);
      return true;
    }

    /** `retweet(tweetId, username)`: a failed or impossible click on the retweet button or
        on its confirmation is ignored. */
    method Retweet(tweetId: string, username: string) returns (ok: bool)
      modifies page
      ensures var run := RetweetRun(page.env, |old(page.trace)|, data.baseurl, tweetId, username);
        page.trace == old(page.trace) + run.steps && ok == run.result
    {
      var url := StatusUrl(data.baseurl, username, tweetId);
      ok := page.OpenWaiting(url, PermalinkRetweet);
      if !ok {
        return false;
      }
      ClickRetweet(PermalinkRetweet);
      return true;
    }

    /** The inner `try` of the retweet methods: click `button`, then the confirmation; the
        first failure ends it silently. */
    method ClickRetweet(button: Selector)
      modifies page
      ensures page.trace == old(page.trace) + RetweetClicks(page.env, |old(page.trace)|, button)
    {
      var clicked := page.ClickFirst(button);
      if clicked {
        clicked := page.ClickFirst(RetweetConfirm);
      }
    }

    /** `likeLastTweet(username)`: try to like the first tweet, then return its id. */
    method LikeLastTweet(username: string) returns (r: OrFalse<Option<string>>)
      modifies page
      ensures var run := LikeLastTweetRun(page.env, |old(page.trace)|, data.baseurl, username);
        page.trace == old(page.trace) + run.steps && r == run.result
    {
      var url := ProfileUrl(data.baseurl, username);
      var ok := page.OpenWaiting(url, FavoriteAction);
      if !ok {
        return False;
      }
      var clicked := page.ClickFirst(FavoriteButton);
      var found, item := page.EvalFirst(TweetItem);
      if !found {
        return False;
      }
      return Value(GetAttribute(item.value, TweetIdAttribute));
    }

    /** `retweetLastTweet(username)`: try to retweet the first tweet, then return its id. */
    method RetweetLastTweet(username: string) returns (r: OrFalse<Option<string>>)
      modifies page
      ensures var run := RetweetLastTweetRun(page.env, |old(page.trace)|, data.baseurl, username);
        page.trace == old(page.trace) + run.steps && r == run.result
    {
      var url := ProfileUrl(data.baseurl, username);
      var ok := page.OpenWaiting(url, RetweetAction);
      if !ok {
        return False;
      }
      ClickRetweet(RetweetButton);
      var found, item := page.EvalFirst(TweetItem);
      if !found {
        return False;
      }
      return Value(GetAttribute(item.value, TweetIdAttribute));
    }

    /** `likeRecentTweets(username)`: click every like button, ignoring failures, then
        return the ids of all tweets on the page. */
    method LikeRecentTweets(username: string) returns (tweetIds: seq<Option<string>>)
      modifies page
      ensures var run := LikeRecentTweetsRun(page.env, |old(page.trace)|, ProfileUrl(data.baseurl, username));
        page.trace == old(page.trace) + run.steps && tweetIds == run.result
    {
      var url := ProfileUrl(data.baseurl, username);
      ghost var t := |page.trace|;
      var listed, buttons := page.OpenListing(url, FavoriteAction, FavoriteButton);
      if !listed {
        return [];
      }
      ClickEachIgnoringFailures(FavoriteButton, |buttons|);
      var scraped, items := page.QueryAll(TweetItem, true);
      if !scraped {
        return [];
      }
      tweetIds := CollectTweetIds(items);
    }

    /** The loop of `likeRecentTweets`: click each of the `n` listed handles in turn, each
        in a `try` of its own, so that every click is made whatever the others do. */
    method ClickEachIgnoringFailures(sel: Selector, n: nat)
      modifies page
      ensures page.trace == old(page.trace) + ClickAll(sel, n)
    {
      for i := 0 to n
        invariant page.trace == old(page.trace) + ClickAll(sel, i)
      {
        assert ClickAll(sel, i + 1) == ClickAll(sel, i) + [ClickHandle(sel, i)];
        var clicked := page.Perform(ClickHandle(sel, i));
      }
    }

    /** The loop of `followNetwork` and `followInterests`: click each of the `n` listed
        handles in turn; the first click that fails ends the loop with false. */
    method ClickEachUntilFailure(sel: Selector, n: nat) returns (ok: bool)
      modifies page
      ensures ok == Completes(page.env, ClickAll(sel, n), |old(page.trace)|)
      ensures page.trace == old(page.trace) + Attempt(page.env, ClickAll(sel, n), |old(page.trace)|)
    {
      ghost var t := |page.trace|;
      ghost var clicks := ClickAll(sel, n);
      var i := 0;
      ok := true;
      while i < n && ok
        invariant 0 <= i <= n
        invariant ok ==> Completes(page.env, clicks[..i], t) && page.trace == old(page.trace) + clicks[..i]
        invariant !ok ==> !Completes(page.env, clicks, t) && page.trace == old(page.trace) + Attempt(page.env, clicks, t)
      {
        StepInto(page.env, clicks, t, i);
        assert clicks[i] == ClickHandle(sel, i);
        ok := page.Perform(ClickHandle(sel, i));
        i := i + 1;
      }
      if ok {
        assert clicks[..n] == clicks;
        AttemptSpec(page.env, clicks, t);
      }
    }

    /** `followNetwork(username = '')`: follow everyone on the followers list of `username`,
        or on the signed-in user's own when `username` fails `isNotNullNorEmpty`. */
    method FollowNetwork(username: string := "") returns (ok: bool)
      modifies page
      ensures var run := FollowAllRun(page.env, |old(page.trace)|, NetworkUrl(data.baseurl, username, "followers"));
        page.trace == old(page.trace) + run.steps && ok == run.result
    {
      var named := Conditions.IsNotNullNorEmpty(Str(username));
      var url := if named then data.baseurl + "/" + username + "/followers" else data.baseurl + "/followers";
      assert url == NetworkUrl(data.baseurl, username, "followers");
      ok := FollowAll(url);
    }

    /** `followInterests(username)`: follow everyone `username` follows. */
    method FollowInterests(username: string) returns (ok: bool)
      modifies page
      ensures var run := FollowAllRun(page.env, |old(page.trace)|, data.baseurl + "/" + username + "/following");
        page.trace == old(page.trace) + run.steps && ok == run.result
    {
      ok := FollowAll(data.baseurl + "/" + username + "/following");
    }

    /** The loop both follow methods share: every follow button on the list at `url` is
        clicked in turn, and the first click that fails ends the method with false. */
    method FollowAll(url: string) returns (ok: bool)
      modifies page
      ensures var run := FollowAllRun(page.env, |old(page.trace)|, url);
        page.trace == old(page.trace) + run.steps && ok == run.result
    {
      ghost var t := |page.trace|;
      var listed, buttons := page.OpenListing(url, MainContent, MainFollowButton);
      if !listed {
        return false;
      }
      ok := ClickEachUntilFailure(MainFollowButton, |buttons|);
    }

    /** `followers(username = '')`: the handles on the followers list, the first dropped. */
    method Followers(username: string := "") returns (followers: seq<string>)
      modifies page
      ensures var run := ScrapeRun(page.env, |old(page.trace)|, NetworkUrl(data.baseurl, username, "followers"));
        page.trace == old(page.trace) + run.steps && followers == run.result
    {
      var named := Conditions.IsNotNullNorEmpty(Str(username));
      var url := if named then data.baseurl + "/" + username + "/followers" else data.baseurl + "/followers";
      assert url == NetworkUrl(data.baseurl, username, "followers");
      followers := Scrape(url);
    }

    /** `interests(username = '')`: the handles on the following list, the first dropped. */
    method Interests(username: string := "") returns (followers: seq<string>)
      modifies page
      ensures var run := ScrapeRun(page.env, |old(page.trace)|, NetworkUrl(data.baseurl, username, "following"));
        page.trace == old(page.trace) + run.steps && followers == run.result
    {
      var named := Conditions.IsNotNullNorEmpty(Str(username));
      var url := if named then data.baseurl + "/" + username + "/following" else data.baseurl + "/following";
      assert url == NetworkUrl(data.baseurl, username, "following");
      followers := Scrape(url);
    }

    /** The scrape both list methods share. */
    method Scrape(url: string) returns (followers: seq<string>)
      modifies page
      ensures var run := ScrapeRun(page.env, |old(page.trace)|, url);
        page.trace == old(page.trace) + run.steps && followers == run.result
    {
      ghost var t := |page.trace|;
      ghost var open := [Goto(url), WaitForSelector(MainContent)];
      assert ScrapePlan(url) == open + [EvalAll(HandleLink)];
      AttemptThen(page.env, open, [EvalAll(HandleLink)], t);
      AttemptSingle(page.env, EvalAll(HandleLink), t + 2);
      var ok := page.OpenWaiting(url, MainContent);
      if !ok {
        return [];
      }
      var scraped, elements := page.QueryAll(HandleLink, true);
      if !scraped {
        return [];
      }
      followers := CollectHandles(elements);
    }
  }
}
