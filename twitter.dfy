/**
 * The Twitter facade: login and logout over the shared page, and the `User` facade that
 * shares its `data`.
 */
module Twitter {
  import opened JsValues
  import opened Puppeteer
  import opened SharedData
  import Profile

  /** The form login a fresh session goes through after opening `/login`. */
  function FormLogin(username: string, password: string): (plan: seq<Step>)
    ensures NoNavigation(plan) && Typings(plan) == 2 && Clicks(plan, "button.submit") == 1
  {
    var plan := [WaitForSelector("button.submit"), Type(".js-username-field", username), Type(".js-password-field", password),
      Click("button.submit"), WaitForSelector(".dashboard-left")];
    assert Typings(plan[4..]) == 0 && Clicks(plan[4..], "button.submit") == 0;
    assert plan[3..][1..] == plan[4..];
    assert Typings(plan[3..]) == 0 && Clicks(plan[3..], "button.submit") == 1;
    assert plan[2..][1..] == plan[3..];
    assert Typings(plan[2..]) == 1 && Clicks(plan[2..], "button.submit") == 1;
    assert plan[1..][1..] == plan[2..];
    assert Typings(plan[1..]) == 2 && Clicks(plan[1..], "button.submit") == 1;
    plan
  }

  /** The steps `login` runs: open the login page, then either the form login (no session
      yet) or the restoring of the stored session into `sessionStorage`. */
  function LoginPlan(base: string, session: Option<string>, username: string, password: string): seq<Step> {
    [Goto(base + "/login")] + (if session == None then FormLogin(username, password) else [Evaluate])
  }

  /** The steps `logout` runs once a session exists. */
  function LogoutPlan(base: string): seq<Step> {
    [Goto(base + "/logout")] + LogoutConfirm()
  }

  function LogoutConfirm(): seq<Step> {
    [WaitForSelector("button.js-submit"), Click("button.js-submit")]
  }

  /** With a session already stored, `login` neither types nor clicks, and it succeeds
      exactly when opening the login page and restoring the session both succeed. */
  lemma LoginWithSessionSkipsForm(env: Env, t: nat, base: string, session: string, username: string, password: string)
    ensures var plan := LoginPlan(base, Some(session), username, password);
      && Typings(Attempt(env, plan, t)) == 0
      && Clicks(Attempt(env, plan, t), "button.submit") == 0
      && (Completes(env, plan, t) <==> StepOk(env, t, Goto(base + "/login")) && env.succeeds(t + 1))
  {
    var plan := LoginPlan(base, Some(session), username, password);
    AttemptCons(env, Goto(base + "/login"), [Evaluate], t);
    assert [Evaluate][1..] == [];
    var done := Attempt(env, plan, t);
    assert done == plan || done == plan[..1];
  }

  /** A fresh login types the username and the password, in that order, before it submits
      the form once, and it reports success only when the dashboard showed up. */
  lemma FormLoginOrder(env: Env, t: nat, base: string, username: string, password: string)
    ensures var plan := LoginPlan(base, None, username, password);
      && plan[2] == Type(".js-username-field", username)
      && plan[3] == Type(".js-password-field", password)
      && plan[4] == Click("button.submit")
      && Clicks(Attempt(env, plan, t), "button.submit") <= 1
      && (Completes(env, plan, t) ==> |env.dom(t + 5, ".dashboard-left")| > 0)
  {
    var plan := LoginPlan(base, None, username, password);
    var done := Attempt(env, plan, t);
    ClicksAppend([Goto(base + "/login")], FormLogin(username, password), "button.submit");
    AttemptPrefix(env, plan, t);
    ClicksPrefix(plan, |done|, "button.submit");
    if Completes(env, plan, t) {
      CompletesAt(env, plan, t, 5);
    }
  }

  class Twitter {
    const page: Page
    const data: Data

    /** `new Twitter(page)`: a fresh `data` with the base URL and no session. */
    constructor (page: Page)
      ensures this.page == page && fresh(data)
      ensures data.baseurl == BaseUrl && data.session == None && data.username == None
    {
      this.page := page;
      data := new Data();
    }

    /** `login(username, password)`. The username is recorded before anything else. The
        steps of `LoginPlan` run until one fails; the result is true exactly when they all
        succeed, and only a successful form login stores the session marker. */
    method Login(username: string, password: string) returns (ok: bool)
      modifies page, data
      ensures data.username == Some(username)
      ensures page.trace == old(page.trace) + Attempt(page.env, LoginPlan(data.baseurl, old(data.session), username, password), |old(page.trace)|)
      ensures ok == Completes(page.env, LoginPlan(data.baseurl, old(data.session), username, password), |old(page.trace)|)
      ensures data.session == if ok && old(data.session) == None then Some(SessionMarker) else old(data.session)
    {
      data.username := Some(username);
      AttemptCons(page.env, Goto(data.baseurl + "/login"), if data.session == None then FormLogin(username, password) else [Evaluate], |page.trace|);
      ok := page.Perform(Goto(data.baseurl + "/login"));
      if !ok {
        return false;
      }
      if data.session == None {
        ok := page.Run(FormLogin(username, password));
        if !ok {
          return false;
        }
        data.session := Some(SessionMarker);
      } else {
        ok := page.Run([Evaluate]);
        if !ok {
          return false;
        }
      }
      return true;
    }

    /** `logout()`: without a session it fails at once and touches nothing; otherwise the
        steps of `LogoutPlan` run until one fails, and only when they all succeed is the
        session cleared and the result true. */
    method Logout() returns (ok: bool)
      modifies page, data
      ensures data.username == old(data.username)
      ensures old(data.session) == None ==> !ok && page.trace == old(page.trace) && data.session == None
      ensures old(data.session) != None ==>
        && page.trace == old(page.trace) + Attempt(page.env, LogoutPlan(data.baseurl), |old(page.trace)|)
        && ok == Completes(page.env, LogoutPlan(data.baseurl), |old(page.trace)|)
        && data.session == (if ok then None else old(data.session))
    {
      if data.session == None {
        return false;
      }
      ok := page.Open(data.baseurl + "/logout", LogoutConfirm());
      if !ok {
        return false;
      }
      data.session := None;
      return true;
    }

    /** `user()`: a new `User` on the same page and the same `data` object. */
    method User() returns (u: Profile.User)
      ensures fresh(u) && u.page == page && u.data == data
    {
      u := new Profile.User(page, data);
    }
  }

  /** A client: a `User` obtained before a login sees the session that login stores, and a
      logout after it is seen as well. */
  method SharedDataScenario(page: Page, username: string, password: string)
    modifies page
  {
    var twitter := new Twitter(page);
    var user := twitter.User();
    var loggedIn := twitter.Login(username, password);
    assert user.data.username == Some(username);
    assert loggedIn <==> user.data.session == Some(SessionMarker);
    if loggedIn {
      var loggedOut := twitter.Logout();
      assert loggedOut ==> user.data.session == None;
      assert !loggedOut ==> user.data.session == Some(SessionMarker);
    } else {
      var loggedOut := twitter.Logout();
      assert !loggedOut && page.trace == old(page.trace) + Attempt(page.env, LoginPlan(BaseUrl, None, username, password), |old(page.trace)|);
    }
  }
}
