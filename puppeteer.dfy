/**
 * An abstract browser page, standing in for the puppeteer `Page` the facades drive.
 *
 * A page has a start URL and the trace of steps performed on it; its current URL is a
 * function of the two. Whether a step succeeds, what the document holds and where the
 * browser goes are decided by an environment: an oracle for the failures puppeteer can
 * raise (a navigation error, a timeout, a detached node); for every position in the trace
 * and every selector, the elements the selector matches there; and for every position, the
 * URL the browser moved to on its own during that step, if any (a redirect, a click that
 * submits a form or follows a link, a navigation that committed before it timed out).
 * Selectors are opaque labels.
 */
module Puppeteer {
  import opened JsValues

  type Selector = string

  /** A node of the document: its `innerText`, its attributes, and for a selector the first
      descendant it matches, as `element.$eval(selector, ...)` sees it. */
  datatype Element = Element(text: string, attributes: map<string, string>, descendants: map<Selector, Element>)

  /** `element.getAttribute(name)`: null when the attribute is absent. */
  function GetAttribute(e: Element, name: string): (r: Option<string>)
    ensures r == None <==> name !in e.attributes
    ensures name in e.attributes ==> r == Some(e.attributes[name])
  {
    if name in e.attributes then Some(e.attributes[name]) else None
  }

  /** The environment the page runs in: `succeeds(t)` is false when puppeteer raises on the
      step at trace position `t`; `dom(t, sel)` lists, in document order, the elements `sel`
      matches when that step runs; `moved(t)` is the URL the browser is at after that step
      when it got there by itself rather than by the step's own navigation. */
  datatype Env = Env(succeeds: nat -> bool, dom: (nat, Selector) -> seq<Element>, moved: nat -> Option<string>)

  /** What a facade call does to the page, and what it returns. */
  datatype Outcome<R> = Outcome(steps: seq<Step>, result: R)

  /** One awaited page operation. */
  datatype Step =
    | Goto(url: string)                        // page.goto(url)
    | WaitForSelector(sel: Selector)           // page.waitForSelector(sel)
    | Type(sel: Selector, text: string)        // page.type(sel, text)
    | Click(sel: Selector)                     // page.click(sel)
    | Query(sel: Selector)                     // page.$(sel)
    | QueryAll(sel: Selector)                  // page.$$(sel)
    | EvalAll(sel: Selector)                   // page.$$eval(sel, ...)
    | EvalFirst(sel: Selector)                 // page.$eval(sel, ...)
    | ClickHandle(sel: Selector, index: nat)   // handle.click() on the index-th match of sel
    | EvalWithin(handle: Element, sel: Selector) // handle.$eval(sel, ...)
    | Evaluate                                 // page.evaluate(...)

  /** Whether `step` succeeds at trace position `t`: the oracle must let it through, and the
      steps that need a node (waiting for one, typing into one, clicking one, evaluating on
      the first match) need the selector to match. */
  predicate StepOk(env: Env, t: nat, step: Step) {
    && env.succeeds(t)
    && match step
      case WaitForSelector(sel) => |env.dom(t, sel)| > 0
      case Type(sel, _) => |env.dom(t, sel)| > 0
      case Click(sel) => |env.dom(t, sel)| > 0
      case EvalFirst(sel) => |env.dom(t, sel)| > 0
      case EvalWithin(handle, sel) => sel in handle.descendants
      case _ => true
  }

  /** The URL after `step` runs at position `t` from `before`: where the browser moved by
      itself, if it did; otherwise the target of a navigation that succeeds; otherwise
      `before`. */
  function Landed(env: Env, t: nat, step: Step, before: string): string {
    match env.moved(t)
    case Some(u) => u
    case None => if step.Goto? && env.succeeds(t) then step.url else before
  }

  /** All steps of `plan` succeed when run from position `t`. */
  predicate Completes(env: Env, plan: seq<Step>, t: nat)
    decreases |plan|
  {
    plan == [] || (StepOk(env, t, plan[0]) && Completes(env, plan[1..], t + 1))
  }

  /** In a plan that completes, the step at offset `i` succeeds at position `t + i`. */
  lemma {:induction false} CompletesAt(env: Env, plan: seq<Step>, t: nat, i: nat)
    requires Completes(env, plan, t) && i < |plan|
    ensures StepOk(env, t + i, plan[i])
    decreases i
  {
    if i > 0 {
      CompletesAt(env, plan[1..], t + 1, i - 1);
    }
  }

  /** Two plans in a row complete when each completes in its turn. */
  lemma {:induction false} CompletesAppend(env: Env, plan: seq<Step>, more: seq<Step>, t: nat)
    ensures Completes(env, plan + more, t) <==> Completes(env, plan, t) && Completes(env, more, t + |plan|)
    decreases |plan|
  {
    if plan == [] {
      assert plan + more == more;
    } else {
      assert (plan + more)[1..] == plan[1..] + more;
      CompletesAppend(env, plan[1..], more, t + 1);
    }
  }

  /** The steps performed when `plan` runs from position `t` inside a `try`: every step up to
      and including the first one that fails. */
  function Attempt(env: Env, plan: seq<Step>, t: nat): (done: seq<Step>)
    ensures |done| <= |plan|
    decreases |plan|
  {
    if plan == [] then []
    else if StepOk(env, t, plan[0]) then [plan[0]] + Attempt(env, plan[1..], t + 1)
    else [plan[0]]
  }

  /** An attempt performs a prefix of its plan. */
  lemma {:induction false} AttemptPrefix(env: Env, plan: seq<Step>, t: nat)
    ensures Attempt(env, plan, t) == plan[..|Attempt(env, plan, t)|]
    decreases |plan|
  {
    if plan != [] && StepOk(env, t, plan[0]) {
      AttemptPrefix(env, plan[1..], t + 1);
    }
  }

  /** An attempt performs all of a plan that completes, and otherwise stops right after its
      first failing step, all steps before which succeeded. */
  lemma {:induction false} AttemptSpec(env: Env, plan: seq<Step>, t: nat)
    ensures Attempt(env, plan, t) == plan[..|Attempt(env, plan, t)|]
    ensures Completes(env, plan, t) ==> Attempt(env, plan, t) == plan
    ensures !Completes(env, plan, t) ==>
      var done := Attempt(env, plan, t);
      0 < |done| && Completes(env, done[..|done| - 1], t) && !StepOk(env, t + |done| - 1, plan[|done| - 1])
    decreases |plan|
  {
    AttemptPrefix(env, plan, t);
    if plan != [] && StepOk(env, t, plan[0]) {
      AttemptSpec(env, plan[1..], t + 1);
      var rest := Attempt(env, plan[1..], t + 1);
      var done := [plan[0]] + rest;
      if !Completes(env, plan[1..], t + 1) {
        assert done[..|done| - 1][1..] == rest[..|rest| - 1];
        assert plan[|done| - 1] == plan[1..][|rest| - 1];
      }
    }
  }

  /** The steps an attempt performed all succeeded exactly when the whole plan did: a
      caller that returns `false` from its `catch` reports whether some step failed. */
  lemma {:induction false} AttemptOutcome(env: Env, plan: seq<Step>, t: nat)
    ensures Completes(env, Attempt(env, plan, t), t) <==> Completes(env, plan, t)
    decreases |plan|
  {
    if plan != [] {
      var done := Attempt(env, plan, t);
      if StepOk(env, t, plan[0]) {
        AttemptOutcome(env, plan[1..], t + 1);
        assert done[1..] == Attempt(env, plan[1..], t + 1);
      } else {
        assert done[0] == plan[0];
      }
    }
  }

  /** A plan with a first step succeeds when the step and then the rest succeed, and it is
      attempted as that step followed, when the step succeeded, by the attempt of the rest. */
  lemma AttemptCons(env: Env, first: Step, rest: seq<Step>, t: nat)
    ensures Completes(env, [first] + rest, t) <==> StepOk(env, t, first) && Completes(env, rest, t + 1)
    ensures Attempt(env, [first] + rest, t) == [first] + (if StepOk(env, t, first) then Attempt(env, rest, t + 1) else [])
  {
    assert ([first] + rest)[1..] == rest;
  }

  /** Running `plan` and then `more` is running `plan + more`, whenever `plan` completes. */
  lemma {:induction false} AttemptAppend(env: Env, plan: seq<Step>, more: seq<Step>, t: nat)
    requires Completes(env, plan, t)
    ensures Attempt(env, plan + more, t) == plan + Attempt(env, more, t + |plan|)
    decreases |plan|
  {
    if plan == [] {
      assert plan + more == more;
    } else {
      assert (plan + more)[1..] == plan[1..] + more;
      AttemptAppend(env, plan[1..], more, t + 1);
    }
  }

  /** Running `plan + more` is running `plan` and, only if it completed, `more` after it. */
  lemma {:induction false} AttemptThen(env: Env, plan: seq<Step>, more: seq<Step>, t: nat)
    ensures Completes(env, plan + more, t) == (Completes(env, plan, t) && Completes(env, more, t + |plan|))
    ensures Attempt(env, plan + more, t) == Attempt(env, plan, t) + (if Completes(env, plan, t) then Attempt(env, more, t + |plan|) else [])
    decreases |plan|
  {
    CompletesAppend(env, plan, more, t);
    if plan == [] {
      assert plan + more == more;
    } else {
      assert (plan + more)[1..] == plan[1..] + more;
      AttemptThen(env, plan[1..], more, t + 1);
    }
  }

  /** A one-step plan. */
  lemma AttemptSingle(env: Env, step: Step, t: nat)
    ensures Completes(env, [step], t) == StepOk(env, t, step)
    ensures Attempt(env, [step], t) == [step]
  {
    assert [step][1..] == [];
  }

  /** A plan that fails stops at the first failing step: nothing after it is attempted. */
  lemma {:induction false} AttemptStops(env: Env, plan: seq<Step>, t: nat, k: nat)
    requires k < |plan| && Completes(env, plan[..k], t) && !StepOk(env, t + k, plan[k])
    ensures Attempt(env, plan, t) == plan[..k + 1]
    decreases k
  {
    if k > 0 {
      assert plan[..k][1..] == plan[1..][..k - 1];
      AttemptStops(env, plan[1..], t + 1, k - 1);
      assert plan[..k + 1] == [plan[0]] + plan[1..][..k];
    }
  }

  /** One more step of `plan`, after the first `k` succeeded: on success the first `k + 1`
      have succeeded, on failure the attempt ends there. */
  lemma StepInto(env: Env, plan: seq<Step>, t: nat, k: nat)
    requires k < |plan| && Completes(env, plan[..k], t)
    ensures plan[..k + 1] == plan[..k] + [plan[k]]
    ensures StepOk(env, t + k, plan[k]) ==> Completes(env, plan[..k + 1], t)
    ensures !StepOk(env, t + k, plan[k]) ==> Attempt(env, plan, t) == plan[..k + 1] && !Completes(env, plan, t)
  {
    assert plan[..k + 1] == plan[..k] + [plan[k]];
    CompletesAppend(env, plan[..k], [plan[k]], t);
    if !StepOk(env, t + k, plan[k]) {
      AttemptStops(env, plan, t, k);
      assert plan == plan[..k + 1] + plan[k + 1..];
      CompletesAppend(env, plan[..k + 1], plan[k + 1..], t);
    }
  }

  /** The clicks `for (let element of await page.$$(sel)) await element.click()` issues for
      the `n` matches of `sel`, one per match, in document order. */
  function ClickAll(sel: Selector, n: nat): (clicks: seq<Step>)
    ensures |clicks| == n
    ensures forall i :: 0 <= i < n ==> clicks[i] == ClickHandle(sel, i)
  {
    seq(n, i requires 0 <= i => ClickHandle(sel, i))
  }

  /** The number of clicks on `sel` in `steps`, by selector or through a handle. */
  function Clicks(steps: seq<Step>, sel: Selector): (n: nat)
    ensures n <= |steps|
  {
    if steps == [] then 0
    else (if steps[0] == Click(sel) || (steps[0].ClickHandle? && steps[0].sel == sel) then 1 else 0) + Clicks(steps[1..], sel)
  }

  lemma {:induction false} ClicksAppend(a: seq<Step>, b: seq<Step>, sel: Selector)
    ensures Clicks(a + b, sel) == Clicks(a, sel) + Clicks(b, sel)
  {
    if a == [] {
      assert a + b == b;
    } else {
      assert (a + b)[1..] == a[1..] + b;
      ClicksAppend(a[1..], b, sel);
    }
  }

  /** A prefix of a trace holds no more clicks than the trace. */
  lemma ClicksPrefix(steps: seq<Step>, k: nat, sel: Selector)
    requires k <= |steps|
    ensures Clicks(steps[..k], sel) <= Clicks(steps, sel)
  {
    ClicksAppend(steps[..k], steps[k..], sel);
    assert steps[..k] + steps[k..] == steps;
  }

  /** The number of typing steps in `steps`. */
  function Typings(steps: seq<Step>): (n: nat)
    ensures n <= |steps|
  {
    if steps == [] then 0 else (if steps[0].Type? then 1 else 0) + Typings(steps[1..])
  }

  /** The steps of `await (await page.$(sel)).click()` run from position `t`: the query,
      then, when it found a node, the click on that node. */
  function QueryClick(env: Env, t: nat, sel: Selector): (steps: seq<Step>)
    ensures 1 <= |steps| <= 2 && steps[0] == Query(sel)
    ensures |steps| == 2 <==> StepOk(env, t, Query(sel)) && |env.dom(t, sel)| > 0
  {
    if StepOk(env, t, Query(sel)) && |env.dom(t, sel)| > 0 then [Query(sel), ClickHandle(sel, 0)] else [Query(sel)]
  }

  /** Whether that expression resolves: a failed query, a null handle (a `TypeError`) and a
      failed click all make it throw. */
  predicate QueryClicked(env: Env, t: nat, sel: Selector) {
    |QueryClick(env, t, sel)| == 2 && StepOk(env, t + 1, ClickHandle(sel, 0))
  }

  /** Steps performed in two goes are the same steps however the goes are grouped. */
  lemma AppendAssociates(a: seq<Step>, b: seq<Step>, c: seq<Step>)
    ensures (a + b) + c == a + (b + c)
  {
  }

  /** The steps a plan performs never include a navigation the plan does not hold. */
  predicate NoNavigation(plan: seq<Step>) {
    forall i :: 0 <= i < |plan| ==> !plan[i].Goto?
  }

  /** The URL after `steps` ran from position `t`, starting at `before`. */
  function UrlAfter(env: Env, steps: seq<Step>, t: nat, before: string): string
    decreases |steps|
  {
    if steps == [] then before
    else Landed(env, t + |steps| - 1, steps[|steps| - 1], UrlAfter(env, steps[..|steps| - 1], t, before))
  }

  /** Steps performed in two goes move the page as they do in one. */
  lemma {:induction false} UrlAfterAppend(env: Env, a: seq<Step>, b: seq<Step>, t: nat, before: string)
    ensures UrlAfter(env, a + b, t, before) == UrlAfter(env, b, t + |a|, UrlAfter(env, a, t, before))
    decreases |b|
  {
    if b == [] {
      assert a + b == a;
    } else {
      var last := |b| - 1;
      assert (a + b)[..|a + b| - 1] == a + b[..last];
      assert (a + b)[|a + b| - 1] == b[last];
      UrlAfterAppend(env, a, b[..last], t, before);
    }
  }

  /** No step moves the browser by itself between positions `t` and `t + n`. */
  predicate Unmoved(env: Env, t: nat, n: nat) {
    forall i: nat :: t <= i < t + n ==> env.moved(i).None?
  }

  /** Steps that hold no navigation, where the browser does not move by itself, leave the
      URL where it was. */
  lemma {:induction false} UrlAfterStill(env: Env, steps: seq<Step>, t: nat, before: string)
    requires NoNavigation(steps) && Unmoved(env, t, |steps|)
    ensures UrlAfter(env, steps, t, before) == before
    decreases |steps|
  {
    if steps != [] {
      var last := |steps| - 1;
      assert !steps[last].Goto? && env.moved(t + last).None?;
      UrlAfterStill(env, steps[..last], t, before);
    }
  }

  /** Opening `target` and then running `plan`, where the browser does not move by itself,
      lands on `target` exactly when the navigation succeeds. */
  lemma UrlAfterOpen(env: Env, target: string, plan: seq<Step>, t: nat, before: string)
    requires NoNavigation(plan) && Unmoved(env, t, 1 + |plan|)
    ensures UrlAfter(env, Attempt(env, [Goto(target)] + plan, t), t, before) == if env.succeeds(t) then target else before
  {
    AttemptCons(env, Goto(target), plan, t);
    var rest := if env.succeeds(t) then Attempt(env, plan, t + 1) else [];
    AttemptPrefix(env, plan, t + 1);
    assert NoNavigation(rest) by {
      forall i | 0 <= i < |rest| ensures !rest[i].Goto? {
        assert rest[i] == plan[i];
      }
    }
    UrlAfterAppend(env, [Goto(target)], rest, t, before);
    assert UrlAfter(env, [Goto(target)], t, before) == Landed(env, t, Goto(target), before);
    UrlAfterStill(env, rest, t + 1, UrlAfter(env, [Goto(target)], t, before));
  }

  /** Over any stretch of calls, the page's URL is where the steps they performed lead. */
  twostate lemma UrlFollowsTrace(p: Page, steps: seq<Step>)
    requires p.trace == old(p.trace) + steps
    ensures p.Url() == UrlAfter(p.env, steps, |old(p.trace)|, old(p.Url()))
  {
    UrlAfterAppend(p.env, old(p.trace), steps, 0, p.start);
  }

  /** The page. `start` is the URL it was opened at; `trace` lists every step performed, in
      order; `Url()` is `page.url()`. */
  class Page {
    const env: Env
    const start: string
    var trace: seq<Step>

    constructor (url: string, env: Env)
      ensures start == url && this.env == env && trace == [] && Url() == url
    {
      start := url;
      this.env := env;
      trace := [];
    }

    /** `page.url()`: where the steps performed so far have taken the page. */
    function Url(): string
      reads this
    {
      UrlAfter(env, trace, 0, start)
    }

    /** Performs one step: it is appended to the trace, and the page moves as `Landed` says. */
    method Perform(step: Step) returns (ok: bool)
      modifies this
      ensures ok == StepOk(env, |old(trace)|, step)
      ensures trace == old(trace) + [step]
      ensures Url() == Landed(env, |old(trace)|, step, old(Url()))
    {
      ok := StepOk(env, |trace|, step);
      assert (trace + [step])[..|trace|] == trace;
      trace := trace + [step];
    }

    /** `page.$(sel)`: the first match, or null when nothing matches. */
    method Query(sel: Selector) returns (ok: bool, handle: Option<Element>)
      modifies this
      ensures ok == StepOk(env, |old(trace)|, Step.Query(sel))
      ensures trace == old(trace) + [Step.Query(sel)]
      ensures handle == if ok && |env.dom(|old(trace)|, sel)| > 0 then Some(env.dom(|old(trace)|, sel)[0]) else None
    {
      var matches := env.dom(|trace|, sel);
      ok := Perform(Step.Query(sel));
      handle := if ok && |matches| > 0 then Some(matches[0]) else None;
    }

    /** `page.$$(sel)` and `page.$$eval(sel, ...)`: every match in document order. */
    method QueryAll(sel: Selector, eval: bool) returns (ok: bool, handles: seq<Element>)
      modifies this
      ensures ok == StepOk(env, |old(trace)|, if eval then Step.EvalAll(sel) else Step.QueryAll(sel))
      ensures trace == old(trace) + [if eval then Step.EvalAll(sel) else Step.QueryAll(sel)]
      ensures handles == if ok then env.dom(|old(trace)|, sel) else []
    {
      var matches := env.dom(|trace|, sel);
      ok := Perform(if eval then Step.EvalAll(sel) else Step.QueryAll(sel));
      handles := if ok then matches else [];
    }

    /** `page.$eval(sel, ...)`: the first match; it fails when nothing matches. */
    method EvalFirst(sel: Selector) returns (ok: bool, element: Option<Element>)
      modifies this
      ensures ok == StepOk(env, |old(trace)|, Step.EvalFirst(sel))
      ensures trace == old(trace) + [Step.EvalFirst(sel)]
      ensures element == if ok then Some(env.dom(|old(trace)|, sel)[0]) else None
    {
      var matches := env.dom(|trace|, sel);
      ok := Perform(Step.EvalFirst(sel));
      element := if ok then Some(matches[0]) else None;
    }

    /** `handle.$eval(sel, ...)`: the first descendant of `handle` that `sel` matches; it
        fails when there is none. */
    method EvalWithin(handle: Element, sel: Selector) returns (ok: bool, element: Option<Element>)
      modifies this
      ensures ok == StepOk(env, |old(trace)|, Step.EvalWithin(handle, sel))
      ensures trace == old(trace) + [Step.EvalWithin(handle, sel)]
      ensures element == if ok then Some(handle.descendants[sel]) else None
    {
      ok := Perform(Step.EvalWithin(handle, sel));
      element := if ok then Some(handle.descendants[sel]) else None;
    }

    /** Performs the steps of `plan`, which holds no navigation, one after another until one
        fails, as a sequence of awaited calls inside one `try` does. */
    method Run(plan: seq<Step>) returns (ok: bool)
      requires NoNavigation(plan)
      modifies this
      ensures ok == Completes(env, plan, |old(trace)|)
      ensures trace == old(trace) + Attempt(env, plan, |old(trace)|)
    {
      ghost var t := |trace|;
      var i := 0;
      ok := true;
      while i < |plan| && ok
        invariant 0 <= i <= |plan|
        invariant ok ==> Completes(env, plan[..i], t) && trace == old(trace) + plan[..i]
        invariant !ok ==> !Completes(env, plan, t) && trace == old(trace) + Attempt(env, plan, t)
        decreases |plan| - i
      {
        StepInto(env, plan, t, i);
        ok := Perform(plan[i]);
        i := i + 1;
      }
      if ok {
        assert plan[..i] == plan;
        AttemptSpec(env, plan, t);
      }
    }

    /** `await page.goto(target)` followed by the awaited steps of `plan`, inside one `try`. */
    method Open(target: string, plan: seq<Step>) returns (ok: bool)
      requires NoNavigation(plan)
      modifies this
      ensures ok == Completes(env, [Goto(target)] + plan, |old(trace)|)
      ensures trace == old(trace) + Attempt(env, [Goto(target)] + plan, |old(trace)|)
    {
      ghost var before := trace;
      AttemptCons(env, Goto(target), plan, |trace|);
      ok := GotoThen(target, plan);
      AppendAssociates(before, [Goto(target)], if env.succeeds(|before|) then Attempt(env, plan, |before| + 1) else []);
    }

    /** The opening most facade methods share: `goto(target)`, then `waitForSelector(anchor)`;
        when both succeed they are exactly the steps performed. */
    method OpenWaiting(target: string, anchor: Selector) returns (ok: bool)
      modifies this
      ensures ok == Completes(env, [Goto(target), WaitForSelector(anchor)], |old(trace)|)
      ensures trace == old(trace) + if ok then [Goto(target), WaitForSelector(anchor)] else Attempt(env, [Goto(target), WaitForSelector(anchor)], |old(trace)|)
    {
      assert [Goto(target), WaitForSelector(anchor)] == [Goto(target)] + [WaitForSelector(anchor)];
      AttemptSpec(env, [Goto(target), WaitForSelector(anchor)], |trace|);
      ok := Open(target, [WaitForSelector(anchor)]);
    }

    /** The opening of the facade methods that act on a list: `goto(target)`, then
        `waitForSelector(anchor)`, then `$$(sel)`, whose handles it returns. */
    method OpenListing(target: string, anchor: Selector, sel: Selector) returns (ok: bool, handles: seq<Element>)
      modifies this
      ensures var open := [Goto(target), WaitForSelector(anchor), Step.QueryAll(sel)];
        && ok == Completes(env, open, |old(trace)|)
        && trace == old(trace) + if ok then open else Attempt(env, open, |old(trace)|)
      ensures handles == if ok then env.dom(|old(trace)| + 2, sel) else []
    {
      ghost var t := |trace|;
      ghost var head := [Goto(target), WaitForSelector(anchor)];
      assert [Goto(target), WaitForSelector(anchor), Step.QueryAll(sel)] == head + [Step.QueryAll(sel)];
      AttemptThen(env, head, [Step.QueryAll(sel)], t);
      AttemptSingle(env, Step.QueryAll(sel), t + 2);
      ok := OpenWaiting(target, anchor);
      if !ok {
        return false, [];
      }
      ok, handles := QueryAll(sel, false);
    }

    /** The same, stated step by step: the navigation, then, only if it succeeded, `plan`. */
    method GotoThen(target: string, plan: seq<Step>) returns (ok: bool)
      requires NoNavigation(plan)
      modifies this
      ensures ok == (env.succeeds(|old(trace)|) && Completes(env, plan, |old(trace)| + 1))
      ensures trace == old(trace) + [Goto(target)] + (if env.succeeds(|old(trace)|) then Attempt(env, plan, |old(trace)| + 1) else [])
    {
      ok := Perform(Goto(target));
      if ok {
        ok := Run(plan);
      }
    }

    /** `await (await page.$(sel)).click()`. */
    method ClickFirst(sel: Selector) returns (ok: bool)
      modifies this
      ensures ok == QueryClicked(env, |old(trace)|, sel)
      ensures trace == old(trace) + QueryClick(env, |old(trace)|, sel)
    {
      var found, handle := Query(sel);
      if handle.None? {
        return false;
      }
      ok := Perform(ClickHandle(sel, 0));
    }
  }
}
