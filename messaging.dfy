/**
 * The `DirectMessaging` facade: the inbox listing, which turns every conversation item of
 * the messages page into a record, and three operations that are still empty.
 */
module Messaging {
  import opened JsValues
  import opened JsArrays
  import opened JsStrings
  import opened Puppeteer
  import opened SharedData

  const InboxItem: Selector := ".DMInbox-conversationItem"
  const FullName: Selector := ".fullname"
  const UserName: Selector := ".username"
  const ItemMeta: Selector := ".DMInboxItem"
  const ItemTimestamp: Selector := ".DMInboxItem-timestamp ._timestamp"

  /** One inbox entry. `lastMessageId` and `timestamp` are the raw attributes that the
      listing coerces to numbers with unary `+`. */
  datatype Conversation = Conversation(
    fullName: string,
    username: string,
    id: Option<string>,
    lastMessageId: Option<string>,
    isMuted: bool,
    timestamp: Option<string>)

  function InboxUrl(base: string): string {
    base + "/messages"
  }

  /** The four `element.$eval` calls made for one inbox item, in order. */
  function ItemPlan(item: Element): seq<Step> {
    [EvalWithin(item, FullName), EvalWithin(item, UserName), EvalWithin(item, ItemMeta), EvalWithin(item, ItemTimestamp)]
  }

  /** Whether all four calls on the item go through from position `t`: the item has all
      four parts and the page lets each call through. */
  predicate ItemOk(env: Env, item: Element, t: nat) {
    Extractable(item) && env.succeeds(t) && env.succeeds(t + 1) && env.succeeds(t + 2) && env.succeeds(t + 3)
  }

  /** The calls made on the item: up to and including the first that fails. */
  function ItemSteps(env: Env, item: Element, t: nat): seq<Step> {
    if !(env.succeeds(t) && FullName in item.descendants) then [EvalWithin(item, FullName)]
    else if !(env.succeeds(t + 1) && UserName in item.descendants) then [EvalWithin(item, FullName), EvalWithin(item, UserName)]
    else if !(env.succeeds(t + 2) && ItemMeta in item.descendants) then [EvalWithin(item, FullName), EvalWithin(item, UserName), EvalWithin(item, ItemMeta)]
    else ItemPlan(item)
  }

  /** The four calls run until the first one that fails, and each fails exactly when its
      part is missing or the page breaks down. */
  lemma ItemAttempt(env: Env, item: Element, t: nat)
    ensures Completes(env, ItemPlan(item), t) == ItemOk(env, item, t)
    ensures Attempt(env, ItemPlan(item), t) == ItemSteps(env, item, t)
    ensures ItemOk(env, item, t) ==> Extractable(item) && ItemSteps(env, item, t) == ItemPlan(item)
  {
    var plan := ItemPlan(item);
    assert plan[1..][1..][1..][1..] == [];
    AttemptCons(env, plan[0], plan[1..], t);
    assert plan == [plan[0]] + plan[1..];
    assert plan[1..] == [plan[1]] + plan[2..];
    assert plan[2..] == [plan[2]] + plan[3..];
    assert plan[3..] == [plan[3]];
    AttemptCons(env, plan[1], plan[2..], t + 1);
    AttemptCons(env, plan[2], plan[3..], t + 2);
    AttemptSingle(env, plan[3], t + 3);
  }

  /** The item has every part the four calls look for. */
  predicate Extractable(item: Element) {
    FullName in item.descendants && UserName in item.descendants
    && ItemMeta in item.descendants && ItemTimestamp in item.descendants
  }

  /** The record built from an item: the name's text, the handle's text with its first `@`
      removed (`String.prototype.replace` with a string pattern), the thread id, the last
      message id, whether `data-is-muted` is exactly "true", and the time. */
  function ConversationOf(item: Element): Conversation
    requires Extractable(item)
  {
    var meta := item.descendants[ItemMeta];
    Conversation(
      item.descendants[FullName].text,
      ReplaceFirst(item.descendants[UserName].text, '@'),
      GetAttribute(meta, "data-thread-id"),
      GetAttribute(meta, "data-last-message-id"),
      GetAttribute(meta, "data-is-muted") == Some("true"),
      GetAttribute(item.descendants[ItemTimestamp], "data-time"))
  }

  function Conversations(items: seq<Element>): (conversations: seq<Conversation>)
    requires forall i :: 0 <= i < |items| ==> Extractable(items[i])
  {
    seq(|items|, i requires 0 <= i < |items| && Extractable(items[i]) => ConversationOf(items[i]))
  }

  /** The steps for all items, item after item, as one plan. */
  function ItemsPlan(items: seq<Element>): (plan: seq<Step>)
    ensures |plan| == 4 * |items|
  {
    if items == [] then [] else ItemPlan(items[0]) + ItemsPlan(items[1..])
  }

  /** The item loop, item by item: every item's four calls, until the first item with a
      failing call, whose calls up to that one end the steps. */
  function ItemsAttempt(env: Env, items: seq<Element>, t: nat): seq<Step> {
    if items == [] then []
    else if ItemOk(env, items[0], t) then ItemPlan(items[0]) + ItemsAttempt(env, items[1..], t + 4)
    else ItemSteps(env, items[0], t)
  }

  /** Every item's four calls go through. */
  predicate ItemsComplete(env: Env, items: seq<Element>, t: nat) {
    items == [] || (ItemOk(env, items[0], t) && ItemsComplete(env, items[1..], t + 4))
  }

  /** The item-by-item loop is the attempt of the flat plan: it performs the same steps and
      completes in the same cases. */
  lemma {:induction false} ItemsAttemptIsPlanAttempt(env: Env, items: seq<Element>, t: nat)
    ensures ItemsAttempt(env, items, t) == Attempt(env, ItemsPlan(items), t)
    ensures ItemsComplete(env, items, t) == Completes(env, ItemsPlan(items), t)
    decreases |items|
  {
    if items != [] {
      var first := ItemPlan(items[0]);
      AttemptThen(env, first, ItemsPlan(items[1..]), t);
      ItemAttempt(env, items[0], t);
      ItemsAttemptIsPlanAttempt(env, items[1..], t + 4);
    }
  }

  /** A loop over the items that completes has found every part of every item. */
  lemma {:induction false} ItemsExtractable(env: Env, items: seq<Element>, t: nat)
    requires ItemsComplete(env, items, t)
    ensures forall i :: 0 <= i < |items| ==> Extractable(items[i])
    decreases |items|
  {
    if items != [] {
      ItemsExtractable(env, items[1..], t + 4);
      forall i | 1 <= i < |items| ensures Extractable(items[i]) {
        assert items[i] == items[1..][i - 1];
      }
    }
  }

  /** After the steps `before`, the loop from item `k` on, when item `k`'s calls all go
      through: its four calls, then the loop from item `k + 1` on. */
  lemma ItemsNext(env: Env, items: seq<Element>, k: nat, u: nat, before: seq<Step>)
    requires k < |items| && ItemOk(env, items[k], u)
    ensures before + ItemsAttempt(env, items[k..], u) == (before + ItemPlan(items[k])) + ItemsAttempt(env, items[k + 1..], u + 4)
    ensures ItemsComplete(env, items[k..], u) == ItemsComplete(env, items[k + 1..], u + 4)
  {
    assert items[k..][1..] == items[k + 1..];
  }

  /** The loop from item `k` on, when one of item `k`'s calls fails: it ends inside item
      `k`, without completing. */
  lemma ItemsHalt(env: Env, items: seq<Element>, k: nat, u: nat)
    requires k < |items| && !ItemOk(env, items[k], u)
    ensures ItemsAttempt(env, items[k..], u) == ItemSteps(env, items[k], u)
    ensures !ItemsComplete(env, items[k..], u)
  {
  }

  /** Past the last item the loop does nothing more, and completes. */
  lemma ItemsDone(env: Env, items: seq<Element>, u: nat, before: seq<Step>)
    ensures before + ItemsAttempt(env, items[|items|..], u) == before
    ensures ItemsComplete(env, items[|items|..], u)
  {
    assert items[|items|..] == [];
    assert before + [] == before;
  }

  /** The steps of `list()` and its result, stage by stage: open the inbox, wait for an item,
      list the items, then extract each in turn; a failure anywhere gives false. */
  function ListRun(env: Env, t: nat, base: string): Outcome<OrFalse<seq<Conversation>>> {
    var open := [Goto(InboxUrl(base)), WaitForSelector(InboxItem), QueryAll(InboxItem)];
    if !Completes(env, open, t) then Outcome(Attempt(env, open, t), False)
    else
      var items := env.dom(t + 2, InboxItem);
      if ItemsComplete(env, items, t + 3) then
        ItemsExtractable(env, items, t + 3);
        Outcome(open + ItemsAttempt(env, items, t + 3), Value(Conversations(items)))
      else Outcome(open + ItemsAttempt(env, items, t + 3), False)
  }

  /** The listing performs the flat plan of all its calls (navigation, wait, listing, then
      four calls per item) up to the first failure, and gives a list exactly when every
      step of that plan succeeded, so a step that fails anywhere makes it false. */
  lemma ListFalseOnAnyFailure(env: Env, t: nat, base: string)
    ensures var open := [Goto(InboxUrl(base)), WaitForSelector(InboxItem), QueryAll(InboxItem)];
      var plan := open + ItemsPlan(env.dom(t + 2, InboxItem));
      var run := ListRun(env, t, base);
      && run.steps == Attempt(env, plan, t)
      && (run.result.Value? <==> Completes(env, plan, t))
  {
    var open := [Goto(InboxUrl(base)), WaitForSelector(InboxItem), QueryAll(InboxItem)];
    var items := env.dom(t + 2, InboxItem);
    AttemptThen(env, open, ItemsPlan(items), t);
    AttemptSpec(env, open, t);
    ItemsAttemptIsPlanAttempt(env, items, t + 3);
  }

  /** A list, when there is one, holds one conversation per inbox item, in page order, each
      built from its own item. */
  lemma ListOnePerItem(env: Env, t: nat, base: string)
    ensures var run := ListRun(env, t, base);
      var items := env.dom(t + 2, InboxItem);
      run.result.Value? ==>
        && |run.result.value| == |items|
        && forall i :: 0 <= i < |items| ==> Extractable(items[i]) && run.result.value[i] == ConversationOf(items[i])
  {
    var open := [Goto(InboxUrl(base)), WaitForSelector(InboxItem), QueryAll(InboxItem)];
    var items := env.dom(t + 2, InboxItem);
    if Completes(env, open, t) && ItemsComplete(env, items, t + 3) {
      ItemsExtractable(env, items, t + 3);
      assert ListRun(env, t, base).result == Value(Conversations(items));
    }
  }

  /** Never a partial list: an inbox item that lacks any of the four parts makes the whole
      listing false, wherever it is. */
  lemma ListRejectsIncompleteItem(env: Env, t: nat, base: string, k: nat)
    requires k < |env.dom(t + 2, InboxItem)| && !Extractable(env.dom(t + 2, InboxItem)[k])
    ensures ListRun(env, t, base).result == False
  {
    var open := [Goto(InboxUrl(base)), WaitForSelector(InboxItem), QueryAll(InboxItem)];
    if Completes(env, open, t) && ItemsComplete(env, env.dom(t + 2, InboxItem), t + 3) {
      ItemsExtractable(env, env.dom(t + 2, InboxItem), t + 3);
    }
  }

  /** The handle loses exactly its first `@`: the username is the handle with the character
      at some index deleted, that character is `@` and no `@` comes before it; a handle
      without `@` is kept whole. */
  lemma UsernameDropsFirstAt(item: Element)
    requires Extractable(item)
    ensures var handle := item.descendants[UserName].text;
      var username := ConversationOf(item).username;
      && ('@' !in handle ==> username == handle)
      && ('@' in handle ==> exists i :: 0 <= i < |handle| && handle[i] == '@' && '@' !in handle[..i] && username == handle[..i] + handle[i + 1..])
  {
    var handle := item.descendants[UserName].text;
    ReplaceFirstAtIndexOf(handle, '@');
    if '@' in handle {
      var i := IndexOf(handle, '@');
      assert 0 <= i < |handle| && handle[i] == '@' && '@' !in handle[..i];
    }
  }

  /** Only the exact string "true" mutes: "TRUE", "1" and an absent attribute do not. */
  lemma MutedOnlyByExactTrue(text: string, name: Element, handle: Element, stamp: Element, muted: string)
    ensures var meta := Element("", map["data-is-muted" := muted], map[]);
      var item := Element(text, map[], map[FullName := name, UserName := handle, ItemMeta := meta, ItemTimestamp := stamp]);
      && Extractable(item)
      && (ConversationOf(item).isMuted <==> muted == "true")
    ensures var bare := Element("", map[], map[]);
      var item := Element(text, map[], map[FullName := name, UserName := handle, ItemMeta := bare, ItemTimestamp := stamp]);
      !ConversationOf(item).isMuted && ConversationOf(item).id == None
  {
  }

  class DirectMessaging {
    const page: Page
    const data: Data

    constructor (page: Page, data: Data)
      ensures this.page == page && this.data == data
    {
      this.page := page;
      this.data := data;
    }

    /** `list()`: the conversations of the inbox, or false when any step failed. */
    method List() returns (r: OrFalse<seq<Conversation>>)
      modifies page
      ensures var run := ListRun(page.env, |old(page.trace)|, data.baseurl);
        page.trace == old(page.trace) + run.steps && r == run.result
    {
      var listed, items := page.OpenListing(InboxUrl(data.baseurl), InboxItem, InboxItem);
      if !listed {
        return False;
      }
      var ok, conversations := ExtractAll(items);
      if !ok {
        return False;
      }
      return Value(conversations);
    }

    /** The loop of `list()`: one record per item, pushed in order; the first call that
        fails ends it. */
    method ExtractAll(items: seq<Element>) returns (ok: bool, conversations: seq<Conversation>)
      modifies page
      ensures ok == ItemsComplete(page.env, items, |old(page.trace)|)
      ensures page.trace == old(page.trace) + ItemsAttempt(page.env, items, |old(page.trace)|)
      ensures ok ==> (forall i :: 0 <= i < |items| ==> Extractable(items[i])) && conversations == Conversations(items)
    {
      ghost var env := page.env;
      ghost var whole := old(page.trace) + ItemsAttempt(env, items, |page.trace|);
      ghost var complete := ItemsComplete(env, items, |page.trace|);
      conversations := [];
      for k := 0 to |items|
        invariant page.trace + ItemsAttempt(env, items[k..], |page.trace|) == whole
        invariant ItemsComplete(env, items[k..], |page.trace|) == complete
        invariant |conversations| == k
        invariant forall i :: 0 <= i < k ==> Extractable(items[i]) && conversations[i] == ConversationOf(items[i])
      {
        ghost var before := page.trace;
        var conversation;
        ok, conversation := Extract(items[k]);
        if !ok {
          ItemsHalt(env, items, k, |before|);
          return;
        }
        ItemsNext(env, items, k, |before|, before);
        conversations := conversations + [conversation];
      }
      ItemsDone(env, items, |page.trace|, page.trace);
      return true, conversations;
    }

    /** The loop body of `list()`: the four `$eval` calls on one item, then its record. */
    method Extract(item: Element) returns (ok: bool, conversation: Conversation)
      modifies page
      ensures ok == ItemOk(page.env, item, |old(page.trace)|)
      ensures page.trace == old(page.trace) + ItemSteps(page.env, item, |old(page.trace)|)
      ensures ok ==> Extractable(item) && conversation == ConversationOf(item)
    {
      ghost var plan := ItemPlan(item);
      conversation := Conversation("", "", None, None, false, None);
      var name, handle, meta, stamp;
      ok, name := page.EvalWithin(item, FullName);
      if !ok {
        assert page.trace == old(page.trace) + plan[..1];
        return;
      }
      ok, handle := page.EvalWithin(item, UserName);
      if !ok {
        assert page.trace == old(page.trace) + plan[..2];
        return;
      }
      ok, meta := page.EvalWithin(item, ItemMeta);
      if !ok {
        assert page.trace == old(page.trace) + plan[..3];
        return;
      }
      ok, stamp := page.EvalWithin(item, ItemTimestamp);
      assert page.trace == old(page.trace) + plan;
      if !ok {
        return;
      }
      conversation := Conversation(
        name.value.text,
        ReplaceFirst(handle.value.text, '@'),
        GetAttribute(meta.value, "data-thread-id"),
        GetAttribute(meta.value, "data-last-message-id"),
        GetAttribute(meta.value, "data-is-muted") == Some("true"),
        GetAttribute(stamp.value, "data-time"));
    }

    /** `create(text, username)`: an empty body; nothing happens and the result is undefined. */
    method Create(text: string, username: string) returns (r: Value)
      ensures r == Undefined
    {
      r := Undefined;
    }

    /** `reply(text, messageId)`: an empty body as well. */
    method Reply(text: string, messageId: string) returns (r: Value)
      ensures r == Undefined
    {
      r := Undefined;
    }

    /** `delete(messageId)`: an empty body as well. */
    method Delete(messageId: string) returns (r: Value)
      ensures r == Undefined
    {
      r := Undefined;
    }
  }
}
