/**
 * The JavaScript background script (background.js). Its records live in one
 * storage item, CNSIdata, holding the whole map; setStorageVar replaces the
 * map in memory with the stored one before it changes a field; the icon click
 * injects the content scripts before it opens the overlay and resets the
 * record at once when it closes it.
 *
 * Host calls are parameters: the answers of the three script injections, the
 * content script's reply, and the captured image. Messages sent to tabs are
 * appended to `outbox`.
 */
module LegacyCoordinator {
  import opened Wrappers
  import opened Text
  import opened Types

  /**
   * A property name of CNSI.bg.data: a tab id, `undefined` for a tab without
   * one, or a tab object used as a name, which JavaScript turns into
   * "[object Object]".
   */
  datatype Key = IdKey(id: int) | UndefinedKey | ObjectKey

  datatype Tab = Tab(id: Option<int>, url: Option<string>, active: bool, status: string)

  function KeyOf(id: Option<int>): (k: Key)
    ensures k != ObjectKey
  {
    if id.Some? then IdKey(id.value) else UndefinedKey
  }

  /** Different ids name different records. */
  lemma KeyOfInjective(id: Option<int>, id': Option<int>)
    ensures KeyOf(id) == KeyOf(id') ==> id == id'
  {
  }

  /** What the create and update handlers demand of a tab; unlike background.ts an empty url or a missing id passes. */
  predicate IsReadyPage(tab: Tab) {
    tab.url.Some? && !StartsWith(tab.url.value, "chrome://") && tab.active && tab.status == "complete"
  }

  /** The record kept per tab. Its port is always null and is not represented. */
  datatype Entry = Entry(identifier: IdentifierState, screenshot: Option<string>)

  /** What initStorageVars writes: closed, no screenshot. */
  const Cleared: Entry := Entry(Closed, None)

  datatype Setting = IdentifierSetting(state: IdentifierState) | ScreenshotSetting(url: string)

  function Apply(e: Entry, s: Setting): Entry {
    match s
    case IdentifierSetting(st) => e.(identifier := st)
    case ScreenshotSetting(u) => e.(screenshot := Some(u))
  }

  datatype ToContent = OpenRequest | CloseRequest | Screenshot(url: string, tabId: Option<int>)

  datatype Outgoing = Outgoing(tab: Key, message: ToContent)

  datatype Reply = Reply(status: string, tabId: Option<int>)

  /** `response != null && response.status == "success"` */
  predicate IsSuccess(response: Option<Reply>) {
    response.Some? && response.value.status == "success"
  }

  /** The boolean flags a content script's message may carry. */
  datatype Request = Request(getTabId: bool, scrolled: bool, resized: bool, clicked: bool)

  predicate IsRecapture(req: Request) {
    req.scrolled || req.resized || req.clicked
  }

  /** handleMessage's reply: success with the tab id to getTabId, success to a recapture, failure otherwise. */
  function ReplyFor(req: Request, senderId: Option<int>): (r: Reply)
    ensures r.status == "success" <==> req.getTabId || IsRecapture(req)
    ensures r.status == "success" || r.status == "failure"
    ensures r.tabId == (if req.getTabId then senderId else None)
  {
    if req.getTabId then Reply("success", senderId)
    else if IsRecapture(req) then Reply("success", None)
    else Reply("failure", None)
  }

  // ---------------------------------------------------------------------------
  // loadScripts

  /** What one chrome.tabs.executeScript callback sees: runtime.lastError's message and whether results came back. */
  datatype Injection = Injection(error: Option<string>, hasResults: bool)

  predicate Succeeded(i: Injection) {
    i.error.None? && i.hasResults
  }

  datatype Settled = Resolved | Rejected(reason: Option<string>)

  /** The files injected, in order, and how the promise settled. */
  datatype Load = Load(injected: seq<string>, outcome: Settled)

  const ScriptFiles: seq<string> := ["scripts/utilities.js", "scripts/data.js", "scripts/content.js"]

  /**
   * A chain of injections, each started from the previous one's callback
   * only when that one succeeded: the files injected are a non-empty prefix
   * of the list; every one before the last succeeded; the chain resolves
   * exactly when all did, and otherwise rejects with the error of the last
   * one injected.
   */
  function Chain(files: seq<string>, answers: seq<Injection>): (l: Load)
    requires |files| == |answers| >= 1
    ensures 1 <= |l.injected| <= |files| && l.injected == files[..|l.injected|]
    ensures forall i :: 0 <= i < |l.injected| - 1 ==> Succeeded(answers[i])
    ensures l.outcome == Resolved <==> forall i :: 0 <= i < |files| ==> Succeeded(answers[i])
    ensures l.outcome == Resolved ==> |l.injected| == |files|
    ensures l.outcome.Rejected? ==>
      !Succeeded(answers[|l.injected| - 1]) && l.outcome.reason == answers[|l.injected| - 1].error
    decreases |files|
  {
    if !Succeeded(answers[0]) then Load([files[0]], Rejected(answers[0].error))
    else if |files| == 1 then Load([files[0]], Resolved)
    else
      var rest := Chain(files[1..], answers[1..]);
      Load([files[0]] + rest.injected, rest.outcome)
  }

  /** loadScripts: utilities.js, then data.js, then content.js, each only after the previous succeeded. */
  function LoadScripts(answers: seq<Injection>): (l: Load)
    requires |answers| == 3
    ensures 1 <= |l.injected| <= 3 && l.injected == ScriptFiles[..|l.injected|]
    ensures "scripts/data.js" in l.injected ==> Succeeded(answers[0])
    ensures "scripts/content.js" in l.injected ==> Succeeded(answers[0]) && Succeeded(answers[1])
    ensures l.outcome == Resolved <==> Succeeded(answers[0]) && Succeeded(answers[1]) && Succeeded(answers[2])
  {
    var l := Chain(ScriptFiles, answers);
    assert ScriptFiles[..1] == ["scripts/utilities.js"];
    assert ScriptFiles[..2] == ["scripts/utilities.js", "scripts/data.js"];
    assert ScriptFiles[..3] == ScriptFiles;
    l
  }

  class LegacyBackground {
    /** CNSI.bg.data */
    var data: map<Key, Entry>
    /** The CNSIdata storage item, absent until first written. */
    var stored: Option<map<Key, Entry>>
    /** Whether handleMessage listens to runtime messages. */
    var listening: bool
    /** The messages sent to content scripts, oldest first. */
    var outbox: seq<Outgoing>

    constructor()
      ensures data == map[] && stored == None && !listening && outbox == []
    {
      data := map[];
      stored := None;
      listening := false;
      outbox := [];
    }

    /** initStorageVars: a cleared record under the key, then the whole map stored. */
    method InitStorageVars(key: Key)
      modifies this
      ensures data == old(data)[key := Cleared] && stored == Some(data)
      ensures listening == old(listening) && outbox == old(outbox)
    {
      data := data[key := Cleared];
      stored := Some(data);
    }

    /**
     * setStorageVar: the map in memory becomes the stored map; then the tab's
     * field is set and the map stored again. When the stored map has no
     * record for the tab the assignment throws and storage is left as it was.
     */
    method SetStorageVar(tab: Tab, s: Setting) returns (thrown: bool)
      modifies this
      requires stored.Some?
      ensures var key := KeyOf(tab.id);
        && (thrown <==> key !in old(stored).value)
        && (thrown ==> data == old(stored).value && stored == old(stored))
        && (!thrown ==> data == old(stored).value[key := Apply(old(stored).value[key], s)] && stored == Some(data))
      ensures listening == old(listening) && outbox == old(outbox)
    {
      data := stored.value;
      var key := KeyOf(tab.id);
      if key !in data {
        return true;
      }
      data := data[key := Apply(data[key], s)];
      stored := Some(data);
      thrown := false;
    }

    /** handleTabActivate: a tab without a record in memory gets a cleared one. */
    method HandleTabActivate(tabId: int)
      modifies this
      ensures IdKey(tabId) in old(data) ==> data == old(data) && stored == old(stored)
      ensures IdKey(tabId) !in old(data) ==> data == old(data)[IdKey(tabId) := Cleared] && stored == Some(data)
      ensures listening == old(listening) && outbox == old(outbox)
    {
      if IdKey(tabId) !in data {
        InitStorageVars(IdKey(tabId));
      }
    }

    /** handleTabCreate: a cleared record for a ready page. */
    method HandleTabCreate(tab: Tab)
      modifies this
      ensures !IsReadyPage(tab) ==> data == old(data) && stored == old(stored)
      ensures IsReadyPage(tab) ==> data == old(data)[KeyOf(tab.id) := Cleared] && stored == Some(data)
      ensures listening == old(listening) && outbox == old(outbox)
    {
      if IsReadyPage(tab) {
        InitStorageVars(KeyOf(tab.id));
      }
    }

    /** handleTabRemove: the tab's record leaves memory; the stored map keeps it. */
    method HandleTabRemove(tabId: int)
      modifies this
      ensures data == old(data) - {IdKey(tabId)} && stored == old(stored)
      ensures listening == old(listening) && outbox == old(outbox)
    {
      if IdKey(tabId) in data {
        data := data - {IdKey(tabId)};
      }
    }

    /** handleTabUpdate: as handleTabCreate, once the change itself completed. */
    method HandleTabUpdate(tabId: int, changeStatus: Option<string>, tab: Tab)
      modifies this
      ensures !(IsReadyPage(tab) && changeStatus == Some("complete")) ==> data == old(data) && stored == old(stored)
      ensures IsReadyPage(tab) && changeStatus == Some("complete") ==>
        data == old(data)[KeyOf(tab.id) := Cleared] && stored == Some(data)
      ensures listening == old(listening) && outbox == old(outbox)
    {
      if IsReadyPage(tab) && changeStatus == Some("complete") {
        InitStorageVars(KeyOf(tab.id));
      }
    }

    /** takeScreenshot: store the capture for the tab and send it to the tab. */
    method TakeScreenshot(tab: Tab, capture: string)
      modifies this
      requires stored.Some?
      ensures var key := KeyOf(tab.id);
        && (key !in old(stored).value ==> data == old(stored).value && stored == old(stored))
        && (key in old(stored).value ==>
              data == old(stored).value[key := old(stored).value[key].(screenshot := Some(capture))] && stored == Some(data))
      ensures listening == old(listening)
      ensures outbox == old(outbox) + [Outgoing(KeyOf(tab.id), Screenshot(capture, tab.id))]
    {
      var _ := SetStorageVar(tab, ScreenshotSetting(capture));
      outbox := outbox + [Outgoing(KeyOf(tab.id), Screenshot(capture, tab.id))];
    }

    /**
     * openIdentifier: ask the tab to open the overlay; a success answer marks
     * the record opened, takes a screenshot and starts listening to messages.
     */
    method OpenIdentifier(tab: Tab, response: Option<Reply>, capture: string)
      modifies this
      requires stored.Some?
      ensures !IsSuccess(response) ==>
        data == old(data) && stored == old(stored) && listening == old(listening)
        && outbox == old(outbox) + [Outgoing(KeyOf(tab.id), OpenRequest)]
      ensures IsSuccess(response) ==>
        var key := KeyOf(tab.id);
        && listening
        && outbox == old(outbox) + [Outgoing(key, OpenRequest), Outgoing(key, Screenshot(capture, tab.id))]
        && (key !in old(stored).value ==> data == old(stored).value && stored == old(stored))
        && (key in old(stored).value ==>
              data == old(stored).value[key := Entry(Opened, Some(capture))] && stored == Some(data))
    {
      outbox := outbox + [Outgoing(KeyOf(tab.id), OpenRequest)];
      if IsSuccess(response) {
        var _ := SetStorageVar(tab, IdentifierSetting(Opened));
        TakeScreenshot(tab, capture);
        listening := true;
      }
    }

    /**
     * The close request's callback as written: on success it clears the
     * record named by the tab object itself, "[object Object]", and stops
     * listening; the tab's own record is not touched.
     */
    method OnCloseResponseAsWritten(tab: Tab, response: Option<Reply>)
      modifies this
      ensures IsSuccess(response) ==> ObjectKey in data && data[ObjectKey] == Cleared && !listening
      ensures IsSuccess(response) ==> data - {ObjectKey} == old(data) - {ObjectKey}
      ensures !IsSuccess(response) ==> data == old(data) && stored == old(stored) && listening == old(listening)
      ensures outbox == old(outbox)
    {
      if IsSuccess(response) {
        InitStorageVars(ObjectKey);
        listening := false;
      }
    }

    /**
     * The close request's callback as intended: on success the tab's own
     * record is cleared, no other record appears, and listening stops.
     */
    method OnCloseResponse(tab: Tab, response: Option<Reply>)
      modifies this
      ensures IsSuccess(response) ==>
        data == old(data)[KeyOf(tab.id) := Cleared] && stored == Some(data) && !listening
      ensures IsSuccess(response) ==> data.Keys == old(data).Keys + {KeyOf(tab.id)}
      ensures !IsSuccess(response) ==> data == old(data) && stored == old(stored) && listening == old(listening)
      ensures outbox == old(outbox)
    {
      if IsSuccess(response) {
        InitStorageVars(KeyOf(tab.id));
        listening := false;
      }
    }

    /**
     * handleIconClick: for an active, loaded tab, read its identifier from
     * the stored map (a missing record reads as closed). Closed: inject the
     * content scripts and, when that resolved, open the overlay. Opened: send
     * the close request and clear the record at once, whatever the answer.
     */
    method HandleIconClick(tab: Tab, injections: seq<Injection>, response: Option<Reply>, capture: string)
      modifies this
      requires stored.Some?
      requires |injections| == 3
      ensures !(tab.active && tab.status == "complete") ==>
        data == old(data) && stored == old(stored) && listening == old(listening) && outbox == old(outbox)
      ensures tab.active && tab.status == "complete" ==>
        var key := KeyOf(tab.id);
        var wasOpen := key in old(stored).value && old(stored).value[key].identifier == Opened;
        && (wasOpen ==>
              && data == old(data)[key := Cleared] && stored == Some(data)
              && outbox == old(outbox) + [Outgoing(key, CloseRequest)]
              && (IsSuccess(response) ==> !listening)
              && (!IsSuccess(response) ==> listening == old(listening)))
        && (!wasOpen && LoadScripts(injections).outcome.Rejected? ==>
              data == old(data) && stored == old(stored) && outbox == old(outbox) && listening == old(listening))
        && (!wasOpen && LoadScripts(injections).outcome == Resolved && !IsSuccess(response) ==>
              && data == old(data) && stored == old(stored) && listening == old(listening)
              && outbox == old(outbox) + [Outgoing(key, OpenRequest)])
        && (!wasOpen && LoadScripts(injections).outcome == Resolved && IsSuccess(response) ==>
              && listening
              && outbox == old(outbox) + [Outgoing(key, OpenRequest), Outgoing(key, Screenshot(capture, tab.id))]
              && (key !in old(stored).value ==> data == old(stored).value && stored == old(stored))
              && (key in old(stored).value ==>
                    data == old(stored).value[key := Entry(Opened, Some(capture))] && stored == Some(data)))
    {
      if !(tab.active && tab.status == "complete") {
        return;
      }
      var key := KeyOf(tab.id);
      var identifier := if key in stored.value then stored.value[key].identifier else Closed;
      if identifier == Closed {
        var load := LoadScripts(injections);
        if load.outcome == Resolved {
          OpenIdentifier(tab, response, capture);
        }
      } else {
        outbox := outbox + [Outgoing(key, CloseRequest)];
        InitStorageVars(key);
        OnCloseResponse(tab, response);
      }
    }

    /** handleMessage: the reply ReplyFor gives; a recapture also takes a screenshot of the sender. */
    method HandleMessage(req: Request, sender: Tab, capture: string) returns (reply: Reply)
      modifies this
      requires !req.getTabId && IsRecapture(req) ==> stored.Some?
      ensures reply == ReplyFor(req, sender.id)
      ensures !(!req.getTabId && IsRecapture(req)) ==>
        data == old(data) && stored == old(stored) && outbox == old(outbox)
      ensures !req.getTabId && IsRecapture(req) ==>
        var key := KeyOf(sender.id);
        && outbox == old(outbox) + [Outgoing(key, Screenshot(capture, sender.id))]
        && (key !in old(stored).value ==> data == old(stored).value && stored == old(stored))
        && (key in old(stored).value ==>
              data == old(stored).value[key := old(stored).value[key].(screenshot := Some(capture))] && stored == Some(data))
      ensures listening == old(listening)
    {
      if req.getTabId {
        reply := Reply("success", sender.id);
      } else if IsRecapture(req) {
        TakeScreenshot(sender, capture);
        reply := Reply("success", None);
      } else {
        reply := Reply("failure", None);
      }
    }
  }
}
