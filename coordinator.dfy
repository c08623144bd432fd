/**
 * The background script (background.ts): the per-tab session record kept in
 * memory and mirrored to extension storage, the tab event handlers that
 * create and drop records, the icon click that opens or closes the
 * identifier overlay in a tab, and the reply to messages from content
 * scripts.
 *
 * Host calls are parameters: the port chrome.tabs.connect returns when a
 * record is created (`connected`), the reply of the content script to an
 * open or close request (`response`), and the image captureVisibleTab
 * returns (`capture`). Messages sent to tabs are appended to `outbox`.
 */
module Coordinator {
  import opened Wrappers
  import opened Text
  import opened Types

  /** A chrome.tabs.Tab as far as the handlers read it. */
  datatype Tab = Tab(id: Option<TabId>, url: Option<string>, active: bool, status: string)

  /** `tab.id` is truthy: present and not 0. */
  predicate HasId(tab: Tab) {
    tab.id.Some? && tab.id.value != 0
  }

  /** What the create and update handlers demand of a tab before initialising it. */
  predicate IsReadyPage(tab: Tab) {
    && HasId(tab)
    && tab.url.Some? && tab.url.value != ""
    && !StartsWith(tab.url.value, "chrome://")
    && tab.active && tab.status == "complete"
  }

  /** The record kept per tab: overlay state, port and last screenshot. */
  datatype StorageData = StorageData(identifier: IdentifierState, port: Port, screenshot: string)

  /** What initStorageVars stores for a tab. */
  function Fresh(connected: Port): (e: StorageData)
    ensures e.identifier == Closed && e.port == connected && e.screenshot == ""
  {
    StorageData(Closed, connected, "")
  }

  datatype StorageKey = IdentifierKey | PortKey | ScreenshotKey

  datatype Value = IdentifierValue(state: IdentifierState) | PortValue(port: Port) | TextValue(text: string)

  /** A key with a value of the type stored under it, as every caller of setStorageVar passes them. */
  datatype Setting =
    | IdentifierSetting(state: IdentifierState)
    | PortSetting(port: Port)
    | ScreenshotSetting(url: string)

  function KeyOf(s: Setting): StorageKey {
    match s
    case IdentifierSetting(_) => IdentifierKey
    case PortSetting(_) => PortKey
    case ScreenshotSetting(_) => ScreenshotKey
  }

  function ValueOf(s: Setting): Value {
    match s
    case IdentifierSetting(st) => IdentifierValue(st)
    case PortSetting(p) => PortValue(p)
    case ScreenshotSetting(u) => TextValue(u)
  }

  /** `data[key]` */
  function Field(e: StorageData, key: StorageKey): Value {
    match key
    case IdentifierKey => IdentifierValue(e.identifier)
    case PortKey => PortValue(e.port)
    case ScreenshotKey => TextValue(e.screenshot)
  }

  /** `data[key] = value`: the named field reads back the value, the others are kept. */
  function Apply(e: StorageData, s: Setting): (e': StorageData)
    ensures Field(e', KeyOf(s)) == ValueOf(s)
    ensures forall key :: key != KeyOf(s) ==> Field(e', key) == Field(e, key)
  {
    match s
    case IdentifierSetting(st) => e.(identifier := st)
    case PortSetting(p) => e.(port := p)
    case ScreenshotSetting(u) => e.(screenshot := u)
  }

  /** The record a tab has, or the one getStorageVar and setStorageVar create for it. */
  function Base(data: map<TabId, StorageData>, id: TabId, connected: Port): StorageData {
    if |data| == 0 || id !in data then Fresh(connected) else data[id]
  }

  datatype ToContent = OpenRequest | CloseRequest | Screenshot(url: string, tabId: TabId)

  /** A message sent to the content script of a tab. */
  datatype Outgoing = Outgoing(tab: TabId, message: ToContent)

  /** The `{status, tabId}` object of a reply. */
  datatype Reply = Reply(status: string, tabId: Option<TabId>)

  predicate IsSuccess(response: Option<Reply>) {
    response.Some? && response.value.status == "success"
  }

  /** The events after which a content script asks for a new screenshot. */
  predicate IsRecaptureEvent(event: Option<string>) {
    event == Some("scrolled") || event == Some("resized") || event == Some("clicked")
  }

  /**
   * handleMessage's reply: none to a sender that is not a tab; success with
   * the sender's id to "getTabId"; success to a recapture event; failure to
   * anything else.
   */
  function ReplyFor(event: Option<string>, sender: Option<Tab>): (r: Option<Reply>)
    ensures r.None? <==> sender.None?
    ensures r.Some? ==> (r.value.status == "success" <==> event == Some("getTabId") || IsRecaptureEvent(event))
    ensures r.Some? ==> (r.value.status == "success" || r.value.status == "failure")
    ensures r.Some? && event == Some("getTabId") ==> r.value.tabId == sender.value.id
    ensures r.Some? && event != Some("getTabId") ==> r.value.tabId.None?
  {
    if sender.None? then None
    else if event == Some("getTabId") then Some(Reply("success", sender.value.id))
    else if IsRecaptureEvent(event) then Some(Reply("success", None))
    else Some(Reply("failure", None))
  }

  /**
   * The record of a tab after an icon click whose request got `success` as
   * its answer: a closed overlay is opened and a screenshot stored, an open
   * one is closed; without success nothing changes. The port is kept.
   */
  function ClickedEntry(e: StorageData, success: bool, capture: string): (e': StorageData)
    ensures !success ==> e' == e
    ensures success ==> e'.identifier != e.identifier
    ensures e'.port == e.port
    ensures success && e.identifier == Closed ==> e'.screenshot == capture
    ensures e.identifier == Opened ==> e'.screenshot == e.screenshot
  {
    if !success then e
    else if e.identifier == Closed then Apply(Apply(e, IdentifierSetting(Opened)), ScreenshotSetting(capture))
    else Apply(e, IdentifierSetting(Closed))
  }

  /** The messages an icon click sends to the tab. */
  function ClickMessages(id: TabId, before: IdentifierState, success: bool, capture: string): (m: seq<Outgoing>)
    ensures |m| >= 1 && m[0].tab == id
    ensures m[0].message == (if before == Closed then OpenRequest else CloseRequest)
    ensures |m| == 2 <==> before == Closed && success
    ensures |m| <= 2 && (|m| == 2 ==> m[1] == Outgoing(id, Screenshot(capture, id)))
  {
    if before == Closed then
      if success then [Outgoing(id, OpenRequest), Outgoing(id, Screenshot(capture, id))]
      else [Outgoing(id, OpenRequest)]
    else [Outgoing(id, CloseRequest)]
  }

  /** Two answered clicks bring the overlay back to where it was. */
  lemma ClickTwiceRestores(e: StorageData, capture: string, capture': string)
    ensures ClickedEntry(ClickedEntry(e, true, capture), true, capture').identifier == e.identifier
  {
  }

  class Background {
    /** CnsiBg.data: the record of every tab seen. */
    var data: map<TabId, StorageData>
    /** chrome.storage.local: one item per tab id. */
    var stored: map<TabId, StorageData>
    /** The messages sent to content scripts, oldest first. */
    var outbox: seq<Outgoing>

    /** Every record in memory is the one in storage. */
    ghost predicate Valid()
      reads this
    {
      forall t :: t in data ==> t in stored && stored[t] == data[t]
    }

    constructor()
      ensures Valid()
      ensures data == map[] && stored == map[] && outbox == []
    {
      data := map[];
      stored := map[];
      outbox := [];
    }

    /** initStorageVars: a closed record with a newly connected port, in memory and in storage. */
    method InitStorageVars(tabId: TabId, connected: Port) returns (entry: StorageData)
      modifies this
      requires Valid()
      ensures Valid()
      ensures entry == Fresh(connected)
      ensures data == old(data)[tabId := entry] && stored == old(stored)[tabId := entry]
      ensures outbox == old(outbox)
    {
      entry := Fresh(connected);
      data := data[tabId := entry];
      stored := stored[tabId := entry];
    }

    /**
     * getStorageVar: "" for a tab without id; otherwise the named field of the
     * tab's record, creating the record first when there is none.
     */
    method GetStorageVar(tab: Tab, key: StorageKey, connected: Port) returns (v: Value)
      modifies this
      requires Valid()
      ensures Valid() && outbox == old(outbox)
      ensures !HasId(tab) ==> v == TextValue("") && data == old(data) && stored == old(stored)
      ensures HasId(tab) ==>
        var id := tab.id.value;
        var e := Base(old(data), id, connected);
        && v == Field(e, key)
        && data == old(data)[id := e] && stored == old(stored)[id := e]
    {
      if !HasId(tab) {
        return TextValue("");
      }
      var id := tab.id.value;
      var entry: StorageData;
      if |data| == 0 || id !in data {
        entry := InitStorageVars(id, connected);
      } else {
        entry := stored[id];
      }
      // the record read back becomes the one held in memory
      data := data[id := entry];
      v := Field(data[id], key);
    }

    /**
     * setStorageVar: nothing for a tab without id; otherwise the tab's record,
     * created first when there is none, gets the new value under the key, in
     * memory and in storage.
     */
    method SetStorageVar(tab: Tab, setting: Setting, connected: Port)
      modifies this
      requires Valid()
      ensures Valid() && outbox == old(outbox)
      ensures !HasId(tab) ==> data == old(data) && stored == old(stored)
      ensures HasId(tab) ==>
        var id := tab.id.value;
        var e := Apply(Base(old(data), id, connected), setting);
        data == old(data)[id := e] && stored == old(stored)[id := e]
    {
      if !HasId(tab) {
        return;
      }
      var id := tab.id.value;
      if |data| == 0 || id !in data {
        var _ := InitStorageVars(id, connected);
      }
      data := data[id := Apply(data[id], setting)];
      stored := stored[id := data[id]];
    }

    /** handleTabActivate: a tab without a record gets a fresh one. */
    method HandleTabActivate(tabId: TabId, connected: Port)
      modifies this
      requires Valid()
      ensures Valid() && outbox == old(outbox)
      ensures tabId in old(data) ==> data == old(data) && stored == old(stored)
      ensures tabId !in old(data) ==> data == old(data)[tabId := Fresh(connected)] && stored == old(stored)[tabId := Fresh(connected)]
    {
      if tabId !in data {
        var _ := InitStorageVars(tabId, connected);
      }
    }

    /** handleTabCreate: a fresh record for a ready page, and no change otherwise. */
    method HandleTabCreate(tab: Tab, connected: Port)
      modifies this
      requires Valid()
      ensures Valid() && outbox == old(outbox)
      ensures !IsReadyPage(tab) ==> data == old(data) && stored == old(stored)
      ensures IsReadyPage(tab) ==>
        data == old(data)[tab.id.value := Fresh(connected)] && stored == old(stored)[tab.id.value := Fresh(connected)]
    {
      if IsReadyPage(tab) {
        var _ := InitStorageVars(tab.id.value, connected);
      }
    }

    /** handleTabRemove: the tab's record leaves memory; storage keeps it. */
    method HandleTabRemove(tabId: TabId)
      modifies this
      requires Valid()
      ensures Valid()
      ensures data == old(data) - {tabId} && stored == old(stored) && outbox == old(outbox)
    {
      if tabId in data {
        data := data - {tabId};
      }
    }

    /** handleTabUpdate: as handleTabCreate, and only once the change itself completed. */
    method HandleTabUpdate(tabId: TabId, changeStatus: Option<string>, tab: Tab, connected: Port)
      modifies this
      requires Valid()
      ensures Valid() && outbox == old(outbox)
      ensures !(IsReadyPage(tab) && changeStatus == Some("complete")) ==> data == old(data) && stored == old(stored)
      ensures IsReadyPage(tab) && changeStatus == Some("complete") ==>
        data == old(data)[tab.id.value := Fresh(connected)] && stored == old(stored)[tab.id.value := Fresh(connected)]
    {
      if IsReadyPage(tab) && changeStatus == Some("complete") {
        var _ := InitStorageVars(tab.id.value, connected);
      }
    }

    /** takeScreenshot: store the capture for the tab and send it to the tab's content script. */
    method TakeScreenshot(tab: Tab, capture: string, connected: Port)
      modifies this
      requires Valid()
      ensures Valid()
      ensures !HasId(tab) ==> data == old(data) && stored == old(stored) && outbox == old(outbox)
      ensures HasId(tab) ==>
        var id := tab.id.value;
        var e := Apply(Base(old(data), id, connected), ScreenshotSetting(capture));
        && data == old(data)[id := e] && stored == old(stored)[id := e]
        && outbox == old(outbox) + [Outgoing(id, Screenshot(capture, id))]
    {
      if !HasId(tab) {
        return;
      }
      SetStorageVar(tab, ScreenshotSetting(capture), connected);
      outbox := outbox + [Outgoing(tab.id.value, Screenshot(capture, tab.id.value))];
    }

    /**
     * openIdentifier: ask the tab to open the overlay; only a success answer
     * marks the tab opened and takes a screenshot.
     */
    method OpenIdentifier(tab: Tab, response: Option<Reply>, capture: string, connected: Port)
      modifies this
      requires Valid()
      ensures Valid()
      ensures !HasId(tab) ==> data == old(data) && stored == old(stored) && outbox == old(outbox)
      ensures HasId(tab) && !IsSuccess(response) ==>
        data == old(data) && stored == old(stored) && outbox == old(outbox) + [Outgoing(tab.id.value, OpenRequest)]
      ensures HasId(tab) && IsSuccess(response) ==>
        var id := tab.id.value;
        var e := Apply(Apply(Base(old(data), id, connected), IdentifierSetting(Opened)), ScreenshotSetting(capture));
        && data == old(data)[id := e] && stored == old(stored)[id := e]
        && outbox == old(outbox) + [Outgoing(id, OpenRequest), Outgoing(id, Screenshot(capture, id))]
    {
      if !HasId(tab) {
        return;
      }
      outbox := outbox + [Outgoing(tab.id.value, OpenRequest)];
      if IsSuccess(response) {
        SetStorageVar(tab, IdentifierSetting(Opened), connected);
        TakeScreenshot(tab, capture, connected);
      }
    }

    /** closeIdentifier: ask the tab to close the overlay; only a success answer marks the tab closed. */
    method CloseIdentifier(tab: Tab, response: Option<Reply>, connected: Port)
      modifies this
      requires Valid()
      ensures Valid()
      ensures !HasId(tab) ==> data == old(data) && stored == old(stored) && outbox == old(outbox)
      ensures HasId(tab) && !IsSuccess(response) ==>
        data == old(data) && stored == old(stored) && outbox == old(outbox) + [Outgoing(tab.id.value, CloseRequest)]
      ensures HasId(tab) && IsSuccess(response) ==>
        var id := tab.id.value;
        var e := Apply(Base(old(data), id, connected), IdentifierSetting(Closed));
        && data == old(data)[id := e] && stored == old(stored)[id := e]
        && outbox == old(outbox) + [Outgoing(id, CloseRequest)]
    {
      if !HasId(tab) {
        return;
      }
      outbox := outbox + [Outgoing(tab.id.value, CloseRequest)];
      if IsSuccess(response) {
        SetStorageVar(tab, IdentifierSetting(Closed), connected);
      }
    }

    /**
     * handleIconClick: for an active, loaded tab with an id, read the tab's
     * record (creating it when missing) and ask the tab to open a closed
     * overlay or close an open one. The record changes as ClickedEntry says
     * and no other tab's record changes.
     */
    method HandleIconClick(tab: Tab, response: Option<Reply>, capture: string, connected: Port)
      modifies this
      requires Valid()
      ensures Valid()
      ensures !(HasId(tab) && tab.active && tab.status == "complete") ==>
        data == old(data) && stored == old(stored) && outbox == old(outbox)
      ensures HasId(tab) && tab.active && tab.status == "complete" ==>
        var id := tab.id.value;
        var before := Base(old(data), id, connected);
        var after := ClickedEntry(before, IsSuccess(response), capture);
        && data == old(data)[id := after] && stored == old(stored)[id := after]
        && outbox == old(outbox) + ClickMessages(id, before.identifier, IsSuccess(response), capture)
    {
      if !(HasId(tab) && tab.active && tab.status == "complete") {
        return;
      }
      ghost var id := tab.id.value;
      ghost var before := Base(old(data), id, connected);
      var identifier := GetStorageVar(tab, IdentifierKey, connected);
      assert identifier == IdentifierValue(before.identifier);
      assert data == old(data)[id := before] && stored == old(stored)[id := before];
      var port := GetStorageVar(tab, PortKey, connected);
      assert Base(data, id, connected) == before;
      assert data == old(data)[id := before] && stored == old(stored)[id := before];
      if identifier == IdentifierValue(Closed) {
        OpenIdentifier(tab, response, capture, connected);
      } else if identifier == IdentifierValue(Opened) {
        CloseIdentifier(tab, response, connected);
      }
    }

    /**
     * handleMessage: the reply ReplyFor gives; a recapture event from a tab
     * also takes a screenshot of that tab. Nothing else changes.
     */
    method HandleMessage(event: Option<string>, sender: Option<Tab>, capture: string, connected: Port)
      returns (reply: Option<Reply>)
      modifies this
      requires Valid()
      ensures Valid()
      ensures reply == ReplyFor(event, sender)
      ensures !(sender.Some? && event != Some("getTabId") && IsRecaptureEvent(event) && HasId(sender.value)) ==>
        data == old(data) && stored == old(stored) && outbox == old(outbox)
      ensures sender.Some? && IsRecaptureEvent(event) && HasId(sender.value) ==>
        var id := sender.value.id.value;
        var e := Apply(Base(old(data), id, connected), ScreenshotSetting(capture));
        && data == old(data)[id := e] && stored == old(stored)[id := e]
        && outbox == old(outbox) + [Outgoing(id, Screenshot(capture, id))]
    {
      if sender.None? {
        return None;
      }
      if event == Some("getTabId") {
        reply := Some(Reply("success", sender.value.id));
      } else if IsRecaptureEvent(event) {
        TakeScreenshot(sender.value, capture, connected);
        reply := Some(Reply("success", None));
      } else {
        reply := Some(Reply("failure", None));
      }
    }
  }
}
