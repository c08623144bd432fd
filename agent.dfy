/**
 * The content script's own state (content.ts): the element ids of the
 * overlay, the screenshot and tab id the background sends, the port to the
 * extension, the overlay in the page, and the reaction to messages.
 *
 * The page is reduced to the number of overlay elements it holds; a timer
 * set with setTimeout is recorded in `scheduled` rather than run. The
 * result of chrome.runtime.connect is a parameter.
 */
module Agent {
  import opened Wrappers
  import opened Text
  import opened Types
  import Utilities

  // ---------------------------------------------------------------------------
  // Element ids

  /** The keys of the id table, in declaration order. */
  const StyleClassNames: seq<string> := [
    "main", "origin", "originHex", "originRgba", "originRgbaR", "originRgbaG", "originRgbaB",
    "originRgbaA", "originHcl", "originHclH", "originHclC", "originHclL", "originHsl",
    "originHslH", "originHslS", "originHslL", "originHsv", "originHsvH", "originHsvS",
    "originHsvV", "name", "nameHex", "nameNames", "nameExact", "seasons", "seasonsHex",
    "seasonsGood", "seasonsBad", "seasonsExact"
  ]

  /** The element id for a key: "cnsi" for the main element, "cnsi-" and the kebab-case key otherwise. */
  function IdFor(key: string): string {
    if key == "main" then "cnsi" else "cnsi-" + Utilities.Kebabize(key)
  }

  /**
   * Only the main element is "cnsi"; every other id is "cnsi-" and a
   * lower-case name which, without its dashes, is the key lower-cased.
   */
  lemma IdForShape(key: string)
    requires '-' !in key
    ensures IdFor(key) == "cnsi" <==> key == "main"
    ensures key != "main" ==>
      && StartsWith(IdFor(key), "cnsi-")
      && NoUpper(IdFor(key)[5..])
      && Utilities.WithoutDashes(IdFor(key)[5..]) == Lower(key)
  {
    if key != "main" {
      var k := Utilities.Kebabize(key);
      assert IdFor(key)[5..] == k;
      Utilities.KebabizeOnlyAddsDashes(key);
      Utilities.WithoutDashesNoop(key);
    }
  }

  /** The id table after `id[key] = IdFor(key)` for each key in order. */
  function WithIds(m: map<string, string>, keys: seq<string>): map<string, string>
    decreases |keys|
  {
    if keys == [] then m
    else WithIds(m, keys[..|keys| - 1])[keys[|keys| - 1] := IdFor(keys[|keys| - 1])]
  }

  /** Every listed key gets its id; every other entry is kept as it was. */
  lemma {:induction false} WithIdsAt(m: map<string, string>, keys: seq<string>)
    ensures forall k :: k in keys ==> k in WithIds(m, keys) && WithIds(m, keys)[k] == IdFor(k)
    ensures forall k :: k !in keys ==> (k in WithIds(m, keys) <==> k in m)
    ensures forall k :: k !in keys && k in m ==> WithIds(m, keys)[k] == m[k]
    decreases |keys|
  {
    if keys != [] {
      var init := keys[..|keys| - 1];
      WithIdsAt(m, init);
      assert keys == init + [keys[|keys| - 1]];
    }
  }

  /** Running createIds again changes nothing. */
  lemma WithIdsIdempotent(m: map<string, string>, keys: seq<string>)
    ensures WithIds(WithIds(m, keys), keys) == WithIds(m, keys)
  {
    WithIdsAt(m, keys);
    WithIdsAt(WithIds(m, keys), keys);
  }

  // ---------------------------------------------------------------------------
  // Messages from the background

  /** A message from the background: a screenshot with its tab id, or an identifier request. */
  datatype Request = Request(screenshot: Option<string>, tabId: Option<int>, identifier: Option<string>)

  datatype Action =
    | ShowScreenshot(url: string, tabId: Option<int>)
    | OpenOverlay
    | CloseOverlay
    | Acknowledge
    | Ignore

  /**
   * What handleMessages does with a request: a screenshot wins over an
   * identifier request; "open" and "close" act on the overlay, any other
   * identifier is only acknowledged; a request with neither gets no answer.
   */
  function ActionFor(req: Request): (a: Action)
    ensures a == Ignore <==> req.screenshot.None? && req.identifier.None?
    ensures req.screenshot.Some? ==> a == ShowScreenshot(req.screenshot.value, req.tabId)
    ensures a == OpenOverlay <==> req.screenshot.None? && req.identifier == Some("open")
    ensures a == CloseOverlay <==> req.screenshot.None? && req.identifier == Some("close")
  {
    if req.screenshot.Some? then ShowScreenshot(req.screenshot.value, req.tabId)
    else if req.identifier.Some? then
      if req.identifier.value == "open" then OpenOverlay
      else if req.identifier.value == "close" then CloseOverlay
      else Acknowledge
    else Ignore
  }

  // ---------------------------------------------------------------------------
  // The agent

  datatype Deferred = Connect | AskTabId

  /** A setTimeout call: what runs, after how many milliseconds. */
  datatype Timer = Timer(delayMs: nat, action: Deferred)

  class ContentAgent {
    /** CnsiContent.id */
    var id: map<string, string>
    var screenshotUrl: string
    var tabId: Option<int>
    var port: Option<Port>
    /** How many overlay elements the page holds. */
    var overlays: nat
    /** Whether the message and page listeners are installed. */
    var listening: bool
    var scheduled: seq<Timer>

    /** The page never holds more than one overlay. */
    ghost predicate Valid()
      reads this
    {
      overlays <= 1
    }

    constructor()
      ensures Valid()
      ensures id == map[] && screenshotUrl == "" && tabId.None? && port.None?
      ensures overlays == 0 && !listening && scheduled == []
    {
      id := map[];
      screenshotUrl := "";
      tabId := None;
      port := None;
      overlays := 0;
      listening := false;
      scheduled := [];
    }

    /** createIds: every key of the table gets its element id, in order. */
    method CreateIds()
      modifies this
      ensures id == WithIds(old(id), StyleClassNames)
      ensures forall k :: k in StyleClassNames ==> k in id && id[k] == IdFor(k)
      ensures screenshotUrl == old(screenshotUrl) && tabId == old(tabId) && port == old(port)
      ensures overlays == old(overlays) && listening == old(listening) && scheduled == old(scheduled)
    {
      AssignIds(StyleClassNames);
    }

    /** The forEach of createIds over the given keys. */
    method AssignIds(keys: seq<string>)
      modifies this
      ensures id == WithIds(old(id), keys)
      ensures forall k :: k in keys ==> k in id && id[k] == IdFor(k)
      ensures screenshotUrl == old(screenshotUrl) && tabId == old(tabId) && port == old(port)
      ensures overlays == old(overlays) && listening == old(listening) && scheduled == old(scheduled)
    {
      for i := 0 to |keys|
        invariant id == WithIds(old(id), keys[..i])
        invariant screenshotUrl == old(screenshotUrl) && tabId == old(tabId) && port == old(port)
        invariant overlays == old(overlays) && listening == old(listening) && scheduled == old(scheduled)
      {
        assert keys[..i + 1][..i] == keys[..i];
        var key := keys[i];
        id := id[key := IdFor(key)];
      }
      assert keys[..|keys|] == keys;
      WithIdsAt(old(id), keys);
    }

    /** openIdentifier: add the overlay unless the page already has one. */
    method OpenIdentifier()
      modifies this
      requires Valid()
      ensures Valid() && overlays == 1
      ensures id == old(id) && screenshotUrl == old(screenshotUrl) && tabId == old(tabId) && port == old(port)
      ensures listening == old(listening) && scheduled == old(scheduled)
    {
      if overlays == 0 {
        overlays := 1;
      }
    }

    /** closeIdentifier: remove the overlay when there is one. */
    method CloseIdentifier()
      modifies this
      requires Valid()
      ensures Valid() && overlays == 0
      ensures id == old(id) && screenshotUrl == old(screenshotUrl) && tabId == old(tabId) && port == old(port)
      ensures listening == old(listening) && scheduled == old(scheduled)
    {
      if overlays > 0 {
        overlays := overlays - 1;
      }
    }

    /**
     * handleMessages: act as ActionFor says and answer success to every
     * request but one with neither field. A screenshot also replaces the tab
     * id with the one it came with.
     */
    method HandleMessages(req: Request) returns (answered: bool)
      modifies this
      requires Valid()
      ensures Valid()
      ensures answered <==> ActionFor(req) != Ignore
      ensures ActionFor(req).ShowScreenshot? ==>
        screenshotUrl == req.screenshot.value && tabId == req.tabId && overlays == old(overlays)
      ensures ActionFor(req) == OpenOverlay ==> overlays == 1
      ensures ActionFor(req) == CloseOverlay ==> overlays == 0
      ensures !ActionFor(req).ShowScreenshot? ==> screenshotUrl == old(screenshotUrl) && tabId == old(tabId)
      ensures ActionFor(req) == Acknowledge || ActionFor(req) == Ignore ==> overlays == old(overlays)
      ensures id == old(id) && port == old(port) && listening == old(listening) && scheduled == old(scheduled)
    {
      answered := false;
      if req.screenshot.Some? {
        screenshotUrl := req.screenshot.value;
        tabId := req.tabId;
        answered := true;
      } else if req.identifier.Some? {
        if req.identifier.value == "open" {
          OpenIdentifier();
        } else if req.identifier.value == "close" {
          CloseIdentifier();
        }
        answered := true;
      }
    }

    /**
     * connectToExtension: keep the port connect returned; when there is one,
     * install the listeners and create the element ids.
     */
    method ConnectToExtension(connected: Option<Port>)
      modifies this
      requires Valid()
      ensures Valid()
      ensures port == connected
      ensures connected.Some? ==> listening && id == WithIds(old(id), StyleClassNames)
      ensures connected.None? ==> listening == old(listening) && id == old(id)
      ensures screenshotUrl == old(screenshotUrl) && tabId == old(tabId)
      ensures overlays == old(overlays) && scheduled == old(scheduled)
    {
      port := connected;
      if port.Some? {
        listening := true;
        CreateIds();
      }
    }

    /**
     * reconnectToExtension: only with a port: drop it and schedule one
     * connection attempt a second later.
     */
    method ReconnectToExtension()
      modifies this
      ensures old(port).Some? ==> port.None? && scheduled == old(scheduled) + [Timer(1000, Connect)]
      ensures old(port).None? ==> port == old(port) && scheduled == old(scheduled)
      ensures id == old(id) && screenshotUrl == old(screenshotUrl) && tabId == old(tabId)
      ensures overlays == old(overlays) && listening == old(listening)
    {
      if port.Some? {
        port := None;
        scheduled := scheduled + [Timer(1000, Connect)];
      }
    }
  }
}
