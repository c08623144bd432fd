/**
 * The JavaScript content script's own state (content.js) where it differs
 * from content.ts: the id table starts with the main id and derives every
 * other id from it, the tab id is asked for until an answer comes, a close
 * request also removes the listeners, and a reconnect happens whether or not
 * a port was held.
 */
module LegacyAgent {
  import opened Wrappers
  import opened Types
  import Utilities
  import Agent

  /** The keys createIds walks: every key but "main", which is preset, and "style" first. */
  const Ids: seq<string> := [
    "style", "origin", "originHex", "originRgba", "originRgbaR", "originRgbaG", "originRgbaB",
    "originRgbaA", "originHcl", "originHclH", "originHclC", "originHclL", "originHsl",
    "originHslH", "originHslS", "originHslL", "originHsv", "originHsvH", "originHsvS",
    "originHsvV", "name", "nameHex", "nameNames", "nameExact", "seasons", "seasonsHex",
    "seasonsGood", "seasonsBad", "seasonsExact"
  ]

  /** The main id is preset, not derived. */
  lemma MainNotListed()
    ensures "main" !in Ids
  {
    forall i | 0 <= i < |Ids| ensures Ids[i] != "main" {
      assert |Ids[i]| != 4 || Ids[i][0] != 'm';
    }
  }

  /** The answer to a getTabId message. */
  datatype Reply = Reply(status: string, tabId: Option<int>)

  class LegacyContentAgent {
    var id: map<string, string>
    var screenshotUrl: Option<string>
    var tabId: Option<int>
    var port: Option<Port>
    var overlays: nat
    var listening: bool
    var scheduled: seq<Agent.Timer>

    /** At most one overlay, and the main id stays "cnsi". */
    ghost predicate Valid()
      reads this
    {
      overlays <= 1 && "main" in id && id["main"] == "cnsi"
    }

    constructor()
      ensures Valid()
      ensures id == map["main" := "cnsi"] && screenshotUrl.None? && tabId.None? && port.None?
      ensures overlays == 0 && !listening && scheduled == []
    {
      id := map["main" := "cnsi"];
      screenshotUrl := None;
      tabId := None;
      port := None;
      overlays := 0;
      listening := false;
      scheduled := [];
    }

    /**
     * createIds: `id[key] = id.main + "-" + kebabize(key)` for each key; as
     * the main id is "cnsi" and "main" is not among the keys, each key gets
     * the same id as in content.ts.
     */
    method CreateIds()
      modifies this
      requires Valid()
      ensures Valid()
      ensures id == Agent.WithIds(old(id), Ids)
      ensures forall k :: k in Ids ==> k in id && id[k] == "cnsi-" + Utilities.Kebabize(k)
      ensures screenshotUrl == old(screenshotUrl) && tabId == old(tabId) && port == old(port)
      ensures overlays == old(overlays) && listening == old(listening) && scheduled == old(scheduled)
    {
      MainNotListed();
      AssignIds(Ids);
    }

    /** The forEach of createIds over keys that do not include "main". */
    method AssignIds(keys: seq<string>)
      modifies this
      requires Valid() && "main" !in keys
      ensures Valid()
      ensures id == Agent.WithIds(old(id), keys)
      ensures forall k :: k in keys ==> k in id && id[k] == "cnsi-" + Utilities.Kebabize(k)
      ensures screenshotUrl == old(screenshotUrl) && tabId == old(tabId) && port == old(port)
      ensures overlays == old(overlays) && listening == old(listening) && scheduled == old(scheduled)
    {
      for i := 0 to |keys|
        invariant id == Agent.WithIds(old(id), keys[..i])
        invariant "main" in id && id["main"] == "cnsi"
        invariant screenshotUrl == old(screenshotUrl) && tabId == old(tabId) && port == old(port)
        invariant overlays == old(overlays) && listening == old(listening) && scheduled == old(scheduled)
      {
        assert keys[..i + 1][..i] == keys[..i];
        var key := keys[i];
        assert key != "main" by {
          assert key in keys;
        }
        assert id["main"] + "-" + Utilities.Kebabize(key) == Agent.IdFor(key) by {
          assert "cnsi" + "-" == "cnsi-";
        }
        id := id[key := id["main"] + "-" + Utilities.Kebabize(key)];
      }
      assert keys[..|keys|] == keys;
      Agent.WithIdsAt(old(id), keys);
    }

    /**
     * The getTabId callback: no answer schedules another request a second
     * later; a success answer stores the tab id; any other answer is dropped.
     */
    method OnTabIdReply(response: Option<Reply>)
      modifies this
      requires Valid()
      ensures Valid()
      ensures response.None? ==> scheduled == old(scheduled) + [Agent.Timer(1000, Agent.AskTabId)] && tabId == old(tabId)
      ensures response.Some? && response.value.status == "success" ==>
        tabId == response.value.tabId && scheduled == old(scheduled)
      ensures response.Some? && response.value.status != "success" ==>
        tabId == old(tabId) && scheduled == old(scheduled)
      ensures id == old(id) && screenshotUrl == old(screenshotUrl) && port == old(port)
      ensures overlays == old(overlays) && listening == old(listening)
    {
      if response.None? {
        scheduled := scheduled + [Agent.Timer(1000, Agent.AskTabId)];
      } else if response.value.status == "success" {
        tabId := response.value.tabId;
      }
    }

    method OpenIdentifier()
      modifies this
      requires Valid()
      ensures Valid() && overlays == 1
      ensures id == old(id) && screenshotUrl == old(screenshotUrl) && tabId == old(tabId) && port == old(port)
      ensures listening == old(listening) && scheduled == old(scheduled)
    {
      if overlays == 0 {
        overlays := 1;
      }
    }

    method CloseIdentifier()
      modifies this
      requires Valid()
      ensures Valid() && overlays == 0
      ensures id == old(id) && screenshotUrl == old(screenshotUrl) && tabId == old(tabId) && port == old(port)
      ensures listening == old(listening) && scheduled == old(scheduled)
    {
      if overlays > 0 {
        overlays := overlays - 1;
      }
    }

    /**
     * handleMessages: as in content.ts, except that a close request first
     * removes the listeners (shutdown), so no later message is heard.
     */
    method HandleMessages(req: Agent.Request) returns (answered: bool)
      modifies this
      requires Valid()
      ensures Valid()
      ensures answered <==> Agent.ActionFor(req) != Agent.Ignore
      ensures Agent.ActionFor(req).ShowScreenshot? ==>
        screenshotUrl == req.screenshot && tabId == req.tabId && overlays == old(overlays)
      ensures Agent.ActionFor(req) == Agent.OpenOverlay ==> overlays == 1 && listening == old(listening)
      ensures Agent.ActionFor(req) == Agent.CloseOverlay ==> overlays == 0 && !listening
      ensures Agent.ActionFor(req) != Agent.CloseOverlay ==> listening == old(listening)
      ensures !Agent.ActionFor(req).ShowScreenshot? ==> screenshotUrl == old(screenshotUrl) && tabId == old(tabId)
      ensures Agent.ActionFor(req) == Agent.Acknowledge || Agent.ActionFor(req) == Agent.Ignore ==> overlays == old(overlays)
      ensures id == old(id) && port == old(port) && scheduled == old(scheduled)
    {
      answered := false;
      if req.screenshot.Some? {
        screenshotUrl := req.screenshot;
        tabId := req.tabId;
        answered := true;
      } else if req.identifier.Some? {
        if req.identifier.value == "open" {
          OpenIdentifier();
        } else if req.identifier.value == "close" {
          listening := false;
          CloseIdentifier();
        }
        answered := true;
      }
    }

    /** connectToExtension: keep the port; with one, install the listeners and create the ids. */
    method ConnectToExtension(connected: Option<Port>)
      modifies this
      requires Valid()
      ensures Valid()
      ensures port == connected
      ensures connected.Some? ==> listening && id == Agent.WithIds(old(id), Ids)
      ensures connected.None? ==> listening == old(listening) && id == old(id)
      ensures screenshotUrl == old(screenshotUrl) && tabId == old(tabId)
      ensures overlays == old(overlays) && scheduled == old(scheduled)
    {
      port := connected;
      if port.Some? {
        listening := true;
        CreateIds();
      }
    }

    /** reconnectToExtension: drop the port and schedule a connection a second later, unconditionally. */
    method ReconnectToExtension()
      modifies this
      ensures port.None? && scheduled == old(scheduled) + [Agent.Timer(1000, Agent.Connect)]
      ensures id == old(id) && screenshotUrl == old(screenshotUrl) && tabId == old(tabId)
      ensures overlays == old(overlays) && listening == old(listening)
    {
      port := None;
      scheduled := scheduled + [Agent.Timer(1000, Agent.Connect)];
    }
  }
}
