/**
 What a whole run of events leaves the chrome with, read off the events alone: privacy, port, network, address bar,
 strip, the page and the proxy of the active view.
 */
module Chrome {
  import opened Words
  import opened Wrappers
  import opened Text
  import opened Messages
  import opened TabPool
  import opened UiLoop

  // ---------------------------------------------------------------------------------------------------------------
  // Privacy
  // ---------------------------------------------------------------------------------------------------------------

  function LastPrivacy(evs: seq<UiEvent>): (r: Option<UiEvent>)
    ensures r.Some? ==> r.value.PrivacyUpdated?
  {
    if evs == [] then None
    else if evs[|evs| - 1].PrivacyUpdated? then Some(evs[|evs| - 1])
    else LastPrivacy(evs[..|evs| - 1])
  }

  /** The four settings are those last sent, each under its own name; the other two never change. */
  predicate PrivacyFits(p: PrivacyState, last: Option<UiEvent>)
    requires last.Some? ==> last.value.PrivacyUpdated?
  {
    && p.thirdPartyCookiesBlocked && p.dnt
    && match last
       case None =>
         && p.webrtcBlocked && !p.webglDisabled
         && p.securityLevel == "Standard" && p.sandboxLabel == "Job Object (when applied)"
       case Some(ev) =>
         && p.webrtcBlocked == ev.webrtcBlocked && p.webglDisabled == ev.webglDisabled
         && p.securityLevel == ev.level && p.sandboxLabel == ev.sandboxLabel
  }

  lemma PrivacyStep(ui: Ui, ev: UiEvent, built: bool, last: Option<UiEvent>)
    requires ui.pool.Some? && RepInv(ui.pool.value)
    requires last.Some? ==> last.value.PrivacyUpdated?
    requires PrivacyFits(ui.pool.value.privacy, last)
    ensures PrivacyFits(OnPool(ui, ev, built).privacy, if ev.PrivacyUpdated? then Some(ev) else last)
  {
    if KeepsViews(ev) {
      hide RepInv, OnPool;
      EventKeepsProxy(ui, ev, built);
    }
  }

  /**
   After any events, rebuilds for ports, networks and pages and failed builds among them, the pool and every cached view
   have the privacy last sent.
   */
  lemma {:induction false} PrivacyIsTheLastSent(evs: seq<UiEvent>, built: seq<bool>)
    requires |built| == |evs|
    ensures var ui := RunEvents(Start(true), evs, built);
      && ui.pool.Some?
      && PrivacyFits(ui.pool.value.privacy, LastPrivacy(evs))
      && forall id :: id in ui.pool.value.slots ==> PrivacyFits(ui.pool.value.slots[id].privacy, LastPrivacy(evs))
  {
    hide RepInv, PrivacyFits, OnPool;
    RunKeepsRepInv(true, evs, built);
    ViewsShare(RunEvents(Start(true), evs, built).pool.value);
    if evs == [] {
      StartFits();
    } else {
      var n := |evs| - 1;
      PrivacyIsTheLastSent(evs[..n], built[..n]);
      RunKeepsRepInv(true, evs[..n], built[..n]);
      PrivacyStep(RunEvents(Start(true), evs[..n], built[..n]), evs[n], built[n], LastPrivacy(evs[..n]));
    }
  }

  lemma StartFits()
    ensures PrivacyFits(Start(true).pool.value.privacy, None)
  {
  }

  lemma ViewsShare(p: Pool)
    requires RepInv(p)
    ensures forall id :: id in p.slots ==> p.slots[id].privacy == p.privacy
  {
  }

  // ---------------------------------------------------------------------------------------------------------------
  // The variables of the loop
  // ---------------------------------------------------------------------------------------------------------------

  function LastPort(evs: seq<UiEvent>): Option<u16> {
    if evs == [] then None
    else if evs[|evs| - 1].SocksReady? then Some(evs[|evs| - 1].port)
    else LastPort(evs[..|evs| - 1])
  }

  function LastProtocol(evs: seq<UiEvent>): Option<Protocol> {
    if evs == [] then None
    else if evs[|evs| - 1].NetworkStatusChanged? then Some(evs[|evs| - 1].protocol)
    else LastProtocol(evs[..|evs| - 1])
  }

  function LastTabs(evs: seq<UiEvent>): seq<TabInfo> {
    if evs == [] then []
    else if evs[|evs| - 1].TabsChanged? then evs[|evs| - 1].tabs
    else LastTabs(evs[..|evs| - 1])
  }

  /** The entry of the strip is the active one, and the first that is. */
  predicate IsActiveAt(strip: seq<TabInfo>, i: nat) {
    i < |strip| && strip[i].active && forall j :: 0 <= j < i ==> !strip[j].active
  }

  /** The event puts this address into the address bar. */
  ghost predicate Shows(ev: UiEvent, url: string) {
    || ev == SetUrlBar(url)
    || ev == LoadUrl(url)
    || (ev.TabsChanged? && exists i: nat :: IsActiveAt(ev.tabs, i) && ev.tabs[i].url == url)
  }

  ghost predicate ShowsSome(ev: UiEvent) {
    exists url :: Shows(ev, url)
  }

  /** What the address bar has been set to last. */
  ghost predicate BarIs(evs: seq<UiEvent>, url: string) {
    if evs == [] then url == "sentinel://home"
    else Shows(evs[|evs| - 1], url) || (!ShowsSome(evs[|evs| - 1]) && BarIs(evs[..|evs| - 1], url))
  }

  /** The tab that the last strip with an active entry marked. */
  ghost predicate ActiveIs(evs: seq<UiEvent>, id: u32) {
    if evs == [] then id == 0
    else
      var ev := evs[|evs| - 1];
      if ev.TabsChanged? && exists i: nat :: IsActiveAt(ev.tabs, i) then
        exists i: nat :: IsActiveAt(ev.tabs, i) && ev.tabs[i].id == id
      else ActiveIs(evs[..|evs| - 1], id)
  }

  lemma {:induction false} ActiveEntryAt(strip: seq<TabInfo>) returns (i: nat)
    ensures ActiveEntry(strip).Some? ==> IsActiveAt(strip, i) && strip[i] == ActiveEntry(strip).value
    ensures ActiveEntry(strip).None? ==> forall j: nat :: !IsActiveAt(strip, j)
  {
    if strip == [] || strip[0].active {
      i := 0;
    } else {
      i := ActiveEntryAt(strip[1..]);
      i := i + 1;
      assert forall j :: 0 < j < |strip| ==> strip[j] == strip[1..][j - 1];
      if ActiveEntry(strip).None? {
        forall j: nat ensures !IsActiveAt(strip, j) {
          if 0 < j < |strip| {
            assert strip[1..][j - 1] in strip[1..];
          }
        }
      }
    }
  }

  lemma StepVariables(ui: Ui, ev: UiEvent, built: bool)
    ensures var after := OnEvent(ui, ev, built);
      && after.socks == (if ev.SocksReady? then Some(ev.port) else ui.socks)
      && after.tabs == (if ev.TabsChanged? then ev.tabs else ui.tabs)
      && (!ev.NetworkStatusChanged? ==> after.network == ui.network)
      && (if ShowsSome(ev) then Shows(ev, after.urlBar) else after.urlBar == ui.urlBar)
  {
    hide OnPool, ActiveEntry;
    if ev.TabsChanged? {
      var i := ActiveEntryAt(ev.tabs);
      assert ActiveEntry(ev.tabs).Some? ==> Shows(ev, ev.tabs[i].url);
    }
    assert ev.SetUrlBar? ==> Shows(ev, ev.bar);
    assert ev.LoadUrl? ==> Shows(ev, ev.url);
  }

  lemma StepActive(ui: Ui, ev: UiEvent, built: bool)
    ensures var after := OnEvent(ui, ev, built);
      if ev.TabsChanged? && exists i: nat :: IsActiveAt(ev.tabs, i) then
        exists i: nat :: IsActiveAt(ev.tabs, i) && ev.tabs[i].id == after.activeTabId
      else after.activeTabId == ui.activeTabId
  {
    hide OnPool, ActiveEntry;
    if ev.TabsChanged? {
      var i := ActiveEntryAt(ev.tabs);
    }
  }

  /** Port, strip, address bar and active tab are what the events last said. */
  lemma {:induction false} VariablesAreTheLastSent(created: bool, evs: seq<UiEvent>, built: seq<bool>)
    requires |built| == |evs|
    ensures var ui := RunEvents(Start(created), evs, built);
      && ui.socks == LastPort(evs)
      && ui.tabs == LastTabs(evs)
      && BarIs(evs, ui.urlBar)
      && ActiveIs(evs, ui.activeTabId)
  {
    if evs != [] {
      var n := |evs| - 1;
      VariablesAreTheLastSent(created, evs[..n], built[..n]);
      hide OnEvent, Shows, ShowsSome, IsActiveAt;
      StepVariables(RunEvents(Start(created), evs[..n], built[..n]), evs[n], built[n]);
      StepActive(RunEvents(Start(created), evs[..n], built[..n]), evs[n], built[n]);
    }
  }

  /** Pages go through the proxy under Tor, which is also what the chrome starts with, and under V2Ray. */
  predicate Proxied(protocol: Option<Protocol>) {
    protocol.None? || protocol.value.Tor? || protocol.value.V2Ray?
  }

  lemma {:induction false} NetworkIsTheLastSent(created: bool, evs: seq<UiEvent>, built: seq<bool>)
    requires |built| == |evs|
    ensures var shown := RunEvents(Start(created), evs, built).network;
      && (shown == "Tor" <==> LastProtocol(evs).None? || LastProtocol(evs).value.Tor?)
      && (shown == "V2Ray" <==> LastProtocol(evs).Some? && LastProtocol(evs).value.V2Ray?)
      && (shown == "Direct" <==> LastProtocol(evs) == Some(Clearweb))
      && (shown == "I2P" <==> LastProtocol(evs) == Some(I2P))
      && (shown == "WG" <==> LastProtocol(evs).Some? && LastProtocol(evs).value.WireGuard?)
  {
    Labels();
    if evs != [] {
      var n := |evs| - 1;
      NetworkIsTheLastSent(created, evs[..n], built[..n]);
      StepVariables(RunEvents(Start(created), evs[..n], built[..n]), evs[n], built[n]);
      hide OnPool;
    }
  }

  lemma Labels()
    ensures "Tor"[0] == 'T' && "V2Ray"[0] == 'V' && "Direct"[0] == 'D' && "I2P"[0] == 'I' && "WG"[0] == 'W'
  {
  }

  // ---------------------------------------------------------------------------------------------------------------
  // The active view
  // ---------------------------------------------------------------------------------------------------------------

  /**
   With every view built, a page sent is on the active view, and goes through the port last announced exactly if it is
   an onion or the network is Tor or V2Ray.
   */
  lemma PageGoesThrough(evs: seq<UiEvent>, built: seq<bool>, url: string)
    requires |built| == |evs| && forall i :: 0 <= i < |built| ==> built[i]
    ensures var ui := RunEvents(Start(true), evs + [LoadUrl(url)], built + [true]);
      && ui.pool.Some? && HasActiveView(ui.pool.value)
      && ActiveIs(evs, ui.pool.value.active.value)
      && ui.pool.value.slots[ui.pool.value.active.value].lastUrl == url
      && ui.pool.value.slots[ui.pool.value.active.value].socksPort
         == if Contains(url, ".onion") || Proxied(LastProtocol(evs)) then LastPort(evs) else None
  {
    assert (evs + [LoadUrl(url)])[..|evs|] == evs && (built + [true])[..|built|] == built;
    ProxyAgreesAfterLoad(evs, built, url);
    VariablesAreTheLastSent(true, evs, built);
    NetworkIsTheLastSent(true, evs, built);
    hide OnPool, ActiveIs, Contains;
  }

  /**
   A page sent goes to the view that is there, every view staying, if the pool has the proxy the page wants; otherwise
   all views go, and one on the chrome's active tab comes if it can be built.
   */
  lemma LoadKeepsViews(ui: Ui, url: string, built: bool)
    requires ui.pool.Some?
    ensures var p, q := ui.pool.value, OnEvent(ui, LoadUrl(url), built).pool.value;
      var want := if Contains(url, ".onion") || ui.network == "Tor" || ui.network == "V2Ray" then ui.socks else None;
      if p.socksPort == want then
        && q.slots.Keys == p.slots.Keys && q.lru == p.lru && q.active == p.active && q.socksPort == want
        && (forall id :: id in p.slots ==>
              q.slots[id] == if p.active == Some(id) then p.slots[id].(lastUrl := url) else p.slots[id])
      else
        && q.slots.Keys == (if built then {ui.activeTabId} else {}) && q.socksPort == want
        && (built ==> q.active == Some(ui.activeTabId) && q.slots[ui.activeTabId].lastUrl == url
                      && q.slots[ui.activeTabId].socksPort == want)
  {
    hide Contains;
  }

  /** Rebuilding for privacy, a port or a network brings the page back that was shown, on the chrome's active tab. */
  lemma RebuildsKeepThePage(ui: Ui, ev: UiEvent)
    requires ui.pool.Some? && (ev.PrivacyUpdated? || ev.SocksReady? || ev.NetworkStatusChanged?)
    ensures var p := OnEvent(ui, ev, true).pool.value;
      && p.active == Some(ui.activeTabId) && p.slots.Keys == {ui.activeTabId}
      && p.slots[ui.activeTabId].visible
      && (HasActiveView(ui.pool.value) ==>
            p.slots[ui.activeTabId].lastUrl == ui.pool.value.slots[ui.pool.value.active.value].lastUrl)
  {
  }

  /** With no view left, after a failed rebuild, the page brought back is a blank one. */
  lemma NothingBringsBlank(ui: Ui, ev: UiEvent)
    requires ui.pool.Some? && ui.pool.value.slots == map[]
    requires ev.PrivacyUpdated? || ev.SocksReady? || ev.NetworkStatusChanged?
    ensures var p := OnEvent(ui, ev, true).pool.value;
      p.slots.Keys == {ui.activeTabId} && p.slots[ui.activeTabId].lastUrl == "about:blank"
  {
  }

  /**
   A strip brings up its active tab's view, shown and alone so, and its address: exactly if the view is built for it,
   has it already, or was not the one in front once the views of closed tabs are gone and the address is one of the web.
   */
  lemma StripBringsUp(ui: Ui, strip: seq<TabInfo>, i: nat)
    requires ui.pool.Some? && RepInv(ui.pool.value) && IsActiveAt(strip, i)
    ensures var t, p, q := strip[i], CloseTabs(ui.pool.value, ui.pool.value.slots.Keys - Ids(strip)),
                           OnEvent(ui, TabsChanged(strip), true).pool.value;
      && q.active == Some(t.id) && t.id in q.slots && q.slots[t.id].visible
      && (forall id :: id in q.slots ==> id in Ids(strip) && (q.slots[id].visible <==> id == t.id))
      && (q.slots[t.id].lastUrl == t.url
          <==> t.id !in p.slots || p.slots[t.id].lastUrl == t.url || (p.active != Some(t.id) && IsWebUrl(t.url)))
  {
    var j := ActiveEntryAt(strip);
    assert i == j && strip[i] in strip;
    hide CloseTabs, IsWebUrl, Follow, RepInv, ActiveEntry;
    FollowBringsUp(ui.pool.value, Ids(strip), strip[i].id, strip[i].url);
  }

  lemma FollowBringsUp(pool: Pool, live: set<u32>, t: u32, url: string)
    requires RepInv(pool) && t in live
    ensures var p, q := CloseTabs(pool, pool.slots.Keys - live), Follow(pool, live, t, url, true);
      && q.active == Some(t) && t in q.slots && q.slots[t].visible
      && (forall id :: id in q.slots ==> id in live && (q.slots[id].visible <==> id == t))
      && (q.slots[t].lastUrl == url
          <==> t !in p.slots || p.slots[t].lastUrl == url || (p.active != Some(t) && IsWebUrl(url)))
  {
    hide CloseTabs, SwitchTo, IsWebUrl, RepInv;
    var p := CloseTabs(pool, pool.slots.Keys - live);
    CloseKeepsRepInv(pool, pool.slots.Keys - live);
    SwitchKeepsRepInv(p, t, url, true);
    SwitchShowsIff(p, t, url, true);
    OneVisible(SwitchTo(p, t, url, true), t);
  }

  lemma OneVisible(p: Pool, t: u32)
    requires RepInv(p) && p.active == Some(t) && t in p.slots && p.slots[t].visible
    ensures forall id :: id in p.slots ==> (p.slots[id].visible <==> id == t)
  {
  }

  /** Before any event there is one view: blank, shown, and with no proxy. */
  lemma StartsBlank()
    ensures Start(false).pool == None
    ensures var p := Start(true).pool;
      && p.Some? && p.value.slots.Keys == {0} && p.value.active == Some(0) && p.value.lru == [0]
      && p.value.socksPort == None
      && p.value.slots[0] == View(None, p.value.privacy, "about:blank", true)
  {
  }

  /** A page the core renders is remembered under what the address bar says; no other view is touched. */
  lemma HtmlTakesTheBar(ui: Ui, page: Page, built: bool, id: u32)
    requires ui.pool.Some? && id in ui.pool.value.slots
    ensures var p, q := ui.pool.value, OnEvent(ui, LoadHtml(page), built).pool.value;
      && q.slots.Keys == p.slots.Keys && q.active == p.active && q.lru == p.lru
      && q.slots[id] == if p.active == Some(id) then p.slots[id].(lastUrl := ui.urlBar) else p.slots[id]
  {
  }

  /** Switching changes of the other views nothing but whether they are visible: afterwards none is. */
  lemma SwitchLeavesOthers(p: Pool, tab: u32, url: string, built: bool, id: u32)
    requires RepInv(p) && id != tab && id in SwitchTo(p, tab, url, built).slots
    ensures id in p.slots && SwitchTo(p, tab, url, built).slots[id] == p.slots[id].(visible := false)
  {
    SwitchKeepsRepInv(p, tab, url, built);
    if tab !in p.slots && built {
      BuiltLeavesOthers(p, tab, url, id);
    }
  }

  lemma BuiltLeavesOthers(p: Pool, tab: u32, url: string, id: u32)
    requires RepInv(p) && tab !in p.slots && id != tab && id in SwitchTo(p, tab, url, true).slots
    ensures id in p.slots && SwitchTo(p, tab, url, true).slots[id] == p.slots[id].(visible := false)
  {
    BuildEvictsOldest(p, tab, url);
    hide SwitchTo;
  }

  /** Closing changes of the views left nothing, except that the one taking over is shown. */
  lemma CloseLeavesOthers(p: Pool, gone: set<u32>, id: u32)
    requires RepInv(p) && id in p.slots && id !in gone
    ensures var q := CloseTabs(p, gone);
      && id in q.slots
      && q.slots[id] == p.slots[id].(visible := q.slots[id].visible)
      && (q.slots[id].visible <==>
            p.slots[id].visible || (p.active.Some? && p.active.value in gone && q.active == Some(id)))
  {
    CloseKeepsRepInv(p, gone);
  }
}
