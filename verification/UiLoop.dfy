/**
 The chrome's event loop: what each event from the core does to the tab strip, the address bar, the network label
 and the pool of views. `built` says whether the view this event may have to build can be built.
 */
module UiLoop {
  import opened Words
  import opened Wrappers
  import opened Lists
  import opened Text
  import opened Messages
  import opened TabPool

  datatype Ui = Ui(
    pool: Option<Pool>, tabs: seq<TabInfo>, activeTabId: u32, urlBar: string, network: string, socks: Option<u16>)

  const DEFAULT_PRIVACY := PrivacyState(true, false, true, true, "Standard", "Job Object (when applied)")

  const FIRST_VIEW := View(None, DEFAULT_PRIVACY, "about:blank", true)

  /** The chrome at start-up; there is no pool when the content engine could not be created. */
  function Start(created: bool): Ui {
    Ui(if created then Some(NewPool(FIRST_VIEW, 0)) else None, [], 0, "sentinel://home", "Tor", None)
  }

  /** The first entry of a strip that is marked active. */
  function ActiveEntry(tabs: seq<TabInfo>): (r: Option<TabInfo>)
    ensures r.Some? ==> r.value in tabs && r.value.active
    ensures r.None? ==> forall t :: t in tabs ==> !t.active
  {
    if tabs == [] then None
    else if tabs[0].active then Some(tabs[0])
    else ActiveEntry(tabs[1..])
  }

  function Ids(tabs: seq<TabInfo>): set<u32> {
    set t | t in tabs :: t.id
  }

  function Label(p: Protocol): string {
    match p
    case Clearweb => "Direct"
    case Tor(_) => "Tor"
    case I2P => "I2P"
    case V2Ray(_) => "V2Ray"
    case WireGuard(_, _) => "WG"
  }

  /** The proxy a page at `url` is to be loaded through. */
  function Want(url: string, network: string, socks: Option<u16>): Option<u16> {
    if Contains(url, ".onion") || network == "Tor" || network == "V2Ray" then socks else None
  }

  function WithPrivacy(p: PrivacyState, level: string, rtc: bool, gl: bool, sandbox: string): PrivacyState {
    p.(securityLevel := level, webrtcBlocked := rtc, webglDisabled := gl, sandboxLabel := sandbox)
  }

  /** The pool after the strip became one with `live` tabs of which `id` is active. */
  function Follow(p: Pool, live: set<u32>, id: u32, url: string, built: bool): Pool {
    SwitchTo(CloseTabs(p, p.slots.Keys - live), id, url, built)
  }

  function OnPool(ui: Ui, ev: UiEvent, built: bool): Pool
    requires ui.pool.Some?
  {
    var p := ui.pool.value;
    match ev
    case PrivacyUpdated(level, rtc, gl, sandbox) =>
      RebuildAll(p, if UsingTorProxy(p) then ui.socks else None,
                 WithPrivacy(p.privacy, level, rtc, gl, sandbox), LastUrl(p), ui.activeTabId, built)
    case SocksReady(port) =>
      var want := if ui.network == "Tor" || Contains(LastUrl(p), ".onion") then Some(port) else None;
      RebuildAll(p, want, p.privacy, LastUrl(p), ui.activeTabId, built)
    case NetworkStatusChanged(protocol) =>
      RebuildAll(p, Want(LastUrl(p), Label(protocol), ui.socks), p.privacy, LastUrl(p), ui.activeTabId, built)
    case TabsChanged(next) =>
      (match ActiveEntry(next)
       case None => p
       case Some(a) => Follow(p, Ids(next), a.id, a.url, built))
    case LoadHtml(_) => SetActiveUrl(p, ui.urlBar)
    case LoadUrl(url) =>
      var want := Want(url, ui.network, ui.socks);
      if p.socksPort != want then RebuildAll(p, want, p.privacy, url, ui.activeTabId, built)
      else SetActiveUrl(p, url)
    case _ => p
  }

  function OnEvent(ui: Ui, ev: UiEvent, built: bool): Ui {
    var pool := if ui.pool.Some? then Some(OnPool(ui, ev, built)) else None;
    match ev
    case SocksReady(port) => ui.(pool := pool, socks := Some(port))
    case NetworkStatusChanged(protocol) => ui.(pool := pool, network := Label(protocol))
    case SetUrlBar(url) => ui.(pool := pool, urlBar := url)
    case LoadUrl(url) => ui.(pool := pool, urlBar := url)
    case TabsChanged(next) =>
      (match ActiveEntry(next)
       case None => ui.(pool := pool, tabs := next)
       case Some(a) => ui.(pool := pool, tabs := next, urlBar := a.url, activeTabId := a.id))
    case _ => ui.(pool := pool)
  }

  // ---------------------------------------------------------------------------------------------------------------
  // The loop's own variables
  // ---------------------------------------------------------------------------------------------------------------

  class WindowManager {
    const pool: TabWebViewPool?
    var tabs: seq<TabInfo>
    var activeTabId: u32
    var urlBar: string
    var network: string
    var socks: Option<u16>

    ghost function Repr(): set<object> {
      if pool == null then {this} else {this, pool}
    }

    ghost function State(): Ui
      reads Repr()
    {
      Ui(if pool == null then None else Some(pool.State()), tabs, activeTabId, urlBar, network, socks)
    }

    constructor (created: bool)
      ensures State() == Start(created)
      ensures fresh(Repr())
    {
      var p: TabWebViewPool? := null;
      if created {
        p := new TabWebViewPool(FIRST_VIEW, 0);
      }
      pool := p;
      tabs := [];
      activeTabId := 0;
      urlBar := "sentinel://home";
      network := "Tor";
      socks := None;
    }

    /** Closes every cached tab that left the strip, in whatever order the cache lists them. */
    method CloseStale(live: set<u32>)
      requires pool != null && RepInv(pool.State())
      modifies pool
      ensures pool.State() == CloseTabs(old(pool.State()), old(pool.slots.Keys) - live)
    {
      var cached := pool.slots.Keys;
      ghost var start := pool.State();
      ghost var gone: set<u32> := {};
      ClosingNone(start);
      while cached != {}
        invariant cached <= old(pool.slots.Keys)
        invariant gone == old(pool.slots.Keys) - cached - live
        invariant pool.State() == CloseTabs(start, gone)
        decreases cached
      {
        var stale :| stale in cached;
        if stale !in live {
          CloseOneMore(start, gone, stale);
          pool.CloseTab(stale);
        }
        OneFewer(old(pool.slots.Keys), cached, live, stale);
        gone := if stale in live then gone else gone + {stale};
        cached := cached - {stale};
      }
      assert gone == old(pool.slots.Keys) - live;
    }

    method OnTabsChanged(next: seq<TabInfo>, built: bool)
      requires pool != null ==> RepInv(pool.State())
      modifies Repr()
      ensures State() == OnEvent(old(State()), TabsChanged(next), built)
    {
      tabs := next;
      var active := ActiveEntry(tabs);
      if active.Some? {
        urlBar := active.value.url;
        var live := Ids(tabs);
        if pool != null {
          CloseStale(live);
          var _ := pool.Switch(active.value.id, active.value.url, built);
        }
        activeTabId := active.value.id;
      }
    }

    method Handle(ev: UiEvent, built: bool)
      requires pool != null ==> RepInv(pool.State())
      modifies Repr()
      ensures State() == OnEvent(old(State()), ev, built)
    {
      match ev
      case PrivacyUpdated(level, rtc, gl, sandbox) =>
        if pool != null {
          var restore := pool.LastUrlOfActive();
          var privacy := WithPrivacy(pool.privacy, level, rtc, gl, sandbox);
          var using := pool.active.Some? && pool.active.value in pool.slots
            && pool.slots[pool.active.value].socksPort.Some?;
          var want := if using then socks else None;
          var _ := pool.Rebuild(want, privacy, restore, activeTabId, built);
        }
      case SocksReady(port) =>
        socks := Some(port);
        if pool != null {
          var restore := pool.LastUrlOfActive();
          var want := if network == "Tor" || Contains(restore, ".onion") then Some(port) else None;
          var _ := pool.Rebuild(want, pool.privacy, restore, activeTabId, built);
        }
      case SetUrlBar(url) =>
        urlBar := url;
      case TabsChanged(next) =>
        OnTabsChanged(next, built);
      case NetworkStatusChanged(protocol) =>
        network := Label(protocol);
        if pool != null {
          var restore := pool.LastUrlOfActive();
          var want := if network == "Tor" || network == "V2Ray" then socks
                      else if Contains(restore, ".onion") then socks
                      else None;
          var _ := pool.Rebuild(want, pool.privacy, restore, activeTabId, built);
        }
      case LoadHtml(_) =>
        if pool != null {
          pool.LoadUrlActive(urlBar);
        }
      case LoadUrl(url) =>
        urlBar := url;
        var needSocks := Contains(url, ".onion") || network == "Tor" || network == "V2Ray";
        var want := if needSocks then socks else None;
        if pool != null {
          var stale := pool.NeedsProxy(want);
          if stale {
            var _ := pool.Rebuild(want, pool.privacy, url, activeTabId, built);
          } else {
            pool.LoadUrlActive(url);
          }
        }
      case _ =>
    }
  }

  // ---------------------------------------------------------------------------------------------------------------
  // What every event keeps
  // ---------------------------------------------------------------------------------------------------------------

  lemma OneFewer(all: set<u32>, cached: set<u32>, live: set<u32>, x: u32)
    requires x in cached && cached <= all
    ensures all - (cached - {x}) - live ==
      if x in live then all - cached - live else (all - cached - live) + {x}
  {
  }

  lemma ClosingNone(p: Pool)
    ensures CloseTabs(p, {}) == p
  {
    MinusNothing(p.lru, {});
    assert p.slots - {} == p.slots;
  }

  /** The tabs the chrome knows of: those of the strip, or the start-up tab while there is no strip yet. */
  ghost function Known(ui: Ui): set<u32> {
    if ui.tabs == [] then {0} else Ids(ui.tabs)
  }

  /** Whatever failed to build: the pool is well-formed and caches known tabs only. */
  ghost predicate Sound(ui: Ui) {
    && ui.activeTabId in Known(ui)
    && (ui.pool.Some? ==> RepInv(ui.pool.value) && ui.pool.value.slots.Keys <= Known(ui))
  }

  /** The pool shows the active tab. */
  ghost predicate Settled(ui: Ui) {
    ui.pool.Some? ==> ui.pool.value.active == Some(ui.activeTabId) && ui.activeTabId in ui.pool.value.slots
  }

  predicate WellFormed(ev: UiEvent) {
    ev.TabsChanged? ==> ActiveEntry(ev.tabs).Some?
  }

  lemma FollowKeeps(p: Pool, live: set<u32>, id: u32, url: string, built: bool)
    requires RepInv(p) && id in live
    ensures var q := Follow(p, live, id, url, built);
      && RepInv(q) && q.slots.Keys <= live
      && q.socksPort == p.socksPort && q.privacy == p.privacy
      && (built ==> q.active == Some(id) && id in q.slots)
  {
    hide RepInv, CloseTabs, SwitchTo;
    var gone := p.slots.Keys - live;
    CloseKeepsRepInv(p, gone);
    SwitchKeepsRepInv(CloseTabs(p, gone), id, url, built);
  }

  lemma StripKeepsRepInv(p: Pool, ui: Ui, strip: seq<TabInfo>, built: bool)
    requires ui.pool == Some(p) && RepInv(p)
    ensures RepInv(OnPool(ui, TabsChanged(strip), built))
  {
    hide RepInv, Follow;
    if ActiveEntry(strip).Some? {
      var a := ActiveEntry(strip).value;
      assert a.id in Ids(strip);
      FollowKeeps(p, Ids(strip), a.id, a.url, built);
    }
  }

  lemma EventKeepsRepInv(ui: Ui, ev: UiEvent, built: bool)
    requires ui.pool.Some? && RepInv(ui.pool.value)
    ensures RepInv(OnPool(ui, ev, built))
  {
    if ev.TabsChanged? {
      assert ev == TabsChanged(ev.tabs);
      StripKeepsRepInv(ui.pool.value, ui, ev.tabs, built);
    }
  }

  lemma EventKeepsSound(ui: Ui, ev: UiEvent, built: bool)
    requires Sound(ui) && WellFormed(ev)
    ensures Sound(OnEvent(ui, ev, built))
  {
    if ui.pool.Some? {
      EventKeepsRepInv(ui, ev, built);
    }
    if ev.TabsChanged? {
      var a := ActiveEntry(ev.tabs).value;
      assert a.id in Ids(ev.tabs);
      if ui.pool.Some? {
        FollowKeeps(ui.pool.value, Ids(ev.tabs), a.id, a.url, built);
      }
    }
  }

  lemma EventKeepsPool(ui: Ui, ev: UiEvent, built: bool)
    requires ui.pool.Some? ==> RepInv(ui.pool.value)
    ensures OnEvent(ui, ev, built).pool.Some? == ui.pool.Some?
    ensures ui.pool.Some? ==> RepInv(OnEvent(ui, ev, built).pool.value)
  {
    hide RepInv, OnPool;
    if ui.pool.Some? {
      EventKeepsRepInv(ui, ev, built);
    }
  }

  lemma EventSettles(ui: Ui, ev: UiEvent)
    requires ui.pool.Some? ==> RepInv(ui.pool.value)
    requires Settled(ui)
    ensures Settled(OnEvent(ui, ev, true))
  {
    hide RepInv, Follow;
    if ev.TabsChanged? && ActiveEntry(ev.tabs).Some? {
      assert ev == TabsChanged(ev.tabs);
      StripSettlesPool(ui, ev.tabs);
    }
  }

  /** A strip whose view can be built settles the pool, whatever it was before. */
  lemma StripSettlesPool(ui: Ui, strip: seq<TabInfo>)
    requires ui.pool.Some? ==> RepInv(ui.pool.value)
    requires ActiveEntry(strip).Some?
    ensures Settled(OnEvent(ui, TabsChanged(strip), true))
  {
    hide RepInv, Follow;
    if ui.pool.Some? {
      var a := ActiveEntry(strip).value;
      assert a.id in Ids(strip);
      FollowKeeps(ui.pool.value, Ids(strip), a.id, a.url, true);
    }
  }

  /**
   A tab switch whose view cannot be built leaves the pool on the new tab only if that tab was cached, or if the pool
   already pointed at it with nothing behind.
   */
  lemma FailedSwitchShowsTabIff(p: Pool, live: set<u32>, id: u32, url: string)
    requires RepInv(p) && id in live
    ensures Follow(p, live, id, url, false).active == Some(id)
      <==> id in p.slots || p.active == Some(id)
  {
    var gone := p.slots.Keys - live;
    var q := CloseTabs(p, gone);
    CloseKeepsRepInv(p, gone);
    SwitchKeepsRepInv(q, id, url, false);
  }

  // ---------------------------------------------------------------------------------------------------------------
  // Proxies
  // ---------------------------------------------------------------------------------------------------------------

  function RunEvents(ui: Ui, evs: seq<UiEvent>, built: seq<bool>): Ui
    requires |built| == |evs|
  {
    if evs == [] then ui
    else
      var n := |evs| - 1;
      OnEvent(RunEvents(ui, evs[..n], built[..n]), evs[n], built[n])
  }

  lemma {:induction false} RunKeepsRepInv(created: bool, evs: seq<UiEvent>, built: seq<bool>)
    requires |built| == |evs|
    ensures var ui := RunEvents(Start(created), evs, built);
      && ui.pool.Some? == created
      && (created ==> RepInv(ui.pool.value))
      && ((forall i :: 0 <= i < |built| ==> built[i]) ==> Settled(ui))
  {
    if evs == [] {
      if created {
        RepInvAlways(FIRST_VIEW, 0, []);
      }
    } else {
      hide RepInv, Settled, OnEvent;
      var n := |evs| - 1;
      RunKeepsRepInv(created, evs[..n], built[..n]);
      var ui := RunEvents(Start(created), evs[..n], built[..n]);
      EventKeepsPool(ui, evs[n], built[n]);
      if forall i :: 0 <= i < |built| ==> built[i] {
        EventSettles(ui, evs[n]);
      }
    }
  }

  /** A page load leaves the pool on the proxy that page wants, even if its view could not be built. */
  lemma LoadUrlSetsProxy(ui: Ui, url: string, built: bool)
    requires ui.pool.Some?
    ensures OnPool(ui, LoadUrl(url), built).socksPort == Want(url, ui.network, ui.socks)
  {
  }

  /**
   After any events ending in a page load, with every build succeeding, the active view shows that page through the
   proxy the page wants.
   */
  lemma ProxyAgreesAfterLoad(evs: seq<UiEvent>, built: seq<bool>, url: string)
    requires |built| == |evs| && forall i :: 0 <= i < |built| ==> built[i]
    ensures var before := RunEvents(Start(true), evs, built);
      var after := OnEvent(before, LoadUrl(url), true);
      && after.pool.Some?
      && var p := after.pool.value;
      && p.active == Some(before.activeTabId) && before.activeTabId in p.slots
      && p.slots[before.activeTabId].lastUrl == url
      && p.slots[before.activeTabId].socksPort == Want(url, before.network, before.socks)
  {
    RunKeepsRepInv(true, evs, built);
  }

  /** Events that never rebuild the pool. */
  predicate KeepsViews(ev: UiEvent) {
    !ev.PrivacyUpdated? && !ev.SocksReady? && !ev.NetworkStatusChanged? && !ev.LoadUrl?
  }

  lemma EventKeepsProxy(ui: Ui, ev: UiEvent, built: bool)
    requires ui.pool.Some? && RepInv(ui.pool.value) && KeepsViews(ev)
    ensures OnPool(ui, ev, built).socksPort == ui.pool.value.socksPort
    ensures OnPool(ui, ev, built).privacy == ui.pool.value.privacy
  {
    hide RepInv, Follow, HasActiveView;
    if ev.TabsChanged? && ActiveEntry(ev.tabs).Some? {
      var a := ActiveEntry(ev.tabs).value;
      assert a.id in Ids(ev.tabs);
      FollowKeeps(ui.pool.value, Ids(ev.tabs), a.id, a.url, built);
    }
  }

  lemma {:induction false} ProxyStays(ui: Ui, evs: seq<UiEvent>, built: seq<bool>)
    requires ui.pool.Some? && RepInv(ui.pool.value)
    requires |built| == |evs| && forall e :: e in evs ==> KeepsViews(e)
    ensures var after := RunEvents(ui, evs, built);
      && after.pool.Some? && RepInv(after.pool.value)
      && after.pool.value.socksPort == ui.pool.value.socksPort
      && after.pool.value.privacy == ui.pool.value.privacy
  {
    if evs != [] {
      var n := |evs| - 1;
      var e := evs[n];
      assert e in evs;
      ProxyStays(ui, evs[..n], built[..n]);
      var mid := RunEvents(ui, evs[..n], built[..n]);
      EventKeepsRepInv(mid, e, built[n]);
      EventKeepsProxy(mid, e, built[n]);
    }
  }

  /**
   Until the next rebuild, every view of the pool, those of tabs switched to later included, has the proxy of the
   last page load; whatever failed to build before, during or after.
   */
  lemma EveryViewSharesLoadProxy(
      ui: Ui, url: string, ok: bool, later: seq<UiEvent>, builtLater: seq<bool>, id: u32)
    requires ui.pool.Some? && RepInv(ui.pool.value)
    requires |builtLater| == |later| && forall e :: e in later ==> KeepsViews(e)
    ensures var after := RunEvents(OnEvent(ui, LoadUrl(url), ok), later, builtLater);
      && after.pool.Some?
      && (id in after.pool.value.slots ==>
            after.pool.value.slots[id].socksPort == Want(url, ui.network, ui.socks))
  {
    EventKeepsRepInv(ui, LoadUrl(url), ok);
    LoadUrlSetsProxy(ui, url, ok);
    ProxyStays(OnEvent(ui, LoadUrl(url), ok), later, builtLater);
  }

  /**
   The `SocksReady` arm does not consult the V2Ray label as the other arms do: it leaves the pool on the proxy the
   restored page wants exactly when the label is not V2Ray, or the page is an onion.
   */
  lemma SocksReadyAgreesIff(ui: Ui, port: u16, built: bool)
    requires ui.pool.Some?
    ensures var url := LastUrl(ui.pool.value);
      OnPool(ui, SocksReady(port), built).socksPort == Want(url, ui.network, Some(port))
      <==> ui.network != "V2Ray" || Contains(url, ".onion")
  {
    assert "V2Ray" != "Tor";
  }

  /**
   Nor does the `PrivacyUpdated` arm ask what the page wants: it keeps to a proxy if the active view had one. So it
   leaves the wanted proxy exactly when there is none to use, or when the active view has one just when the page wants
   it; a rebuild that failed before makes the difference.
   */
  lemma PrivacyUpdatedAgreesIff(ui: Ui, level: string, rtc: bool, gl: bool, sandbox: string, built: bool)
    requires ui.pool.Some?
    ensures var p := ui.pool.value;
      OnPool(ui, PrivacyUpdated(level, rtc, gl, sandbox), built).socksPort == Want(LastUrl(p), ui.network, ui.socks)
      <==> || ui.socks == None
           || (HasActiveView(p) && p.slots[p.active.value].socksPort.Some?
               <==> Contains(LastUrl(p), ".onion") || ui.network == "Tor" || ui.network == "V2Ray")
  {
  }

  /** The arm for a change of network always leaves the proxy that the restored page wants under the new label. */
  lemma NetworkChangeAgrees(ui: Ui, protocol: Protocol, built: bool)
    requires ui.pool.Some?
    ensures var after := OnEvent(ui, NetworkStatusChanged(protocol), built);
      after.pool.value.socksPort == Want(LastUrl(ui.pool.value), after.network, after.socks)
  {
  }

  /** The label is V2Ray and the port known, so the active page wants the port; but its view has no proxy. */
  predicate LeavesV2RayBare(ui: Ui, port: u16) {
    && ui.pool.Some? && ui.network == "V2Ray" && ui.socks == Some(port)
    && HasActiveView(ui.pool.value) && ui.pool.value.slots[ui.pool.value.active.value].socksPort == None
    && Want(LastUrl(ui.pool.value), ui.network, ui.socks) == Some(port)
  }

  lemma RebuildRestores(p: Pool, socks: Option<u16>, privacy: PrivacyState, url: string, tab: u32)
    ensures var q := RebuildAll(p, socks, privacy, url, tab, true);
      HasActiveView(q) && LastUrl(q) == url && q.slots[q.active.value].socksPort == socks
  {
  }

  /** What a change to V2Ray sends, with every view built, takes the proxy from any page that is no onion. */
  lemma V2RayLosesProxy(ui: Ui, config: V2RayConfig, port: u16)
    requires ui.pool.Some? && !Contains(LastUrl(ui.pool.value), ".onion")
    ensures var changed := OnEvent(ui, NetworkStatusChanged(V2Ray(config)), true);
      LeavesV2RayBare(OnEvent(changed, SocksReady(port), true), port)
  {
    hide RebuildAll, HasActiveView, LastUrl;
    var p, url := ui.pool.value, LastUrl(ui.pool.value);
    var mid := OnEvent(ui, NetworkStatusChanged(V2Ray(config)), true);
    RebuildRestores(p, Want(url, "V2Ray", ui.socks), p.privacy, url, ui.activeTabId);
    RebuildRestores(mid.pool.value, None, mid.pool.value.privacy, url, ui.activeTabId);
    assert "V2Ray" != "Tor";
  }

  // ---------------------------------------------------------------------------------------------------------------
  // Runs from start-up in which the plain claims fail
  // ---------------------------------------------------------------------------------------------------------------

  lemma RunOne(ui: Ui, ev: UiEvent, built: bool)
    ensures RunEvents(ui, [ev], [built]) == OnEvent(ui, ev, built)
  {
  }

  lemma RunTwo(ui: Ui, first: UiEvent, second: UiEvent, b: bool, c: bool)
    ensures RunEvents(ui, [first, second], [b, c]) == OnEvent(OnEvent(ui, first, b), second, c)
  {
    assert [first, second][..1] == [first] && [b, c][..1] == [b];
    RunOne(ui, first, b);
  }

  /** The view of tab 5 cannot be built: the chrome is on tab 5, the pool still on tab 0. */
  lemma FailedSwitchWitness()
    ensures var strip := [TabInfo(0, "home", "sentinel://home", false), TabInfo(5, "news", "https://a.example", true)];
      var ui := RunEvents(Start(true), [TabsChanged(strip)], [false]);
      ui.activeTabId == 5 && ui.pool.Some? && ui.pool.value.active == Some(0)
  {
    var strip := [TabInfo(0, "home", "sentinel://home", false), TabInfo(5, "news", "https://a.example", true)];
    var p := Start(true).pool.value;
    RunOne(Start(true), TabsChanged(strip), false);
    assert ActiveEntry(strip) == Some(strip[1]) by {
      assert strip[1..] == [strip[1]];
    }
    assert strip[0] in strip && strip[1] in strip;
    assert p.slots.Keys - Ids(strip) == {};
    ClosingNone(p);
  }

  /** The rebuild that a new port asks for fails: no view is left, and the pool's active id points at nothing. */
  lemma DanglingWitness()
    ensures var ui := RunEvents(Start(true), [SocksReady(9050)], [false]);
      ui.pool.Some? && ui.pool.value.active == Some(0) && ui.pool.value.slots == map[]
  {
    RunOne(Start(true), SocksReady(9050), false);
  }

  lemma SocksReadyWitness()
    ensures LeavesV2RayBare(RunEvents(Start(true), [NetworkStatusChanged(V2Ray(Trojan("secret"))), SocksReady(9050)],
                                      [true, true]), 9050)
  {
    hide LeavesV2RayBare, OnEvent;
    RunTwo(Start(true), NetworkStatusChanged(V2Ray(Trojan("secret"))), SocksReady(9050), true, true);
    NotContained("about:blank", ".onion");
    V2RayLosesProxy(Start(true), Trojan("secret"), 9050);
  }

  /** Under Tor, a rebuild that fails and a change of privacy leave a live view without the proxy its page wants. */
  lemma PrivacyUpdatedWitness()
    ensures var change := PrivacyUpdated("Strict", true, true, "Job Object");
      var ui := RunEvents(Start(true), [SocksReady(9050), change], [false, true]);
      && ui.pool.Some? && ui.network == "Tor" && ui.socks == Some(9050)
      && HasActiveView(ui.pool.value) && ui.pool.value.slots[ui.pool.value.active.value].socksPort == None
      && Want(LastUrl(ui.pool.value), ui.network, ui.socks) == Some(9050)
  {
    RunTwo(Start(true), SocksReady(9050), PrivacyUpdated("Strict", true, true, "Job Object"), false, true);
  }
}
