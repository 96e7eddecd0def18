/**
 The core's command loop: what each browser command does to the tabs and which events it sends to the chrome.
 `Env` holds what the outside world decides during one command.
 */
module CommandLoop {
  import opened Words
  import opened Wrappers
  import opened Text
  import opened Messages
  import opened Tabs
  import Dispatcher

  const HOME := "sentinel://home"

  /**
   The clock, whether the settings could be read, whether a search and a network change succeed, and the surroundings
   of the internal pages.
   */
  datatype Env = Env(
    now: nat, storageOk: bool, searchOk: bool, changeOk: bool, world: Dispatcher.World, failAt: Option<nat>)

  /** The tabs after a command, and what it sent. */
  datatype Did = Did(tabs: Tabs, sent: seq<UiEvent>)

  // ---------------------------------------------------------------------------------------------------------------
  // What each command does
  // ---------------------------------------------------------------------------------------------------------------

  predicate IsInternal(url: string) {
    StartsWith(url, "sentinel://")
  }

  /** The path of an internal page without its query; the first 32 characters of any other address. */
  function TitleOf(url: string): string {
    if IsInternal(url) then Split(url[11..], "?")[0]
    else if |url| <= 32 then url else url[..32]
  }

  function Retitle(m: Tabs, url: string): Tabs {
    if m.activeTabId in m.tabs then
      WithActive(m, m.tabs[m.activeTabId].(url := url, title := TitleOf(url)))
    else m
  }

  /** An address that is not an internal page: a web address, a bare host, or a query. */
  function ExternalEvents(url: string, e: Env): seq<UiEvent> {
    var t := Trim(url);
    if StartsWith(t, "http://") || StartsWith(t, "https://") then [SetUrlBar(t), LoadUrl(t)]
    else if '.' in t && ' ' !in t then
      var full := if EndsWith(t, ".onion") then "http://" + t else "https://" + t;
      [SetUrlBar(full), LoadUrl(full)]
    else if t == "" then [LoadHtml(EmptyQuery)]
    else if e.searchOk then [LoadHtml(SearchResults(t))]
    else []
  }

  function PageEvents(url: string, e: Env): seq<UiEvent> {
    if IsInternal(url) then Dispatcher.Serve(url, e.world, 0, e.failAt).sent else ExternalEvents(url, e)
  }

  ghost predicate TabsOk(m: Tabs) {
    m.activeTabId in m.tabs && KeysAreIds(m) && AllOk(m)
  }

  ghost function Synced(m: Tabs): UiEvent {
    TabsChanged(ListTabs(m))
  }

  /** Navigation; when the settings cannot be read it ends after the history was pushed, before the strip is sent. */
  ghost function Navigating(m: Tabs, url: string, record: bool, e: Env): Did
    requires TabsOk(m)
  {
    var pushed := if record then PushHistory(m, url) else m;
    if !e.storageOk then Did(pushed, [])
    else
      var done := Retitle(pushed, url);
      Did(done, [Synced(done)] + PageEvents(url, e))
  }

  ghost function Revisit(m: Tabs, e: Env): Did
    requires TabsOk(m)
  {
    Navigating(m, m.tabs[m.activeTabId].url, false, e)
  }

  /** `pick` is the key the hash map happens to list first, should the active tab be the one closed. */
  function Closed(m: Tabs, id: u32, pick: u32, now: nat): Tabs {
    if |m.tabs| <= 1 then AddTab(RemoveTab(m, id, pick), HOME, "New Tab", now) else RemoveTab(m, id, pick)
  }

  function Announce(protocol: Protocol, socksPort: Option<u16>): seq<UiEvent> {
    [NetworkStatusChanged(protocol)] + if socksPort.Some? then [SocksReady(socksPort.value)] else []
  }

  /** Sends the strip, then navigates: to home for a new tab, else to where the active tab already is. */
  ghost function Opened(m: Tabs, e: Env): Did
    requires TabsOk(m)
  {
    var next := Navigating(m, HOME, true, e);
    next.(sent := [Synced(m)] + next.sent)
  }

  ghost function Shown(m: Tabs, e: Env): Did
    requires TabsOk(m)
  {
    var next := Revisit(m, e);
    next.(sent := [Synced(m), SetUrlBar(m.tabs[m.activeTabId].url)] + next.sent)
  }

  /** What a command may assume of the hash map's choice. */
  predicate Possible(m: Tabs, cmd: BrowserCommand, pick: u32) {
    cmd.CloseTab? ==> CanPick(m, cmd.closing, pick)
  }

  ghost function Command(m: Tabs, cmd: BrowserCommand, pick: u32, e: Env): Did
    requires TabsOk(m) && Possible(m, cmd, pick)
  {
    match cmd
    case Navigate(url) => Navigating(m, url, true, e)
    case Back => BackKeepsOk(m); if CanGoBack(m) then Revisit(GoBack(m), e) else Did(m, [])
    case Forward => ForwardKeepsOk(m); if CanGoForward(m) then Revisit(GoForward(m), e) else Did(m, [])
    case Refresh => Revisit(m, e)
    case ChangeNetwork(protocol) => Did(m, if e.changeOk then Announce(protocol, e.world.socksPort) else [])
    case AddBridge(_) => Did(m, [])
    case AddV2Ray(_) => Did(m, [])
    case SetProxyMode(useTor, port) => Did(m, if useTor then [SocksReady(port)] else [])
    case NewTab => AddKeepsOk(m, HOME, "New Tab", e.now); Opened(AddTab(m, HOME, "New Tab", e.now), e)
    case SwitchTab(id) => SwitchKeepsOk(m, id, e.now); Shown(SwitchToTab(m, id, e.now), e)
    case CloseTab(id) => CloseKeepsOk(m, id, pick, e.now); Shown(Closed(m, id, pick, e.now), e)
    case SetPrivacy(level, rtc, gl) => Did(m, [PrivacyUpdated(level, rtc, gl, "Job Object")])
  }

  /** The states the tabs pass through during a navigation, as far as it gets. */
  ghost function NavPassing(m: Tabs, url: string, record: bool, e: Env): seq<Tabs>
    requires TabsOk(m)
  {
    var pushed := if record then PushHistory(m, url) else m;
    if e.storageOk then [pushed, Retitle(pushed, url)] else [pushed]
  }

  /** The states the tabs pass through during a command. */
  ghost function Passing(m: Tabs, cmd: BrowserCommand, pick: u32, e: Env): seq<Tabs>
    requires TabsOk(m) && Possible(m, cmd, pick)
  {
    match cmd
    case Navigate(url) => NavPassing(m, url, true, e)
    case Back =>
      BackKeepsOk(m);
      if CanGoBack(m) then NavPassing(GoBack(m), GoBack(m).tabs[GoBack(m).activeTabId].url, false, e) else []
    case Forward =>
      ForwardKeepsOk(m);
      if CanGoForward(m) then NavPassing(GoForward(m), GoForward(m).tabs[GoForward(m).activeTabId].url, false, e)
      else []
    case Refresh => NavPassing(m, m.tabs[m.activeTabId].url, false, e)
    case NewTab =>
      AddKeepsOk(m, HOME, "New Tab", e.now);
      var n := AddTab(m, HOME, "New Tab", e.now);
      [n] + NavPassing(n, HOME, true, e)
    case SwitchTab(id) =>
      SwitchKeepsOk(m, id, e.now);
      var n := SwitchToTab(m, id, e.now);
      [n] + NavPassing(n, n.tabs[n.activeTabId].url, false, e)
    case CloseTab(id) =>
      CloseKeepsOk(m, id, pick, e.now);
      var n := Closed(m, id, pick, e.now);
      [n] + NavPassing(n, n.tabs[n.activeTabId].url, false, e)
    case _ => []
  }

  // ---------------------------------------------------------------------------------------------------------------
  // Every step keeps the tab set and the histories well-formed
  // ---------------------------------------------------------------------------------------------------------------

  lemma AddKeepsOk(m: Tabs, url: string, title: string, now: nat)
    requires KeysAreIds(m) && AllOk(m)
    ensures TabsOk(AddTab(m, url, title, now))
  {
  }

  lemma SwitchKeepsOk(m: Tabs, id: u32, now: nat)
    requires TabsOk(m)
    ensures TabsOk(SwitchToTab(m, id, now))
  {
  }

  lemma CloseKeepsOk(m: Tabs, id: u32, pick: u32, now: nat)
    requires TabsOk(m) && CanPick(m, id, pick)
    ensures TabsOk(Closed(m, id, pick, now))
  {
    if |m.tabs| <= 1 {
      AddKeepsOk(RemoveTab(m, id, pick), HOME, "New Tab", now);
    } else if m.activeTabId == id {
      MoreThanOneLeavesSome(m.tabs, id);
    }
  }

  lemma MoreThanOneLeavesSome(tabs: map<u32, Tab>, id: u32)
    requires |tabs| > 1
    ensures tabs - {id} != map[]
  {
    if tabs.Keys <= {id} {
      assert |tabs.Keys| <= |{id}| by {
        assert tabs.Keys == {} || tabs.Keys == {id};
      }
    } else {
      var other :| other in tabs.Keys && other != id;
      assert other in tabs - {id};
    }
  }

  lemma PushKeepsOk(m: Tabs, url: string)
    requires TabsOk(m)
    ensures var n := PushHistory(m, url);
      TabsOk(n) && n.activeTabId == m.activeTabId && n.tabs[n.activeTabId].url == url
  {
    PushIsVisit(m.tabs[m.activeTabId], url);
  }

  lemma BackKeepsOk(m: Tabs)
    requires TabsOk(m)
    ensures TabsOk(GoBack(m))
  {
    if CanGoBack(m) {
      BackIsStepBack(m.tabs[m.activeTabId]);
    }
  }

  lemma ForwardKeepsOk(m: Tabs)
    requires TabsOk(m)
    ensures TabsOk(GoForward(m))
  {
    if CanGoForward(m) {
      ForwardIsStepForward(m.tabs[m.activeTabId]);
    }
  }

  lemma NavigatingKeepsOk(m: Tabs, url: string, record: bool, e: Env)
    requires TabsOk(m) && (record || url == m.tabs[m.activeTabId].url)
    ensures TabsOk(Navigating(m, url, record, e).tabs)
  {
    hide TitleOf, PushHistory;
    if record {
      PushKeepsOk(m, url);
    }
  }

  /**
   Every command keeps at least one tab, an active tab that exists, keys equal to ids, and every tab's address equal
   to the history entry it points at with no entry repeating its predecessor.
   */
  lemma CommandKeepsOk(m: Tabs, cmd: BrowserCommand, pick: u32, e: Env)
    requires TabsOk(m) && Possible(m, cmd, pick)
    ensures TabsOk(Command(m, cmd, pick, e).tabs)
  {
    hide Navigating, Closed, GoBack, GoForward, AddTab, SwitchToTab;
    match cmd
    case Navigate(url) => NavigatingKeepsOk(m, url, true, e);
    case Back =>
      BackKeepsOk(m);
      NavigatingKeepsOk(GoBack(m), GoBack(m).tabs[GoBack(m).activeTabId].url, false, e);
    case Forward =>
      ForwardKeepsOk(m);
      NavigatingKeepsOk(GoForward(m), GoForward(m).tabs[GoForward(m).activeTabId].url, false, e);
    case Refresh => NavigatingKeepsOk(m, m.tabs[m.activeTabId].url, false, e);
    case NewTab =>
      var n := AddTab(m, HOME, "New Tab", e.now);
      AddKeepsOk(m, HOME, "New Tab", e.now);
      NavigatingKeepsOk(n, HOME, true, e);
    case SwitchTab(id) =>
      var n := SwitchToTab(m, id, e.now);
      SwitchKeepsOk(m, id, e.now);
      NavigatingKeepsOk(n, n.tabs[n.activeTabId].url, false, e);
    case CloseTab(id) =>
      var n := Closed(m, id, pick, e.now);
      CloseKeepsOk(m, id, pick, e.now);
      NavigatingKeepsOk(n, n.tabs[n.activeTabId].url, false, e);
    case _ =>
  }

  // ---------------------------------------------------------------------------------------------------------------
  // The chrome is told of every change to the strip
  // ---------------------------------------------------------------------------------------------------------------

  /** The strip in force after `evs`, if it was `strip` before. */
  function LastStrip(evs: seq<UiEvent>, strip: seq<TabInfo>): seq<TabInfo> {
    if evs == [] then strip
    else if evs[|evs| - 1].TabsChanged? then evs[|evs| - 1].tabs
    else LastStrip(evs[..|evs| - 1], strip)
  }

  lemma {:induction false} LastStripAppend(a: seq<UiEvent>, b: seq<UiEvent>, strip: seq<TabInfo>)
    ensures LastStrip(a + b, strip) == LastStrip(b, LastStrip(a, strip))
  {
    if b == [] {
      assert a + b == a;
    } else {
      assert (a + b)[..|a + b| - 1] == a + b[..|b| - 1];
      LastStripAppend(a, b[..|b| - 1], strip);
    }
  }

  lemma {:induction false} LastStripSame(evs: seq<UiEvent>, strip: seq<TabInfo>)
    requires forall ev :: ev in evs ==> !ev.TabsChanged?
    ensures LastStrip(evs, strip) == strip
  {
    if evs != [] {
      assert evs[|evs| - 1] in evs;
      LastStripSame(evs[..|evs| - 1], strip);
    }
  }

  lemma LastStripAfterSync(m: Tabs, rest: seq<UiEvent>, strip: seq<TabInfo>)
    requires forall ev :: ev in rest ==> !ev.TabsChanged?
    ensures LastStrip([Synced(m)] + rest, strip) == ListTabs(m)
  {
    LastStripAppend([Synced(m)], rest, strip);
    LastStripSame(rest, ListTabs(m));
  }

  lemma PagesSendNoStrip(url: string, e: Env)
    ensures forall ev :: ev in PageEvents(url, e) ==> !ev.TabsChanged?
  {
    hide Dispatcher.Serve;
    if IsInternal(url) {
      Dispatcher.OnePagePerRequest(url, e.world, 0, e.failAt);
    }
  }

  /** Every strip sent lists the tabs of one of these states. */
  ghost predicate StripsOf(evs: seq<UiEvent>, states: seq<Tabs>) {
    forall ev :: ev in evs && ev.TabsChanged? ==> exists n :: n in states && TabsOk(n) && ev == Synced(n)
  }

  lemma StripsOfMore(a: seq<UiEvent>, b: seq<UiEvent>, before: seq<Tabs>, after: seq<Tabs>)
    requires StripsOf(a, before) && StripsOf(b, after)
    ensures StripsOf(a + b, before + after)
  {
    hide TabsOk, Synced;
    forall ev | ev in a + b && ev.TabsChanged?
      ensures exists n :: n in before + after && TabsOk(n) && ev == Synced(n)
    {
      if ev in a {
        var n :| n in before && TabsOk(n) && ev == Synced(n);
        assert n in before + after;
      } else {
        var n :| n in after && TabsOk(n) && ev == Synced(n);
        assert n in before + after;
      }
    }
  }

  lemma OneStrip(n: Tabs, rest: seq<UiEvent>, states: seq<Tabs>)
    requires TabsOk(n) && n in states && forall ev :: ev in rest ==> !ev.TabsChanged?
    ensures StripsOf([Synced(n)] + rest, states)
  {
  }

  /** The command navigates, and so sends a strip if the settings can be read. */
  predicate Speaks(m: Tabs, cmd: BrowserCommand) {
    || cmd.Navigate? || cmd.Refresh? || cmd.NewTab? || cmd.SwitchTab? || cmd.CloseTab?
    || (cmd.Back? && CanGoBack(m)) || (cmd.Forward? && CanGoForward(m))
  }

  lemma NavigatingTellsStrip(m: Tabs, url: string, record: bool, e: Env, strip: seq<TabInfo>)
    requires TabsOk(m) && (record || url == m.tabs[m.activeTabId].url) && e.storageOk
    ensures var d := Navigating(m, url, record, e);
      LastStrip(d.sent, strip) == ListTabs(d.tabs) && StripsOf(d.sent, NavPassing(m, url, record, e))
  {
    NavigatingKeepsOk(m, url, record, e);
    PagesSendNoStrip(url, e);
    hide PageEvents, PushHistory, Retitle;
    var done := Navigating(m, url, record, e).tabs;
    LastStripAfterSync(done, PageEvents(url, e), strip);
    OneStrip(done, PageEvents(url, e), NavPassing(m, url, record, e));
  }

  lemma ShownTellsStrip(m: Tabs, e: Env, strip: seq<TabInfo>)
    requires TabsOk(m) && e.storageOk
    ensures LastStrip(Shown(m, e).sent, strip) == ListTabs(Shown(m, e).tabs)
    ensures StripsOf(Shown(m, e).sent, [m] + NavPassing(m, m.tabs[m.activeTabId].url, false, e))
  {
    var url := m.tabs[m.activeTabId].url;
    var before := [Synced(m), SetUrlBar(url)];
    hide Navigating, NavPassing, TabsOk;
    NavigatingTellsStrip(m, url, false, e, LastStrip(before, strip));
    LastStripAppend(before, Revisit(m, e).sent, strip);
    OneStrip(m, [SetUrlBar(url)], [m]);
    assert [Synced(m)] + [SetUrlBar(url)] == before;
    StripsOfMore(before, Revisit(m, e).sent, [m], NavPassing(m, url, false, e));
  }

  lemma OpenedTellsStrip(m: Tabs, e: Env, strip: seq<TabInfo>)
    requires TabsOk(m) && e.storageOk
    ensures LastStrip(Opened(m, e).sent, strip) == ListTabs(Opened(m, e).tabs)
    ensures StripsOf(Opened(m, e).sent, [m] + NavPassing(m, HOME, true, e))
  {
    hide Navigating, NavPassing, TabsOk;
    NavigatingTellsStrip(m, HOME, true, e, LastStrip([Synced(m)], strip));
    LastStripAppend([Synced(m)], Navigating(m, HOME, true, e).sent, strip);
    OneStrip(m, [], [m]);
    assert [Synced(m)] + [] == [Synced(m)];
    StripsOfMore([Synced(m)], Navigating(m, HOME, true, e).sent, [m], NavPassing(m, HOME, true, e));
  }

  /**
   With the settings readable, a command that navigates sends as its last strip the tabs as they now are, whatever strip
   was in force; any other changes neither strip nor tabs.
   */
  lemma CommandTellsStrip(m: Tabs, cmd: BrowserCommand, pick: u32, e: Env, strip: seq<TabInfo>)
    requires TabsOk(m) && Possible(m, cmd, pick) && e.storageOk
    ensures var d := Command(m, cmd, pick, e);
      if Speaks(m, cmd) then LastStrip(d.sent, strip) == ListTabs(d.tabs)
      else LastStrip(d.sent, strip) == strip && d.tabs == m
  {
    hide Navigating, NavPassing, Closed, GoBack, GoForward, AddTab, SwitchToTab, Opened, Shown, ListTabs;
    match cmd
    case Navigate(url) => NavigatingTellsStrip(m, url, true, e, strip);
    case Back =>
      BackKeepsOk(m);
      LastStripSame([], strip);
      NavigatingTellsStrip(GoBack(m), GoBack(m).tabs[GoBack(m).activeTabId].url, false, e, strip);
    case Forward =>
      ForwardKeepsOk(m);
      LastStripSame([], strip);
      NavigatingTellsStrip(GoForward(m), GoForward(m).tabs[GoForward(m).activeTabId].url, false, e, strip);
    case Refresh => NavigatingTellsStrip(m, m.tabs[m.activeTabId].url, false, e, strip);
    case NewTab =>
      AddKeepsOk(m, HOME, "New Tab", e.now);
      OpenedTellsStrip(AddTab(m, HOME, "New Tab", e.now), e, strip);
    case SwitchTab(id) =>
      SwitchKeepsOk(m, id, e.now);
      ShownTellsStrip(SwitchToTab(m, id, e.now), e, strip);
    case CloseTab(id) =>
      CloseKeepsOk(m, id, pick, e.now);
      ShownTellsStrip(Closed(m, id, pick, e.now), e, strip);
    case _ => LastStripSame(Command(m, cmd, pick, e).sent, strip);
  }

  /**
   With the settings unreadable, a navigation pushes and sends nothing, an opened or shown tab sends only the strip.
   */
  lemma CutShort(m: Tabs, url: string, record: bool, e: Env)
    requires TabsOk(m) && !e.storageOk
    ensures Navigating(m, url, record, e) == Did(if record then PushHistory(m, url) else m, [])
    ensures Opened(m, e) == Did(PushHistory(m, HOME), [Synced(m)])
    ensures Shown(m, e) == Did(m, [Synced(m), SetUrlBar(m.tabs[m.activeTabId].url)])
  {
    hide PushHistory, Retitle, ListTabs;
  }

  lemma NavigatingSendsStrips(m: Tabs, url: string, record: bool, e: Env)
    requires TabsOk(m) && (record || url == m.tabs[m.activeTabId].url)
    ensures StripsOf(Navigating(m, url, record, e).sent, NavPassing(m, url, record, e))
  {
    hide Navigating, NavPassing;
    if e.storageOk {
      NavigatingTellsStrip(m, url, record, e, []);
    } else {
      CutShort(m, url, record, e);
    }
  }

  lemma OpenedSendsStrips(m: Tabs, e: Env)
    requires TabsOk(m)
    ensures StripsOf(Opened(m, e).sent, [m] + NavPassing(m, HOME, true, e))
  {
    hide Opened, NavPassing, TabsOk;
    if e.storageOk {
      OpenedTellsStrip(m, e, []);
    } else {
      CutShort(m, HOME, true, e);
      OneStrip(m, [], [m] + NavPassing(m, HOME, true, e));
      assert [Synced(m)] + [] == [Synced(m)];
    }
  }

  lemma ShownSendsStrips(m: Tabs, e: Env)
    requires TabsOk(m)
    ensures StripsOf(Shown(m, e).sent, [m] + NavPassing(m, m.tabs[m.activeTabId].url, false, e))
  {
    var url := m.tabs[m.activeTabId].url;
    hide Shown, NavPassing, TabsOk;
    if e.storageOk {
      ShownTellsStrip(m, e, []);
    } else {
      CutShort(m, url, false, e);
      OneStrip(m, [SetUrlBar(url)], [m] + NavPassing(m, url, false, e));
      assert [Synced(m)] + [SetUrlBar(url)] == [Synced(m), SetUrlBar(url)];
    }
  }

  /** Whatever fails, every strip a command sends lists the tabs as they were at some moment of it. */
  lemma CommandSendsStrips(m: Tabs, cmd: BrowserCommand, pick: u32, e: Env)
    requires TabsOk(m) && Possible(m, cmd, pick)
    ensures StripsOf(Command(m, cmd, pick, e).sent, Passing(m, cmd, pick, e))
  {
    hide Navigating, NavPassing, Closed, GoBack, GoForward, PushHistory, AddTab, SwitchToTab, Opened, Shown, ListTabs;
    match cmd
    case Navigate(url) => NavigatingSendsStrips(m, url, true, e);
    case Back =>
      BackKeepsOk(m);
      NavigatingSendsStrips(GoBack(m), GoBack(m).tabs[GoBack(m).activeTabId].url, false, e);
    case Forward =>
      ForwardKeepsOk(m);
      NavigatingSendsStrips(GoForward(m), GoForward(m).tabs[GoForward(m).activeTabId].url, false, e);
    case Refresh => NavigatingSendsStrips(m, m.tabs[m.activeTabId].url, false, e);
    case NewTab =>
      AddKeepsOk(m, HOME, "New Tab", e.now);
      OpenedSendsStrips(AddTab(m, HOME, "New Tab", e.now), e);
    case SwitchTab(id) =>
      SwitchKeepsOk(m, id, e.now);
      ShownSendsStrips(SwitchToTab(m, id, e.now), e);
    case CloseTab(id) =>
      CloseKeepsOk(m, id, pick, e.now);
      ShownSendsStrips(Closed(m, id, pick, e.now), e);
    case _ =>
  }

  /** A command ends in the last state it passes through, if in any. */
  lemma PassingEnds(m: Tabs, cmd: BrowserCommand, pick: u32, e: Env)
    requires TabsOk(m) && Possible(m, cmd, pick)
    ensures var states := Passing(m, cmd, pick, e);
      Command(m, cmd, pick, e).tabs == if states == [] then m else states[|states| - 1]
  {
    hide Closed, GoBack, GoForward, PushHistory, AddTab, SwitchToTab, ListTabs, Retitle, PageEvents;
  }

  lemma {:induction false} SameInfoSameStrip(m: Tabs, n: Tabs, ids: set<u32>)
    requires ids <= m.tabs.Keys && ids <= n.tabs.Keys
    requires forall id :: id in ids ==> Info(m, id) == Info(n, id)
    ensures Strip(m, ids) == Strip(n, ids)
  {
    if ids != {} {
      SameInfoSameStrip(m, n, ids - {Least(ids)});
    }
  }

  lemma DifferentInfoDifferentStrip(m: Tabs, n: Tabs, id: u32)
    requires KeysAreIds(m) && KeysAreIds(n) && id in m.tabs && id in n.tabs && Info(m, id) != Info(n, id)
    ensures ListTabs(m) != ListTabs(n)
  {
    StripIsSorted(m, m.tabs.Keys);
    StripIsSorted(n, n.tabs.Keys);
    assert Info(m, id) in ListTabs(m);
    assert Info(m, id) !in ListTabs(n);
  }

  /** The commands that move the active tab to another address before the strip is sent. */
  predicate MovesFirst(m: Tabs, cmd: BrowserCommand) {
    || (cmd.Navigate? && m.activeTabId in m.tabs && cmd.target != m.tabs[m.activeTabId].url)
    || (cmd.Back? && CanGoBack(m))
    || (cmd.Forward? && CanGoForward(m))
  }

  lemma PushChangesStripIff(m: Tabs, url: string)
    requires TabsOk(m)
    ensures ListTabs(PushHistory(m, url)) == ListTabs(m) <==> url == m.tabs[m.activeTabId].url
  {
    PushKeepsOk(m, url);
    var n := PushHistory(m, url);
    assert n.tabs.Keys == m.tabs.Keys;
    if url == m.tabs[m.activeTabId].url {
      SameInfoSameStrip(m, n, m.tabs.Keys);
    } else {
      DifferentInfoDifferentStrip(m, n, m.activeTabId);
    }
  }

  lemma MovingChangesStrip(m: Tabs, i: nat)
    requires TabsOk(m) && i < |m.tabs[m.activeTabId].history|
    requires i + 1 == m.tabs[m.activeTabId].historyIndex || i == m.tabs[m.activeTabId].historyIndex + 1
    ensures ListTabs(WithActive(m, Moved(m.tabs[m.activeTabId], i))) != ListTabs(m)
  {
    var t := m.tabs[m.activeTabId];
    assert t.history[i] != t.history[t.historyIndex];
    DifferentInfoDifferentStrip(WithActive(m, Moved(t, i)), m, m.activeTabId);
  }

  /**
   When the settings cannot be read, the strip the chrome holds goes stale on exactly the commands that had already
   moved the active tab elsewhere.
   */
  lemma StripStaleIff(m: Tabs, cmd: BrowserCommand, pick: u32, e: Env)
    requires TabsOk(m) && Possible(m, cmd, pick) && !e.storageOk
    ensures var d := Command(m, cmd, pick, e);
      LastStrip(d.sent, ListTabs(m)) == ListTabs(d.tabs) <==> !MovesFirst(m, cmd)
  {
    hide Navigating, Opened, Shown, Closed, PushHistory, AddTab, SwitchToTab, ListTabs, LastStrip;
    var strip := ListTabs(m);
    match cmd
    case Navigate(url) =>
      CutShort(m, url, true, e);
      LastStripSame([], strip);
      PushChangesStripIff(m, url);
    case Back => BackStaleIff(m, e);
    case Forward => ForwardStaleIff(m, e);
    case Refresh =>
      CutShort(m, m.tabs[m.activeTabId].url, false, e);
      LastStripSame([], strip);
    case NewTab =>
      var n := AddTab(m, HOME, "New Tab", e.now);
      AddKeepsOk(m, HOME, "New Tab", e.now);
      AddedUrl(m, HOME, "New Tab", e.now);
      CutShort(n, HOME, true, e);
      PushChangesStripIff(n, HOME);
      LastStripAfterSync(n, [], strip);
      assert [Synced(n)] + [] == [Synced(n)];
    case SwitchTab(id) =>
      SwitchKeepsOk(m, id, e.now);
      var n := SwitchToTab(m, id, e.now);
      CutShort(n, HOME, true, e);
      ShownStrip(n, strip);
    case CloseTab(id) =>
      CloseKeepsOk(m, id, pick, e.now);
      var n := Closed(m, id, pick, e.now);
      CutShort(n, HOME, true, e);
      ShownStrip(n, strip);
    case _ => LastStripSame(Command(m, cmd, pick, e).sent, strip);
  }

  lemma ShownStrip(n: Tabs, strip: seq<TabInfo>)
    requires n.activeTabId in n.tabs
    ensures LastStrip([Synced(n), SetUrlBar(n.tabs[n.activeTabId].url)], strip) == ListTabs(n)
  {
    hide ListTabs;
    LastStripAfterSync(n, [SetUrlBar(n.tabs[n.activeTabId].url)], strip);
    assert [Synced(n)] + [SetUrlBar(n.tabs[n.activeTabId].url)] == [Synced(n), SetUrlBar(n.tabs[n.activeTabId].url)];
  }

  lemma AddedUrl(m: Tabs, url: string, title: string, now: nat)
    ensures var n := AddTab(m, url, title, now);
      n.activeTabId in n.tabs && n.tabs[n.activeTabId].url == url
  {
  }

  lemma BackStaleIff(m: Tabs, e: Env)
    requires TabsOk(m) && !e.storageOk
    ensures var d := Command(m, Back, 0, e);
      LastStrip(d.sent, ListTabs(m)) == ListTabs(d.tabs) <==> !CanGoBack(m)
  {
    hide Navigating, ListTabs, LastStrip;
    LastStripSame([], ListTabs(m));
    if CanGoBack(m) {
      BackKeepsOk(m);
      CutShort(GoBack(m), GoBack(m).tabs[GoBack(m).activeTabId].url, false, e);
      MovingChangesStrip(m, m.tabs[m.activeTabId].historyIndex - 1);
    }
  }

  lemma ForwardStaleIff(m: Tabs, e: Env)
    requires TabsOk(m) && !e.storageOk
    ensures var d := Command(m, Forward, 0, e);
      LastStrip(d.sent, ListTabs(m)) == ListTabs(d.tabs) <==> !CanGoForward(m)
  {
    hide Navigating, ListTabs, LastStrip;
    LastStripSame([], ListTabs(m));
    if CanGoForward(m) {
      ForwardKeepsOk(m);
      CutShort(GoForward(m), GoForward(m).tabs[GoForward(m).activeTabId].url, false, e);
      MovingChangesStrip(m, m.tabs[m.activeTabId].historyIndex + 1);
    }
  }

  // ---------------------------------------------------------------------------------------------------------------
  // Suspended tabs and fresh ids
  // ---------------------------------------------------------------------------------------------------------------

  predicate ActiveSuspended(m: Tabs) {
    m.activeTabId in m.tabs && m.tabs[m.activeTabId].isSuspended
  }

  /** The active tab is never suspended by a pass over the idle tabs. */
  lemma PassSparesActive(m: Tabs, threshold: nat, now: nat)
    requires TabsOk(m)
    ensures ActiveSuspended(SuspendInactive(m, threshold, now)) == ActiveSuspended(m)
    ensures TabsOk(SuspendInactive(m, threshold, now))
    ensures ListTabs(SuspendInactive(m, threshold, now)) == ListTabs(m)
  {
    var n := SuspendInactive(m, threshold, now);
    assert n.tabs.Keys == m.tabs.Keys;
    SameInfoSameStrip(m, n, m.tabs.Keys);
  }

  lemma NavigatingKeepsSuspension(m: Tabs, url: string, record: bool, e: Env)
    requires TabsOk(m)
    ensures ActiveSuspended(Navigating(m, url, record, e).tabs) == ActiveSuspended(m)
  {
    hide PageEvents, ListTabs, TitleOf;
  }

  /**
   Which commands leave the active tab suspended: closing the active tab in favour of a suspended one, which is not
   woken; otherwise only those that leave a suspended active tab where it is.
   */
  lemma ActiveSuspendedIff(m: Tabs, cmd: BrowserCommand, pick: u32, e: Env)
    requires TabsOk(m) && Possible(m, cmd, pick)
    ensures ActiveSuspended(Command(m, cmd, pick, e).tabs) <==>
      match cmd
      case NewTab => false
      case SwitchTab(id) => id !in m.tabs && ActiveSuspended(m)
      case CloseTab(id) =>
        |m.tabs| > 1 && if id == m.activeTabId then pick in m.tabs && m.tabs[pick].isSuspended else ActiveSuspended(m)
      case _ => ActiveSuspended(m)
  {
    hide Navigating, ListTabs;
    match cmd
    case Navigate(url) => NavigatingKeepsSuspension(m, url, true, e);
    case Back =>
      BackKeepsOk(m);
      NavigatingKeepsSuspension(GoBack(m), GoBack(m).tabs[GoBack(m).activeTabId].url, false, e);
    case Forward =>
      ForwardKeepsOk(m);
      NavigatingKeepsSuspension(GoForward(m), GoForward(m).tabs[GoForward(m).activeTabId].url, false, e);
    case Refresh => NavigatingKeepsSuspension(m, m.tabs[m.activeTabId].url, false, e);
    case NewTab =>
      AddKeepsOk(m, HOME, "New Tab", e.now);
      NavigatingKeepsSuspension(AddTab(m, HOME, "New Tab", e.now), HOME, true, e);
    case SwitchTab(id) =>
      SwitchKeepsOk(m, id, e.now);
      var n := SwitchToTab(m, id, e.now);
      NavigatingKeepsSuspension(n, n.tabs[n.activeTabId].url, false, e);
    case CloseTab(id) =>
      CloseKeepsOk(m, id, pick, e.now);
      var n := Closed(m, id, pick, e.now);
      NavigatingKeepsSuspension(n, n.tabs[n.activeTabId].url, false, e);
    case _ =>
  }

  lemma NavigatingKeepsActive(m: Tabs, url: string, record: bool, e: Env)
    requires TabsOk(m)
    ensures Navigating(m, url, record, e).tabs.activeTabId == m.activeTabId
  {
    hide PageEvents, ListTabs, TitleOf, Push;
  }

  /** Which tab is active after a command. */
  lemma ActiveAfter(m: Tabs, cmd: BrowserCommand, pick: u32, e: Env)
    requires TabsOk(m) && Possible(m, cmd, pick)
    ensures Command(m, cmd, pick, e).tabs.activeTabId ==
      match cmd
      case NewTab => m.nextTabId
      case SwitchTab(id) => if id in m.tabs then id else m.activeTabId
      case CloseTab(id) =>
        if |m.tabs| <= 1 then m.nextTabId else if id == m.activeTabId then pick else m.activeTabId
      case _ => m.activeTabId
  {
    hide Navigating, ListTabs;
    match cmd
    case Navigate(url) => NavigatingKeepsActive(m, url, true, e);
    case Back =>
      BackKeepsOk(m);
      NavigatingKeepsActive(GoBack(m), GoBack(m).tabs[GoBack(m).activeTabId].url, false, e);
    case Forward =>
      ForwardKeepsOk(m);
      NavigatingKeepsActive(GoForward(m), GoForward(m).tabs[GoForward(m).activeTabId].url, false, e);
    case Refresh => NavigatingKeepsActive(m, m.tabs[m.activeTabId].url, false, e);
    case NewTab =>
      AddKeepsOk(m, HOME, "New Tab", e.now);
      NavigatingKeepsActive(AddTab(m, HOME, "New Tab", e.now), HOME, true, e);
    case SwitchTab(id) =>
      SwitchKeepsOk(m, id, e.now);
      var n := SwitchToTab(m, id, e.now);
      NavigatingKeepsActive(n, n.tabs[n.activeTabId].url, false, e);
    case CloseTab(id) =>
      CloseKeepsOk(m, id, pick, e.now);
      ClosedActive(m, id, pick, e.now);
      var n := Closed(m, id, pick, e.now);
      NavigatingKeepsActive(n, n.tabs[n.activeTabId].url, false, e);
    case _ =>
  }

  lemma ClosedActive(m: Tabs, id: u32, pick: u32, now: nat)
    requires TabsOk(m)
    ensures Closed(m, id, pick, now).activeTabId ==
      if |m.tabs| <= 1 then m.nextTabId else if id == m.activeTabId then pick else m.activeTabId
  {
    if |m.tabs| > 1 {
      MoreThanOneLeavesSome(m.tabs, id);
    }
  }

  lemma NavigatingKeepsKeys(m: Tabs, url: string, record: bool, e: Env)
    requires TabsOk(m)
    ensures var n := Navigating(m, url, record, e).tabs;
      n.tabs.Keys == m.tabs.Keys && n.nextTabId == m.nextTabId
  {
    hide PageEvents, ListTabs, TitleOf, Push;
  }

  lemma ClosedKeys(m: Tabs, id: u32, pick: u32, now: nat)
    ensures Closed(m, id, pick, now).tabs.Keys ==
            m.tabs.Keys - {id} + if |m.tabs| <= 1 then {m.nextTabId} else {}
    ensures Closed(m, id, pick, now).nextTabId == if |m.tabs| <= 1 then (m.nextTabId + 1) % U32 else m.nextTabId
  {
    hide RemoveTab, AddTab;
    RemovedKeys(m, id, pick);
    ReplacedKeys(m, id, pick, now);
  }

  lemma ReplacedKeys(m: Tabs, id: u32, pick: u32, now: nat)
    ensures var n := AddTab(RemoveTab(m, id, pick), HOME, "New Tab", now);
      n.tabs.Keys == m.tabs.Keys - {id} + {m.nextTabId} && n.nextTabId == (m.nextTabId + 1) % U32
  {
    hide RemoveTab, AddTab;
    RemovedKeys(m, id, pick);
    AddedKeys(RemoveTab(m, id, pick), HOME, "New Tab", now);
  }

  lemma RemovedKeys(m: Tabs, id: u32, pick: u32)
    ensures RemoveTab(m, id, pick).tabs.Keys == m.tabs.Keys - {id} == m.tabs.Keys - {id} + {}
    ensures RemoveTab(m, id, pick).nextTabId == m.nextTabId
  {
  }

  lemma AddedKeys(m: Tabs, url: string, title: string, now: nat)
    ensures AddTab(m, url, title, now).tabs.Keys == m.tabs.Keys + {m.nextTabId}
    ensures AddTab(m, url, title, now).nextTabId == (m.nextTabId + 1) % U32
  {
  }

  lemma ClosedCount(m: Tabs, id: u32, pick: u32, now: nat)
    requires m.nextTabId !in m.tabs
    ensures var left := if id in m.tabs then |m.tabs| - 1 else |m.tabs|;
      |Closed(m, id, pick, now).tabs.Keys| == if |m.tabs| <= 1 then left + 1 else left
  {
    hide Closed;
    ClosedKeys(m, id, pick, now);
    var rest := m.tabs.Keys - {id};
    assert |m.tabs| == |m.tabs.Keys|;
    if id !in m.tabs {
      assert rest == m.tabs.Keys;
    }
  }

  /** Closing with a stale id while one tab is open does not reset that tab: it opens a second one. */
  lemma TabCountAfterClose(m: Tabs, id: u32, pick: u32, e: Env)
    requires TabsOk(m) && CanPick(m, id, pick) && m.nextTabId !in m.tabs
    ensures var left := if id in m.tabs then |m.tabs| - 1 else |m.tabs|;
      |Command(m, CloseTab(id), pick, e).tabs.tabs.Keys| == if |m.tabs| <= 1 then left + 1 else left
  {
    hide Navigating, Closed, ListTabs;
    CloseKeepsOk(m, id, pick, e.now);
    ClosedCount(m, id, pick, e.now);
    var n := Closed(m, id, pick, e.now);
    NavigatingKeepsKeys(n, n.tabs[n.activeTabId].url, false, e);
  }

  // ---------------------------------------------------------------------------------------------------------------
  // The core
  // ---------------------------------------------------------------------------------------------------------------

  /** The tabs a new core starts with. */
  function FirstTabs(now: nat): Tabs {
    AddTab(EMPTY, "sentinel://welcome", "New Tab", now)
  }

  class Aegis {
    const tabs: TabManager
    var sent: seq<UiEvent>

    ghost predicate Valid()
      reads tabs
    {
      TabsOk(tabs.State())
    }

    constructor (now: nat)
      ensures Valid() && tabs.State() == FirstTabs(now) && sent == []
      ensures fresh(tabs)
    {
      var manager := new TabManager();
      var _ := manager.Add("sentinel://welcome", "New Tab", now);
      tabs := manager;
      sent := [];
    }

    method Sync()
      requires Valid()
      modifies this`sent
      ensures sent == old(sent) + [Synced(tabs.State())]
    {
      var strip := tabs.List();
      sent := sent + [TabsChanged(strip)];
    }

    method RenderPage(url: string, e: Env)
      modifies this`sent
      ensures sent == old(sent) + PageEvents(url, e)
    {
      if IsInternal(url) {
        var _, page, _, _ := Dispatcher.HandleInternalPage(url, e.world, e.failAt);
        sent := sent + page;
      } else {
        var t := Trim(url);
        if StartsWith(t, "http://") || StartsWith(t, "https://") {
          sent := sent + [SetUrlBar(t), LoadUrl(t)];
        } else if '.' in t && ' ' !in t {
          var full := if EndsWith(t, ".onion") then "http://" + t else "https://" + t;
          sent := sent + [SetUrlBar(full), LoadUrl(full)];
        } else if t == "" {
          sent := sent + [LoadHtml(EmptyQuery)];
        } else if e.searchOk {
          sent := sent + [LoadHtml(SearchResults(t))];
        }
      }
    }

    /** Titles the active tab after the page and sends the strip. */
    method RetitleAndSync(url: string)
      requires TabsOk(Retitle(tabs.State(), url))
      modifies this`sent, tabs
      ensures tabs.State() == Retitle(old(tabs.State()), url)
      ensures sent == old(sent) + [Synced(tabs.State())]
    {
      hide TitleOf, ListTabs;
      tabs.Label(url, TitleOf(url));
      assert tabs.State() == Retitle(old(tabs.State()), url);
      Sync();
    }

    method NavigateTo(url: string, record: bool, e: Env)
      requires Valid() && (record || url == tabs.State().tabs[tabs.activeTabId].url)
      modifies this, tabs
      ensures Valid()
      ensures Did(tabs.State(), sent) ==
        (var d := Navigating(old(tabs.State()), url, record, e); d.(sent := old(sent) + d.sent))
    {
      hide PageEvents, ListTabs, Retitle, PushHistory, HistoryOk, TabOk;
      NavigatingKeepsOk(tabs.State(), url, record, e);
      Record(url, record);
      hide TabsOk;
      if e.storageOk {
        RetitleAndSync(url);
        RenderPage(url, e);
      }
    }

    method Record(url: string, record: bool)
      requires Valid()
      modifies tabs
      ensures tabs.State() == if record then PushHistory(old(tabs.State()), url) else old(tabs.State())
    {
      if record {
        tabs.PushUrl(url);
      }
    }

    method ShowActive(e: Env)
      requires Valid()
      modifies this, tabs
      ensures Valid()
      ensures var d := Shown(old(tabs.State()), e);
        tabs.State() == d.tabs && sent == old(sent) + d.sent
    {
      hide Navigating;
      Sync();
      if tabs.activeTabId in tabs.tabs {
        var url := tabs.tabs[tabs.activeTabId].url;
        sent := sent + [SetUrlBar(url)];
        NavigateTo(url, false, e);
      }
    }

    method OpenTab(e: Env)
      requires Valid()
      modifies this, tabs
      ensures Valid()
      ensures var d := Opened(AddTab(old(tabs.State()), HOME, "New Tab", e.now), e);
        tabs.State() == d.tabs && sent == old(sent) + d.sent
    {
      hide Navigating;
      AddKeepsOk(tabs.State(), HOME, "New Tab", e.now);
      var _ := tabs.Add(HOME, "New Tab", e.now);
      Sync();
      NavigateTo(HOME, true, e);
    }

    /** Closing: the key the map happens to list first is some key that is left. */
    method CloseAndShow(id: u32, e: Env)
      requires Valid()
      modifies this, tabs
      ensures Valid()
      ensures exists pick: u32 ::
        && CanPick(old(tabs.State()), id, pick)
        && TabsOk(Closed(old(tabs.State()), id, pick, e.now))
        && Did(tabs.State(), sent) == (var d := Shown(Closed(old(tabs.State()), id, pick, e.now), e);
                                       d.(sent := old(sent) + d.sent))
    {
      ghost var before := tabs.State();
      var single := |tabs.tabs| <= 1;
      tabs.Close(id);
      ghost var pick: u32 :| CanPick(before, id, pick) && tabs.State() == RemoveTab(before, id, pick);
      if single {
        var _ := tabs.Add(HOME, "New Tab", e.now);
      }
      CloseKeepsOk(before, id, pick, e.now);
      assert tabs.State() == Closed(before, id, pick, e.now);
      hide Shown, Closed;
      ShowActive(e);
    }

    method BackAndShow(e: Env)
      requires Valid()
      modifies this, tabs
      ensures Valid()
      ensures var d := Command(old(tabs.State()), Back, 0, e);
        tabs.State() == d.tabs && sent == old(sent) + d.sent
    {
      hide Navigating;
      BackKeepsOk(tabs.State());
      var url := tabs.Back();
      if url.Some? {
        NavigateTo(url.value, false, e);
      }
    }

    method ForwardAndShow(e: Env)
      requires Valid()
      modifies this, tabs
      ensures Valid()
      ensures var d := Command(old(tabs.State()), Forward, 0, e);
        tabs.State() == d.tabs && sent == old(sent) + d.sent
    {
      hide Navigating;
      ForwardKeepsOk(tabs.State());
      var url := tabs.Forward();
      if url.Some? {
        NavigateTo(url.value, false, e);
      }
    }

    /** One turn of the command loop. */
    method Execute(cmd: BrowserCommand, e: Env)
      requires Valid()
      modifies this, tabs
      ensures Valid()
      ensures exists pick: u32 ::
        && Possible(old(tabs.State()), cmd, pick)
        && Did(tabs.State(), sent) == (var d := Command(old(tabs.State()), cmd, pick, e);
                                       d.(sent := old(sent) + d.sent))
    {
      ghost var before := tabs.State();
      ghost var pick: u32 := 0;
      hide Navigating, Shown, Opened, Closed, GoBack, GoForward, SwitchToTab, AddTab, TabsOk;
      match cmd {
        case Navigate(url) => NavigateTo(url, true, e);
        case Back => BackAndShow(e);
        case Forward => ForwardAndShow(e);
        case Refresh => ReloadActive(e);
        case NewTab => OpenTab(e);
        case SwitchTab(id) => SwitchAndShow(id, e);
        case CloseTab(id) =>
          CloseAndShow(id, e);
          pick :|
            && CanPick(before, id, pick)
            && TabsOk(Closed(before, id, pick, e.now))
            && Did(tabs.State(), sent) == (var d := Shown(Closed(before, id, pick, e.now), e);
                                           d.(sent := old(sent) + d.sent));
        case _ => Tell(cmd, e);
      }
      assert Possible(before, cmd, pick);
    }

    /** The commands that leave the tabs alone. */
    method Tell(cmd: BrowserCommand, e: Env)
      requires Valid()
      requires cmd.ChangeNetwork? || cmd.AddBridge? || cmd.AddV2Ray? || cmd.SetProxyMode? || cmd.SetPrivacy?
      modifies this`sent
      ensures sent == old(sent) + Command(tabs.State(), cmd, 0, e).sent
    {
      match cmd {
        case ChangeNetwork(protocol) =>
          if e.changeOk {
            sent := sent + Announce(protocol, e.world.socksPort);
          }
        case SetProxyMode(useTor, port) =>
          if useTor {
            sent := sent + [SocksReady(port)];
          }
        case SetPrivacy(level, rtc, gl) =>
          sent := sent + [PrivacyUpdated(level, rtc, gl, "Job Object")];
        case _ =>
      }
    }

    method ReloadActive(e: Env)
      requires Valid()
      modifies this, tabs
      ensures Valid()
      ensures var d := Revisit(old(tabs.State()), e);
        tabs.State() == d.tabs && sent == old(sent) + d.sent
    {
      hide Navigating;
      NavigateTo(tabs.tabs[tabs.activeTabId].url, false, e);
    }

    method SwitchAndShow(id: u32, e: Env)
      requires Valid()
      modifies this, tabs
      ensures Valid()
      ensures TabsOk(SwitchToTab(old(tabs.State()), id, e.now))
      ensures var d := Shown(SwitchToTab(old(tabs.State()), id, e.now), e);
        tabs.State() == d.tabs && sent == old(sent) + d.sent
    {
      hide Shown;
      SwitchKeepsOk(tabs.State(), id, e.now);
      tabs.Switch(id, e.now);
      ShowActive(e);
    }
  }
}
