/**
 What the commands mean to the user, said of their effects alone: which address is loaded, how each tab's history moves,
 which tabs there are afterwards, what each is called and when it was last active.
 */
module Browsing {
  import opened Words
  import opened Wrappers
  import opened Text
  import opened Messages
  import opened Tabs
  import opened CommandLoop
  import Dispatcher

  // ---------------------------------------------------------------------------------------------------------------
  // Where a navigation goes
  // ---------------------------------------------------------------------------------------------------------------

  predicate IsHost(t: string) {
    '.' in t && ' ' !in t
  }

  /** A web address is loaded as it is; a bare host over https, unless it is an onion, which is reached over http. */
  predicate Loads(t: string, u: string) {
    if IsWebUrl(t) then u == t
    else
      && EndsWith(u, t)
      && |u| == |t| + (if EndsWith(t, ".onion") then 7 else 8)
      && (StartsWith(u, "https://") <==> !EndsWith(t, ".onion"))
      && (StartsWith(u, "http://") <==> EndsWith(t, ".onion"))
  }

  /** What the chrome is sent for an address, behind the strip. */
  ghost predicate IsPageOf(url: string, e: Env, sent: seq<UiEvent>) {
    if StartsWith(url, "sentinel://") then sent == Dispatcher.Serve(url, e.world, 0, e.failAt).sent
    else
      var t := Trim(url);
      if IsWebUrl(t) || IsHost(t) then
        |sent| == 2 && sent[1].LoadUrl? && sent[0] == SetUrlBar(sent[1].url) && Loads(t, sent[1].url)
      else if t == "" then sent == [LoadHtml(EmptyQuery)]
      else sent == if e.searchOk then [LoadHtml(SearchResults(t))] else []
  }

  lemma PageEventsFit(url: string, e: Env)
    ensures IsPageOf(url, e, PageEvents(url, e))
  {
    hide Dispatcher.Serve, Trim;
    var t := Trim(url);
    if !IsWebUrl(t) && IsHost(t) && !IsInternal(url) {
      SchemeInFront(t);
    }
  }

  lemma SchemeInFront(t: string)
    ensures EndsWith("https://" + t, t) && StartsWith("https://" + t, "https://")
    ensures !StartsWith("https://" + t, "http://") && !StartsWith("http://" + t, "https://")
    ensures EndsWith("http://" + t, t) && StartsWith("http://" + t, "http://")
  {
    var s, p := "https://" + t, "http://" + t;
    assert s[..7][4] == 's' && s[..8] == "https://";
    assert |p| >= 8 ==> p[..8][4] == ':';
    assert p[..7] == "http://";
  }

  /**
   A command that navigates, the settings readable: it ends in the strip as the tabs then are and the page of the
   address that the active tab then has; a tab opened sends the strip before that too, one shown also its address.
   */
  lemma GoesWhereItSays(m: Tabs, cmd: BrowserCommand, pick: u32, e: Env)
    returns (before: seq<UiEvent>, page: seq<UiEvent>)
    requires TabsOk(m) && Possible(m, cmd, pick) && e.storageOk && Speaks(m, cmd)
    ensures var d := Command(m, cmd, pick, e);
      && d.tabs.activeTabId in d.tabs.tabs
      && d.sent == before + [TabsChanged(ListTabs(d.tabs))] + page
      && IsPageOf(d.tabs.tabs[d.tabs.activeTabId].url, e, page)
      && (match cmd
          case NewTab => |before| == 1 && before[0].TabsChanged?
          case SwitchTab(_) =>
            |before| == 2 && before[0].TabsChanged? && before[1] == SetUrlBar(d.tabs.tabs[d.tabs.activeTabId].url)
          case CloseTab(_) =>
            |before| == 2 && before[0].TabsChanged? && before[1] == SetUrlBar(d.tabs.tabs[d.tabs.activeTabId].url)
          case _ => before == [])
  {
    hide Navigating, PageEvents, Closed, GoBack, GoForward, AddTab, SwitchToTab, ListTabs, IsPageOf;
    match cmd {
      case Navigate(url) => page := NavigatingGoes(m, url, true, e);
      case Back =>
        BackKeepsOk(m);
        page := NavigatingGoes(GoBack(m), GoBack(m).tabs[GoBack(m).activeTabId].url, false, e);
      case Forward =>
        ForwardKeepsOk(m);
        page := NavigatingGoes(GoForward(m), GoForward(m).tabs[GoForward(m).activeTabId].url, false, e);
      case Refresh => page := NavigatingGoes(m, m.tabs[m.activeTabId].url, false, e);
      case NewTab =>
        AddKeepsOk(m, HOME, "New Tab", e.now);
        page := NavigatingGoes(AddTab(m, HOME, "New Tab", e.now), HOME, true, e);
      case SwitchTab(id) =>
        SwitchKeepsOk(m, id, e.now);
        page := NavigatingGoes(SwitchToTab(m, id, e.now),
                               SwitchToTab(m, id, e.now).tabs[SwitchToTab(m, id, e.now).activeTabId].url, false, e);
      case CloseTab(id) =>
        CloseKeepsOk(m, id, pick, e.now);
        page := NavigatingGoes(Closed(m, id, pick, e.now),
                               Closed(m, id, pick, e.now).tabs[Closed(m, id, pick, e.now).activeTabId].url, false, e);
    }
    var sent := Command(m, cmd, pick, e).sent;
    before := sent[..|sent| - |page| - 1];
  }

  lemma NavigatingGoes(m: Tabs, url: string, record: bool, e: Env) returns (page: seq<UiEvent>)
    requires TabsOk(m) && e.storageOk && (record || url == m.tabs[m.activeTabId].url)
    ensures var d := Navigating(m, url, record, e);
      && d.sent == [TabsChanged(ListTabs(d.tabs))] + page && IsPageOf(url, e, page)
      && d.tabs.activeTabId in d.tabs.tabs && d.tabs.tabs[d.tabs.activeTabId].url == url
  {
    hide PageEvents, ListTabs, IsPageOf, TitleOf, PushHistory;
    NavigatingKeepsOk(m, url, record, e);
    if record {
      PushKeepsOk(m, url);
    }
    PageEventsFit(url, e);
    page := PageEvents(url, e);
  }

  /** A load is sent exactly for a web address or a host; only one, and directly behind its text in the address bar. */
  lemma LoadsOnce(m: Tabs, url: string, e: Env)
    requires TabsOk(m) && e.storageOk && !StartsWith(url, "sentinel://")
    ensures var sent := Command(m, Navigate(url), 0, e).sent;
      && ((exists i :: 0 <= i < |sent| && sent[i].LoadUrl?) <==> IsWebUrl(Trim(url)) || IsHost(Trim(url)))
      && (forall i :: 0 <= i < |sent| && sent[i].LoadUrl? ==>
            i == |sent| - 1 && i > 0 && sent[i - 1] == SetUrlBar(sent[i].url) && Loads(Trim(url), sent[i].url))
  {
    hide Trim, ListTabs, Loads;
    hide Navigating;
    var page := NavigatingGoes(m, url, true, e);
    var sent := Command(m, Navigate(url), 0, e).sent;
    assert |sent| == 1 + |page| && sent[0].TabsChanged?;
    assert forall i :: 0 < i < |sent| ==> sent[i] == page[i - 1];
    if IsWebUrl(Trim(url)) || IsHost(Trim(url)) {
      assert sent[2] == page[1];
    }
  }

  /** The commands that leave the tabs alone, and what the chrome is told. */
  lemma SettingsAreAnnounced(m: Tabs, cmd: BrowserCommand, pick: u32, e: Env)
    requires TabsOk(m) && Possible(m, cmd, pick)
    requires cmd.ChangeNetwork? || cmd.AddBridge? || cmd.AddV2Ray? || cmd.SetProxyMode? || cmd.SetPrivacy?
    ensures var d := Command(m, cmd, pick, e);
      && d.tabs == m
      && (forall q :: NetworkStatusChanged(q) in d.sent <==> cmd == ChangeNetwork(q) && e.changeOk)
      && (forall port: u16 :: SocksReady(port) in d.sent <==>
            (cmd.ChangeNetwork? && e.changeOk && e.world.socksPort == Some(port)) || cmd == SetProxyMode(true, port))
      && (forall level, rtc, gl, box :: PrivacyUpdated(level, rtc, gl, box) in d.sent <==>
            cmd == SetPrivacy(level, rtc, gl) && box == "Job Object")
      && (|d.sent| == 2 ==> d.sent[0].NetworkStatusChanged? && d.sent[1].SocksReady?) && |d.sent| <= 2
  {
    hide TabsOk;
  }

  // ---------------------------------------------------------------------------------------------------------------
  // Histories
  // ---------------------------------------------------------------------------------------------------------------

  lemma NavigatingVisits(m: Tabs, url: string, record: bool, e: Env)
    requires TabsOk(m) && (record || url == m.tabs[m.activeTabId].url)
    ensures var n := Navigating(m, url, record, e).tabs;
      && TabsOk(n) && n.activeTabId == m.activeTabId
      && Zip(n.tabs[n.activeTabId])
         == if record then Visit(Zip(m.tabs[m.activeTabId]), url) else Zip(m.tabs[m.activeTabId])
  {
    hide PageEvents, ListTabs, TitleOf, Push;
    NavigatingKeepsOk(m, url, record, e);
    if record {
      PushIsVisit(m.tabs[m.activeTabId], url);
    }
  }

  /** The history of the tab that is active after a command, whether the settings can be read or not. */
  lemma HistoryAfter(m: Tabs, cmd: BrowserCommand, pick: u32, e: Env)
    requires TabsOk(m) && Possible(m, cmd, pick)
    ensures var n := Command(m, cmd, pick, e).tabs;
      && TabsOk(n)
      && var was := Zip(m.tabs[m.activeTabId]);
      Zip(n.tabs[n.activeTabId]) ==
        match cmd
        case Navigate(url) => Visit(was, url)
        case Back => if was.back != [] then StepBack(was) else was
        case Forward => if was.forward != [] then StepForward(was) else was
        case NewTab => Zipper([], "sentinel://home", [])
        case SwitchTab(id) => if id in m.tabs then Zip(m.tabs[id]) else was
        case CloseTab(id) =>
          if |m.tabs| <= 1 then Zipper([], "sentinel://home", [])
          else if id == m.activeTabId then Zip(m.tabs[n.activeTabId]) else was
        case _ => was
  {
    CommandKeepsOk(m, cmd, pick, e);
    hide Navigating, ListTabs, Zip;
    match cmd
    case Navigate(url) => NavigatingVisits(m, url, true, e);
    case Back => BackVisits(m, e);
    case Forward => ForwardVisits(m, e);
    case Refresh => NavigatingVisits(m, m.tabs[m.activeTabId].url, false, e);
    case NewTab => NewVisits(m, e);
    case SwitchTab(id) => SwitchVisits(m, id, e);
    case CloseTab(id) => CloseVisits(m, id, pick, e);
    case _ =>
  }

  lemma BackVisits(m: Tabs, e: Env)
    requires TabsOk(m) && TabsOk(Command(m, Back, 0, e).tabs)
    ensures var n, was := Command(m, Back, 0, e).tabs, Zip(m.tabs[m.activeTabId]);
      Zip(n.tabs[n.activeTabId]) == if was.back != [] then StepBack(was) else was
  {
    hide Navigating, ListTabs;
    BackKeepsOk(m);
    NavigatingVisits(GoBack(m), GoBack(m).tabs[GoBack(m).activeTabId].url, false, e);
    if CanGoBack(m) {
      ActiveIsOk(m);
      BackIsStepBack(m.tabs[m.activeTabId]);
    }
  }

  lemma ForwardVisits(m: Tabs, e: Env)
    requires TabsOk(m) && TabsOk(Command(m, Forward, 0, e).tabs)
    ensures var n, was := Command(m, Forward, 0, e).tabs, Zip(m.tabs[m.activeTabId]);
      Zip(n.tabs[n.activeTabId]) == if was.forward != [] then StepForward(was) else was
  {
    hide Navigating, ListTabs;
    ForwardKeepsOk(m);
    NavigatingVisits(GoForward(m), GoForward(m).tabs[GoForward(m).activeTabId].url, false, e);
    if CanGoForward(m) {
      ActiveIsOk(m);
      ForwardIsStepForward(m.tabs[m.activeTabId]);
    }
  }

  lemma ActiveIsOk(m: Tabs)
    requires TabsOk(m)
    ensures TabOk(m.tabs[m.activeTabId])
  {
  }

  lemma NewVisits(m: Tabs, e: Env)
    requires TabsOk(m) && TabsOk(Command(m, NewTab, 0, e).tabs)
    ensures var n := Command(m, NewTab, 0, e).tabs;
      Zip(n.tabs[n.activeTabId]) == Zipper([], "sentinel://home", [])
  {
    hide Navigating, ListTabs;
    AddKeepsOk(m, HOME, "New Tab", e.now);
    NavigatingVisits(AddTab(m, HOME, "New Tab", e.now), HOME, true, e);
  }

  lemma SwitchVisits(m: Tabs, id: u32, e: Env)
    requires TabsOk(m) && TabsOk(Command(m, SwitchTab(id), 0, e).tabs)
    ensures var n := Command(m, SwitchTab(id), 0, e).tabs;
      Zip(n.tabs[n.activeTabId]) == Zip(m.tabs[if id in m.tabs then id else m.activeTabId])
  {
    hide Navigating, ListTabs;
    SwitchKeepsOk(m, id, e.now);
    var n := SwitchToTab(m, id, e.now);
    NavigatingVisits(n, n.tabs[n.activeTabId].url, false, e);
  }

  lemma CloseVisits(m: Tabs, id: u32, pick: u32, e: Env)
    requires TabsOk(m) && CanPick(m, id, pick) && TabsOk(Command(m, CloseTab(id), pick, e).tabs)
    ensures var n := Command(m, CloseTab(id), pick, e).tabs;
      if |m.tabs| <= 1 then Zip(n.tabs[n.activeTabId]) == Zipper([], "sentinel://home", [])
      else n.activeTabId in m.tabs && Zip(n.tabs[n.activeTabId]) == Zip(m.tabs[n.activeTabId])
           && (id != m.activeTabId ==> n.activeTabId == m.activeTabId)
  {
    hide Navigating, ListTabs;
    CloseKeepsOk(m, id, pick, e.now);
    var n := Closed(m, id, pick, e.now);
    NavigatingVisits(n, n.tabs[n.activeTabId].url, false, e);
  }

  // ---------------------------------------------------------------------------------------------------------------
  // The tabs
  // ---------------------------------------------------------------------------------------------------------------

  /** Which tabs there are after a command: no other is opened or closed. */
  lemma TabsAfter(m: Tabs, cmd: BrowserCommand, pick: u32, e: Env)
    requires TabsOk(m) && Possible(m, cmd, pick)
    ensures Command(m, cmd, pick, e).tabs.tabs.Keys ==
      match cmd
      case NewTab => m.tabs.Keys + {m.nextTabId}
      case CloseTab(id) => m.tabs.Keys - {id} + if |m.tabs| <= 1 then {m.nextTabId} else {}
      case _ => m.tabs.Keys
  {
    hide Navigating, ListTabs, Closed, AddTab, SwitchToTab, GoBack, GoForward;
    match cmd
    case Navigate(url) => NavigatingKeepsKeys(m, url, true, e);
    case Back =>
      BackKeepsOk(m);
      SteppingKeepsTabs(m);
      NavigatingKeepsKeys(GoBack(m), GoBack(m).tabs[GoBack(m).activeTabId].url, false, e);
    case Forward =>
      ForwardKeepsOk(m);
      SteppingKeepsTabs(m);
      NavigatingKeepsKeys(GoForward(m), GoForward(m).tabs[GoForward(m).activeTabId].url, false, e);
    case Refresh => NavigatingKeepsKeys(m, m.tabs[m.activeTabId].url, false, e);
    case NewTab =>
      AddKeepsOk(m, HOME, "New Tab", e.now);
      AddedKeys(m, HOME, "New Tab", e.now);
      NavigatingKeepsKeys(AddTab(m, HOME, "New Tab", e.now), HOME, true, e);
    case SwitchTab(id) =>
      SwitchKeepsOk(m, id, e.now);
      SwitchingKeepsTabs(m, id, e.now);
      var n := SwitchToTab(m, id, e.now);
      NavigatingKeepsKeys(n, n.tabs[n.activeTabId].url, false, e);
    case CloseTab(id) =>
      CloseKeepsOk(m, id, pick, e.now);
      ClosedKeys(m, id, pick, e.now);
      var n := Closed(m, id, pick, e.now);
      NavigatingKeepsKeys(n, n.tabs[n.activeTabId].url, false, e);
    case _ =>
  }

  lemma SteppingKeepsTabs(m: Tabs)
    requires TabsOk(m)
    ensures GoBack(m).tabs.Keys == GoForward(m).tabs.Keys == m.tabs.Keys
  {
  }

  lemma SwitchingKeepsTabs(m: Tabs, id: u32, now: nat)
    ensures SwitchToTab(m, id, now).tabs.Keys == m.tabs.Keys
  {
  }

  /** A step of the tabs that leaves this one as it was, unless it is the active one. */
  predicate Spares(m: Tabs, n: Tabs, id: u32) {
    id in m.tabs && id in n.tabs && id != n.activeTabId ==> n.tabs[id] == m.tabs[id]
  }

  lemma NavigatingSpares(m: Tabs, n: Tabs, url: string, record: bool, e: Env, id: u32)
    requires TabsOk(n) && Spares(m, n, id)
    ensures Spares(m, Navigating(n, url, record, e).tabs, id)
    ensures Spares(m, Opened(n, e).tabs, id) && Spares(m, Shown(n, e).tabs, id)
  {
    hide PageEvents, ListTabs, TitleOf, Push;
  }

  /** Whatever the command, no tab but the one active afterwards changes in any way. */
  lemma OthersAreSpared(m: Tabs, cmd: BrowserCommand, pick: u32, e: Env, id: u32)
    requires TabsOk(m) && Possible(m, cmd, pick) && m.nextTabId !in m.tabs
    ensures Spares(m, Command(m, cmd, pick, e).tabs, id)
  {
    assert Spares(m, m, id);
    hide Navigating, Opened, Shown, ListTabs, Closed, AddTab, SwitchToTab, GoBack, GoForward, Spares;
    match cmd
    case Navigate(url) => NavigatingSpares(m, m, url, true, e, id);
    case Back =>
      BackKeepsOk(m);
      SteppingSpares(m, id);
      NavigatingSpares(m, GoBack(m), GoBack(m).tabs[GoBack(m).activeTabId].url, false, e, id);
    case Forward =>
      ForwardKeepsOk(m);
      SteppingSpares(m, id);
      NavigatingSpares(m, GoForward(m), GoForward(m).tabs[GoForward(m).activeTabId].url, false, e, id);
    case Refresh => NavigatingSpares(m, m, m.tabs[m.activeTabId].url, false, e, id);
    case NewTab =>
      AddKeepsOk(m, HOME, "New Tab", e.now);
      AddingSpares(m, m, HOME, "New Tab", e.now, id);
      NavigatingSpares(m, AddTab(m, HOME, "New Tab", e.now), HOME, true, e, id);
    case SwitchTab(other) =>
      SwitchKeepsOk(m, other, e.now);
      SwitchingSpares(m, other, e.now, id);
      NavigatingSpares(m, SwitchToTab(m, other, e.now), HOME, true, e, id);
    case CloseTab(other) =>
      CloseKeepsOk(m, other, pick, e.now);
      ClosingSpares(m, other, pick, e.now, id);
      NavigatingSpares(m, Closed(m, other, pick, e.now), HOME, true, e, id);
    case _ =>
  }

  lemma SteppingSpares(m: Tabs, id: u32)
    requires TabsOk(m)
    ensures Spares(m, GoBack(m), id) && Spares(m, GoForward(m), id)
  {
  }

  lemma SwitchingSpares(m: Tabs, other: u32, now: nat, id: u32)
    ensures Spares(m, SwitchToTab(m, other, now), id)
  {
  }

  lemma AddingSpares(m: Tabs, n: Tabs, url: string, title: string, now: nat, id: u32)
    requires id in m.tabs && id in n.tabs ==> n.tabs[id] == m.tabs[id]
    requires n.nextTabId !in m.tabs
    ensures Spares(m, AddTab(n, url, title, now), id)
  {
  }

  lemma ClosingSpares(m: Tabs, other: u32, pick: u32, now: nat, id: u32)
    requires m.nextTabId !in m.tabs
    ensures Spares(m, Closed(m, other, pick, now), id)
  {
    hide AddTab;
    AddingSpares(m, RemoveTab(m, other, pick), HOME, "New Tab", now, id);
  }

  /** The command opens its active tab or switches to it. */
  predicate Activates(m: Tabs, cmd: BrowserCommand) {
    || cmd.NewTab?
    || (cmd.SwitchTab? && cmd.tab in m.tabs)
    || (cmd.CloseTab? && |m.tabs| <= 1)
  }

  lemma NavigatingKeepsTime(m: Tabs, url: string, record: bool, e: Env)
    requires TabsOk(m)
    ensures var n := Navigating(m, url, record, e).tabs;
      n.activeTabId in n.tabs && n.tabs[n.activeTabId].lastActive == m.tabs[m.activeTabId].lastActive
  {
    hide PageEvents, ListTabs, TitleOf;
  }

  /** The time kept of the active tab: that of the command when it opened it or switched to it, else what it was. */
  lemma TimeAfter(m: Tabs, cmd: BrowserCommand, pick: u32, e: Env)
    requires TabsOk(m) && Possible(m, cmd, pick)
    ensures var n := Command(m, cmd, pick, e).tabs;
      && n.activeTabId in n.tabs
      && (Activates(m, cmd) ==> n.tabs[n.activeTabId].lastActive == e.now)
      && (!Activates(m, cmd) ==>
            n.activeTabId in m.tabs && n.tabs[n.activeTabId].lastActive == m.tabs[n.activeTabId].lastActive)
  {
    hide Navigating, ListTabs;
    match cmd
    case Navigate(url) => QuietTime(m, cmd, e);
    case Back => QuietTime(m, cmd, e);
    case Forward => QuietTime(m, cmd, e);
    case Refresh => QuietTime(m, cmd, e);
    case NewTab =>
      AddKeepsOk(m, HOME, "New Tab", e.now);
      NavigatingKeepsTime(AddTab(m, HOME, "New Tab", e.now), HOME, true, e);
      NavigatingKeepsActive(AddTab(m, HOME, "New Tab", e.now), HOME, true, e);
    case SwitchTab(id) =>
      SwitchKeepsOk(m, id, e.now);
      var n := SwitchToTab(m, id, e.now);
      NavigatingKeepsTime(n, n.tabs[n.activeTabId].url, false, e);
      NavigatingKeepsActive(n, n.tabs[n.activeTabId].url, false, e);
    case CloseTab(id) => CloseTime(m, id, pick, e);
    case _ =>
  }

  lemma CloseTime(m: Tabs, id: u32, pick: u32, e: Env)
    requires TabsOk(m) && CanPick(m, id, pick)
    ensures var n := Command(m, CloseTab(id), pick, e).tabs;
      && n.activeTabId in n.tabs
      && (|m.tabs| <= 1 ==> n.tabs[n.activeTabId].lastActive == e.now)
      && (|m.tabs| > 1 ==>
            n.activeTabId in m.tabs && n.tabs[n.activeTabId].lastActive == m.tabs[n.activeTabId].lastActive)
  {
    hide Navigating, ListTabs;
    CloseKeepsOk(m, id, pick, e.now);
    var n := Closed(m, id, pick, e.now);
    NavigatingKeepsTime(n, n.tabs[n.activeTabId].url, false, e);
    NavigatingKeepsActive(n, n.tabs[n.activeTabId].url, false, e);
  }

  lemma QuietTime(m: Tabs, cmd: BrowserCommand, e: Env)
    requires TabsOk(m) && (cmd.Navigate? || cmd.Back? || cmd.Forward? || cmd.Refresh?)
    ensures var n := Command(m, cmd, 0, e).tabs;
      && n.activeTabId in n.tabs && n.activeTabId == m.activeTabId
      && n.tabs[n.activeTabId].lastActive == m.tabs[n.activeTabId].lastActive
  {
    hide Navigating, ListTabs;
    match cmd
    case Navigate(url) =>
      NavigatingKeepsTime(m, url, true, e);
      NavigatingKeepsActive(m, url, true, e);
    case Back =>
      BackKeepsOk(m);
      NavigatingKeepsTime(GoBack(m), GoBack(m).tabs[GoBack(m).activeTabId].url, false, e);
      NavigatingKeepsActive(GoBack(m), GoBack(m).tabs[GoBack(m).activeTabId].url, false, e);
    case Forward =>
      ForwardKeepsOk(m);
      NavigatingKeepsTime(GoForward(m), GoForward(m).tabs[GoForward(m).activeTabId].url, false, e);
      NavigatingKeepsActive(GoForward(m), GoForward(m).tabs[GoForward(m).activeTabId].url, false, e);
    case Refresh =>
      NavigatingKeepsTime(m, m.tabs[m.activeTabId].url, false, e);
      NavigatingKeepsActive(m, m.tabs[m.activeTabId].url, false, e);
    case _ =>
  }

  /** An internal page is called by its path, up to the query; any other address by its first 32 characters. */
  predicate IsTitleOf(url: string, title: string) {
    if StartsWith(url, "sentinel://") then
      && '?' !in title
      && StartsWith(url[11..], title)
      && (|url| == 11 + |title| || url[11 + |title|] == '?')
    else StartsWith(url, title) && |title| == if |url| <= 32 then |url| else 32
  }

  lemma TitleFits(url: string)
    ensures IsTitleOf(url, TitleOf(url))
  {
    if IsInternal(url) {
      FirstPiece(url[11..]);
    }
  }

  lemma FirstPiece(s: string)
    ensures var title := Split(s, "?")[0];
      '?' !in title && StartsWith(s, title) && (|s| == |title| || s[|title|] == '?')
  {
    match Find(s, "?") {
      case Some(i) =>
        if '?' in s[..i] {
          var k: nat :| k < i && s[k] == '?';
          assert OccursAt(s, "?", k);
          FindIsFirst(s, "?", k);
        }
      case None =>
        if '?' in s {
          var k: nat :| k < |s| && s[k] == '?';
          assert OccursAt(s, "?", k);
          FindIsFirst(s, "?", k);
        }
    }
  }

  lemma NavigatingTitles(m: Tabs, url: string, record: bool, e: Env)
    requires TabsOk(m)
    ensures var n := Navigating(m, url, record, e).tabs;
      && n.activeTabId in n.tabs && n.activeTabId == m.activeTabId
      && (if e.storageOk then n.tabs[n.activeTabId].url == url && IsTitleOf(url, n.tabs[n.activeTabId].title)
          else n.tabs[n.activeTabId].title == m.tabs[m.activeTabId].title)
  {
    hide PageEvents, ListTabs, TitleOf, IsTitleOf;
    TitleFits(url);
  }

  /** After any command that navigates with readable settings, the active tab is titled after its address. */
  lemma TitleAfter(m: Tabs, cmd: BrowserCommand, pick: u32, e: Env)
    requires TabsOk(m) && Possible(m, cmd, pick) && e.storageOk && Speaks(m, cmd)
    ensures var n := Command(m, cmd, pick, e).tabs;
      n.activeTabId in n.tabs && IsTitleOf(n.tabs[n.activeTabId].url, n.tabs[n.activeTabId].title)
  {
    hide Navigating, ListTabs, IsTitleOf, Closed, AddTab, SwitchToTab, GoBack, GoForward;
    match cmd
    case Navigate(url) => NavigatingTitles(m, url, true, e);
    case Back =>
      BackKeepsOk(m);
      NavigatingTitles(GoBack(m), GoBack(m).tabs[GoBack(m).activeTabId].url, false, e);
    case Forward =>
      ForwardKeepsOk(m);
      NavigatingTitles(GoForward(m), GoForward(m).tabs[GoForward(m).activeTabId].url, false, e);
    case Refresh => NavigatingTitles(m, m.tabs[m.activeTabId].url, false, e);
    case NewTab =>
      AddKeepsOk(m, HOME, "New Tab", e.now);
      NavigatingTitles(AddTab(m, HOME, "New Tab", e.now), HOME, true, e);
    case SwitchTab(id) =>
      SwitchKeepsOk(m, id, e.now);
      var n := SwitchToTab(m, id, e.now);
      NavigatingTitles(n, n.tabs[n.activeTabId].url, false, e);
    case CloseTab(id) =>
      CloseKeepsOk(m, id, pick, e.now);
      var n := Closed(m, id, pick, e.now);
      NavigatingTitles(n, n.tabs[n.activeTabId].url, false, e);
    case _ =>
  }

  // ---------------------------------------------------------------------------------------------------------------
  // The strip and the pass over idle tabs
  // ---------------------------------------------------------------------------------------------------------------

  lemma {:induction false} Ascending(v: seq<TabInfo>, i: nat, j: nat)
    requires ById(v) && i < j < |v|
    ensures v[i].id < v[j].id
  {
    if i == 0 {
      assert v[j] in v[1..] by {
        assert v[j] == v[1..][j - 1];
      }
    } else {
      Ascending(v[1..], i - 1, j - 1);
    }
  }

  /** The strip tells of these tabs: each once, by ascending id, with its title and address, the active one marked. */
  ghost predicate Tells(strip: seq<TabInfo>, m: Tabs) {
    && (forall i, j :: 0 <= i < j < |strip| ==> strip[i].id < strip[j].id)
    && (forall id :: id in m.tabs <==> exists i :: 0 <= i < |strip| && strip[i].id == id)
    && (forall i :: 0 <= i < |strip| && strip[i].id in m.tabs ==>
          && strip[i].title == m.tabs[strip[i].id].title
          && strip[i].url == m.tabs[strip[i].id].url
          && (strip[i].active <==> strip[i].id == m.activeTabId))
  }

  lemma StripTells(m: Tabs)
    requires TabsOk(m)
    ensures Tells(ListTabs(m), m)
  {
    StripIsSorted(m, m.tabs.Keys);
    var strip := ListTabs(m);
    hide ListTabs, ById;
    forall i, j | 0 <= i < j < |strip| ensures strip[i].id < strip[j].id {
      Ascending(strip, i, j);
    }
    forall id | id in m.tabs ensures exists i :: 0 <= i < |strip| && strip[i].id == id {
      assert Info(m, id) in strip;
    }
    forall i | 0 <= i < |strip|
      ensures strip[i].id in m.tabs && strip[i] == Info(m, strip[i].id)
    {
      assert strip[i] in strip;
    }
  }

  /** A pass puts to sleep exactly the tabs idle for more than the threshold in whole seconds, nothing else changes. */
  lemma PassSuspendsIff(m: Tabs, seconds: nat, now: nat, id: u32)
    requires id in m.tabs
    ensures var n := SuspendInactive(m, seconds, now);
      && n.tabs.Keys == m.tabs.Keys && n.activeTabId == m.activeTabId && n.nextTabId == m.nextTabId
      && n.tabs[id] == m.tabs[id].(isSuspended := n.tabs[id].isSuspended)
      && (n.tabs[id].isSuspended <==>
            m.tabs[id].isSuspended
            || (id != m.activeTabId && now >= m.tabs[id].lastActive + (seconds + 1) * 1_000_000_000))
  {
  }

  /** What the core starts with: one tab, on the welcome page. */
  lemma FirstTabsAre(now: nat)
    ensures var m := FirstTabs(now);
      && m.tabs.Keys == {0} && m.activeTabId == 0 && m.nextTabId == 1
      && m.tabs[0] == Tab(0, "sentinel://welcome", "New Tab", now, false, None, ["sentinel://welcome"], 0)
  {
  }

  /** A tab opened when the settings cannot be read is new in every respect. */
  lemma NewTabIsNew(m: Tabs, e: Env)
    requires TabsOk(m) && !e.storageOk
    ensures var n := Command(m, NewTab, 0, e).tabs;
      && n.activeTabId == m.nextTabId && m.nextTabId in n.tabs
      && n.tabs[m.nextTabId]
         == Tab(m.nextTabId, "sentinel://home", "New Tab", e.now, false, None, ["sentinel://home"], 0)
  {
    hide ListTabs;
    AddKeepsOk(m, HOME, "New Tab", e.now);
    CutShort(AddTab(m, HOME, "New Tab", e.now), HOME, true, e);
  }
}
