/**
 The internal pages: which arm of the `sentinel://` dispatcher a URL reaches, what that arm calls and sends, and the
 redirect loop around it. Calls into storage, network and search are recorded; the ones whose error ends the request
 may fail, at any point.
 */
module Dispatcher {
  import opened Words
  import opened Wrappers
  import opened Text
  import opened Messages
  import Percent

  datatype Route =
    | ToHome | ToStatus | ToConnect | ToSettings | ToGovernance | ToDapps | ToDesign | ToPrototype | ToNetworkMenu
    | ToBookmarks | ToHistory | DoClearHistory | DoToggleHistory | DoToggleSecurity
    | DoAllowSite | DoVote | DoSearch | DoAddBookmark | DoNetwork | DoAddObfs4 | DoAddSnowflake
    | DoAddVmess | DoAddVless | DoAddTrojan | DoSaveProfile | DoSwitchProfile
    | DoInstallPt | DoConnectTest | DoDownload | ToDownloadComplete | ToDownloads | ToSecurity | Unknown

  /** The arms are tried in this order: exact addresses, then prefixes, then the remaining ones. */
  function RouteOf(u: string): Route {
    match FixedPage(u)
    case Some(r) => r
    case None =>
      match Action(u)
      case Some(r) => r
      case None => LateRoute(u)
  }

  function FixedPage(u: string): Option<Route> {
    if u == "sentinel://welcome" || u == "sentinel://newtab" || u == "sentinel://home" then Some(ToHome)
    else if u == "sentinel://status" then Some(ToStatus)
    else if u == "sentinel://connect" then Some(ToConnect)
    else if u == "sentinel://settings" then Some(ToSettings)
    else if u == "sentinel://governance" then Some(ToGovernance)
    else if u == "sentinel://dapps" then Some(ToDapps)
    else if u == "sentinel://design" then Some(ToDesign)
    else if u == "sentinel://prototype" then Some(ToPrototype)
    else if u == "sentinel://network_menu" then Some(ToNetworkMenu)
    else if u == "sentinel://bookmarks" then Some(ToBookmarks)
    else if u == "sentinel://history" then Some(ToHistory)
    else if u == "sentinel://clear_history" then Some(DoClearHistory)
    else if u == "sentinel://toggle_history" then Some(DoToggleHistory)
    else if u == "sentinel://toggle_security" then Some(DoToggleSecurity)
    else None
  }

  function Action(u: string): Option<Route> {
    if StartsWith(u, "sentinel://allow_site") then Some(DoAllowSite)
    else if StartsWith(u, "sentinel://vote") then Some(DoVote)
    else if StartsWith(u, "sentinel://search") then Some(DoSearch)
    else if StartsWith(u, "sentinel://add_bookmark") then Some(DoAddBookmark)
    else if StartsWith(u, "sentinel://network") then Some(DoNetwork)
    else if StartsWith(u, "sentinel://add_bridge_obfs4") then Some(DoAddObfs4)
    else if StartsWith(u, "sentinel://add_bridge_snowflake") then Some(DoAddSnowflake)
    else if StartsWith(u, "sentinel://connect_add_vmess") then Some(DoAddVmess)
    else if StartsWith(u, "sentinel://connect_add_vless") then Some(DoAddVless)
    else if StartsWith(u, "sentinel://connect_add_trojan") then Some(DoAddTrojan)
    else if StartsWith(u, "sentinel://connect_save_profile") then Some(DoSaveProfile)
    else if StartsWith(u, "sentinel://connect_switch") then Some(DoSwitchProfile)
    else None
  }

  function LateRoute(u: string): Route {
    if u == "sentinel://install_pt" then DoInstallPt
    else if u == "sentinel://connect_test" then DoConnectTest
    else if StartsWith(u, "sentinel://download?") then DoDownload
    else if StartsWith(u, "sentinel://download_complete") then ToDownloadComplete
    else if u == "sentinel://downloads" then ToDownloads
    else if u == "sentinel://security" then ToSecurity
    else Unknown
  }

  lemma DoIsNotFixed(u: string)
    requires |u| > 13 && u[11] == 'd' && u[12] == 'o'
    ensures FixedPage(u) == None
  {
  }

  lemma NotPrefix(u: string, p: string, i: nat)
    requires i < |u| && i < |p| && u[i] != p[i]
    ensures !StartsWith(u, p)
  {
  }

  lemma DoIsNotAction(u: string)
    requires |u| > 13 && u[11] == 'd'
    ensures Action(u) == None
  {
    NotPrefix(u, "sentinel://allow_site", 11);
    NotPrefix(u, "sentinel://vote", 11);
    NotPrefix(u, "sentinel://search", 11);
    NotPrefix(u, "sentinel://add_bookmark", 11);
    NotPrefix(u, "sentinel://network", 11);
    NotPrefix(u, "sentinel://add_bridge_obfs4", 11);
    NotPrefix(u, "sentinel://add_bridge_snowflake", 11);
    NotPrefix(u, "sentinel://connect_add_vmess", 11);
    NotPrefix(u, "sentinel://connect_add_vless", 11);
    NotPrefix(u, "sentinel://connect_add_trojan", 11);
    NotPrefix(u, "sentinel://connect_save_profile", 11);
    NotPrefix(u, "sentinel://connect_switch", 11);
  }

  lemma CompleteIsTerminal(file: string)
    ensures RouteOf("sentinel://download_complete?file=" + file) == ToDownloadComplete
  {
    var p := "sentinel://download_complete";
    var u := "sentinel://download_complete?file=" + file;
    assert u == p + "?file=" + file;
    assert u[11] == p[11] == 'd' && u[12] == p[12] == 'o' && u[19] == p[19] == '_';
    DoIsNotFixed(u);
    DoIsNotAction(u);
    assert u[..|p|] == p;
    NotPrefix(u, "sentinel://download?", 19);
    assert |u| > 23;
  }

  // ---------------------------------------------------------------------------------------------------------------
  // Parameters
  // ---------------------------------------------------------------------------------------------------------------

  /** What follows the first '?', up to a second one. */
  function Query(u: string): string {
    SecondPart(u, "?", "")
  }

  /** The value a `key=value` part gives to `key`: what stands between the first '=' and a second one. */
  function PartValue(part: string, key: string): Option<string> {
    var kv := Split(part, "=");
    if |kv| > 1 && kv[0] == key then Some(kv[1]) else None
  }

  /** The value of `key` over all parts: the last one given, or the default. */
  function LastValue(parts: seq<string>, key: string, default: string): string {
    if parts == [] then default
    else match PartValue(parts[|parts| - 1], key)
      case Some(v) => v
      case None => LastValue(parts[..|parts| - 1], key, default)
  }

  function Param(u: string, key: string, default: string): string {
    LastValue(Split(Query(u), "&"), key, default)
  }

  /** The loop every arm with parameters runs over the parts of its query. */
  method ReadParam(parts: seq<string>, key: string, default: string) returns (value: string)
    ensures value == LastValue(parts, key, default)
  {
    value := default;
    for i := 0 to |parts|
      invariant value == LastValue(parts[..i], key, default)
    {
      var kv := Split(parts[i], "=");
      if |kv| > 1 && kv[0] == key {
        value := kv[1];
      }
      assert parts[..i + 1][..i] == parts[..i];
    }
    assert parts[..|parts|] == parts;
  }

  function Digits(s: string): Option<nat> {
    if s == [] then Some(0)
    else
      var c := s[|s| - 1];
      if !('0' <= c <= '9') then None
      else match Digits(s[..|s| - 1])
        case None => None
        case Some(n) => Some(10 * n + (c as int - '0' as int))
  }

  /** `parse().unwrap_or(0)` for an unsigned integer with the given maximum; a leading '+' is accepted. */
  function ParseOrZero(s: string, max: nat): nat {
    var digits := if s != [] && s[0] == '+' then s[1..] else s;
    match Digits(digits)
    case Some(n) => if digits != [] && n <= max then n else 0
    case None => 0
  }

  // ---------------------------------------------------------------------------------------------------------------
  // What each arm does
  // ---------------------------------------------------------------------------------------------------------------

  /** A call out of the dispatcher. */
  datatype Op =
    | GetSetting(name: string) | GetBookmarks | GetHistory | GetDownloads | GetStatus | ListProfiles | ListProposals
    | SetSetting(key: string, value: string) | ClearHistory | SetSecurityLevel(level: string) | Harden
    | AddAllowlist(host: string) | CastVote(id: nat, approve: bool) | RunSearch(text: string)
    | StoreBookmark(url: string, title: string) | SetProtocol(protocol: Protocol) | StoreBridge(bridge: TorBridge)
    | StoreV2Ray(config: V2RayConfig) | StoreProfile(profile: string, of: Protocol) | UseProfile(named: string)
    | Install | TestConnection | Fetch(address: string) | StoreDownload(from: string, file: string, saved: bool)

  /** Calls whose error ends the request. */
  predicate Fallible(op: Op) {
    op.GetSetting? || op.GetDownloads? || op.SetSetting? || op.ClearHistory? || op.SetSecurityLevel?
    || op.AddAllowlist? || op.RunSearch? || op.StoreBookmark? || op.SetProtocol? || op.StoreBridge?
    || op.StoreV2Ray? || op.StoreProfile? || op.UseProfile? || (op.StoreDownload? && op.saved)
  }

  /** Calls that only read. */
  predicate ReadOnly(op: Op) {
    op.GetSetting? || op.GetBookmarks? || op.GetHistory? || op.GetDownloads? || op.GetStatus? || op.ListProfiles?
    || op.ListProposals?
  }

  datatype Step = Do(op: Op) | Send(event: UiEvent)

  datatype Next = Show(page: Page) | Goto(target: string)

  datatype PagePlan = PagePlan(steps: seq<Step>, next: Next)

  /** What the arms find around them: settings, the machine, and how a download went. */
  datatype World = World(
    historyEnabled: string, securityLevel: string, protocol: Protocol, socksPort: Option<u16>,
    v2rayReady: bool, v2rayUuid: string, snowflakeAvailable: bool,
    downloaded: Option<string>)

  function NextLevel(level: string): string {
    if level == "Standard" then "Strict" else if level == "Strict" then "Paranoid" else "Standard"
  }

  /** `handle_network_change`. */
  function ChangeSteps(protocol: Protocol, socksPort: Option<u16>): seq<Step> {
    [Do(SetProtocol(protocol)), Send(NetworkStatusChanged(protocol))]
    + if socksPort.Some? then [Send(SocksReady(socksPort.value))] else []
  }

  function NetworkPlan(kind: string, w: World): PagePlan {
    if kind == "v2ray" then
      if !w.v2rayReady then PagePlan([Do(ListProfiles)], Show(V2RayUnavailable))
      else PagePlan(ChangeSteps(V2Ray(VLESS(w.v2rayUuid, "none", "")), w.socksPort), Goto("sentinel://status"))
    else if kind == "clear" then PagePlan(ChangeSteps(Clearweb, w.socksPort), Goto("sentinel://status"))
    else if kind == "snowflake" && w.snowflakeAvailable then
      var bridge := Snowflake("https://snowflake-broker.torproject.net/", "snowflake.torproject.net");
      PagePlan(ChangeSteps(Tor(bridge), w.socksPort), Goto("sentinel://status"))
    else if kind == "i2p" || kind == "wireguard" then PagePlan([], Show(NotAvailable))
    else PagePlan(ChangeSteps(Tor(NoBridge), w.socksPort), Goto("sentinel://status"))
  }

  function DownloadAddress(u: string): string {
    Percent.Decoded(Percent.SpacesForPluses(SecondPart(u, "?url=", "")))
  }

  function DownloadPlan(u: string, w: World): PagePlan {
    var from := DownloadAddress(u);
    if from == "" || !IsWebUrl(from) then PagePlan([], Show(DownloadError))
    else match w.downloaded
      case Some(file) =>
        PagePlan([Do(Fetch(from)), Do(StoreDownload(from, file, true))],
                 Goto("sentinel://download_complete?file=" + file))
      case None =>
        var parts := Split(from, "/");
        PagePlan([Do(Fetch(from)), Do(StoreDownload(from, parts[|parts| - 1], false))], Show(DownloadError))
  }

  function VotePlan(u: string): PagePlan {
    var id := ParseOrZero(Param(u, "id", "0"), U64 - 1);
    if id == 0 then PagePlan([], Show(Vote(u)))
    else PagePlan([Do(CastVote(id, Param(u, "approve", "true") == "true"))], Show(Vote(u)))
  }

  /** The arms that read what they need and render it. */
  predicate Renders(r: Route) {
    r.ToHome? || r.ToStatus? || r.ToConnect? || r.ToSettings? || r.ToGovernance? || r.ToDapps? || r.ToDesign?
    || r.ToPrototype? || r.ToNetworkMenu? || r.ToBookmarks? || r.ToHistory? || r.ToDownloadComplete?
    || r.ToDownloads? || r.ToSecurity? || r.Unknown?
  }

  function RenderPlan(r: Route, u: string): PagePlan {
    match r
    case ToHome => PagePlan([Do(GetSetting("theme")), Do(GetSetting("search_engine"))], Show(Home))
    case ToStatus => PagePlan([Do(GetStatus)], Show(Status))
    case ToConnect => PagePlan([Do(GetStatus), Do(ListProfiles)], Show(Connect))
    case ToSettings =>
      PagePlan([Do(GetSetting("theme")), Do(GetSetting("search_engine")), Do(GetSetting("history_enabled")),
                Do(GetSetting("security_level"))], Show(Settings))
    case ToGovernance => PagePlan([Do(ListProposals)], Show(Governance))
    case ToDapps => PagePlan([], Show(Dapps))
    case ToDesign => PagePlan([], Show(Design))
    case ToPrototype => PagePlan([], Show(Prototype))
    case ToNetworkMenu => PagePlan([], Show(NetworkMenu))
    case ToBookmarks => PagePlan([Do(GetBookmarks)], Show(Bookmarks))
    case ToHistory => PagePlan([Do(GetHistory)], Show(History))
    case ToDownloadComplete =>
      PagePlan([], Show(DownloadComplete(SecondPart(u, "?file=", "document.pdf"))))
    case ToDownloads => PagePlan([Do(GetDownloads)], Show(Downloads))
    case ToSecurity => PagePlan([Do(GetSetting("security_level"))], Show(Security))
    case _ => PagePlan([], Show(NotFound))
  }

  /** The arms that store something; most redirect to the page that shows the result. */
  function StorePlan(r: Route, u: string, w: World): PagePlan {
    match r
    case DoClearHistory => PagePlan([Do(ClearHistory)], Goto("sentinel://history"))
    case DoToggleHistory =>
      PagePlan([Do(GetSetting("history_enabled")),
                Do(SetSetting("history_enabled", if w.historyEnabled == "true" then "false" else "true"))],
               Goto("sentinel://settings"))
    case DoAllowSite =>
      var host := SecondPart(u, "?host=", "");
      PagePlan(if host != "" then [Do(AddAllowlist(host))] else [], Goto("sentinel://settings"))
    case DoAddBookmark =>
      PagePlan([Do(StoreBookmark(Param(u, "url", ""), Param(u, "title", "")))], Goto("sentinel://bookmarks"))
    case DoAddObfs4 =>
      PagePlan([Do(StoreBridge(Obfs4(Param(u, "addr", ""), Param(u, "cert", ""),
                                     ParseOrZero(Param(u, "iat_mode", "0"), 255))))],
               Goto("sentinel://network_menu"))
    case DoAddSnowflake =>
      PagePlan([Do(StoreBridge(Snowflake(Param(u, "broker", ""), Param(u, "relay", ""))))],
               Goto("sentinel://network_menu"))
    case DoAddVmess =>
      PagePlan([Do(StoreV2Ray(VMess(Param(u, "uuid", ""), ParseOrZero(Param(u, "alterId", "0"), U32 - 1),
                                    Param(u, "security", ""))))],
               Goto("sentinel://connect"))
    case DoAddVless =>
      PagePlan([Do(StoreV2Ray(VLESS(Param(u, "uuid", ""), Param(u, "encryption", ""), Param(u, "flow", ""))))],
               Goto("sentinel://connect"))
    case DoAddTrojan =>
      PagePlan([Do(StoreV2Ray(Trojan(Param(u, "password", ""))))], Goto("sentinel://connect"))
    case DoSaveProfile =>
      PagePlan([Do(StoreProfile(Param(u, "name", "Profile"), w.protocol))], Goto("sentinel://connect"))
    case DoSwitchProfile =>
      PagePlan([Do(UseProfile(Param(u, "name", "")))], Goto("sentinel://connect"))
    case DoConnectTest => PagePlan([Do(TestConnection)], Goto("sentinel://connect"))
    case _ => PagePlan([Do(Install)], Show(PtInstall))
  }

  function SecurityPlan(w: World): PagePlan {
    var next := NextLevel(w.securityLevel);
    PagePlan([Do(GetSetting("security_level")), Do(SetSetting("security_level", next)),
              Do(SetSecurityLevel(next)), Do(Harden),
              Send(PrivacyUpdated(next, true, next != "Standard", "Job Object"))],
             Goto("sentinel://settings"))
  }

  function SearchPlan(u: string): PagePlan {
    var text := SecondPart(u, "?q=", "");
    PagePlan([Do(RunSearch(text))], Show(SearchResults(text)))
  }

  function Plan(u: string, w: World): PagePlan {
    var r := RouteOf(u);
    if Renders(r) then RenderPlan(r, u)
    else match r
      case DoToggleSecurity => SecurityPlan(w)
      case DoVote => VotePlan(u)
      case DoSearch => SearchPlan(u)
      case DoNetwork => NetworkPlan(Param(u, "type", "tor"), w)
      case DoDownload => DownloadPlan(u, w)
      case _ => StorePlan(r, u, w)
  }

  // ---------------------------------------------------------------------------------------------------------------
  // Serving a request
  // ---------------------------------------------------------------------------------------------------------------

  datatype Outcome = Outcome(ops: seq<Op>, sent: seq<UiEvent>, ok: bool)

  /** Call number `n` of the request fails when it can and `failAt` says so. */
  predicate Fails(op: Op, n: nat, failAt: Option<nat>) {
    Fallible(op) && failAt == Some(n)
  }

  /** The steps of an arm, up to the first call that fails; `n` calls were made before. */
  function Exec(steps: seq<Step>, n: nat, failAt: Option<nat>): Outcome {
    if steps == [] then Outcome([], [], true)
    else match steps[0]
      case Send(ev) =>
        var rest := Exec(steps[1..], n, failAt);
        Outcome(rest.ops, [ev] + rest.sent, rest.ok)
      case Do(op) =>
        if Fails(op, n, failAt) then Outcome([op], [], false)
        else
          var rest := Exec(steps[1..], n + 1, failAt);
          Outcome([op] + rest.ops, rest.sent, rest.ok)
  }

  function Serve(u: string, w: World, n: nat, failAt: Option<nat>): Outcome
    decreases if Plan(u, w).next.Goto? then 1 else 0
  {
    var plan := Plan(u, w);
    var first := Exec(plan.steps, n, failAt);
    if !first.ok then first
    else match plan.next
      case Show(page) => first.(sent := first.sent + [LoadHtml(page)])
      case Goto(target) =>
        RedirectLands(u, w);
        var rest := Serve(target, w, n + |first.ops|, failAt);
        Outcome(first.ops + rest.ops, first.sent + rest.sent, rest.ok)
  }

  lemma RedirectTargets()
    ensures RouteOf("sentinel://settings") == ToSettings
    ensures RouteOf("sentinel://history") == ToHistory
    ensures RouteOf("sentinel://bookmarks") == ToBookmarks
    ensures RouteOf("sentinel://status") == ToStatus
    ensures RouteOf("sentinel://network_menu") == ToNetworkMenu
    ensures RouteOf("sentinel://connect") == ToConnect
  {
  }

  predicate OnlyReads(steps: seq<Step>) {
    forall s :: s in steps ==> s.Do? && ReadOnly(s.op)
  }

  lemma RenderingArms(r: Route, u: string)
    requires Renders(r)
    ensures RenderPlan(r, u).next.Show? && OnlyReads(RenderPlan(r, u).steps)
  {
  }

  lemma StoringTargets(r: Route, u: string, w: World)
    ensures var next := StorePlan(r, u, w).next;
      next.Goto? ==> next.target in {"sentinel://settings", "sentinel://history", "sentinel://bookmarks",
                                     "sentinel://network_menu", "sentinel://connect"}
  {
    hide Param, SecondPart, ParseOrZero;
  }

  /** The addresses a handler may redirect to. */
  predicate IsTarget(target: string) {
    || target in {"sentinel://settings", "sentinel://history", "sentinel://bookmarks", "sentinel://status",
                  "sentinel://network_menu", "sentinel://connect"}
    || StartsWith(target, "sentinel://download_complete?file=")
  }

  lemma PlanTargets(u: string, w: World)
    requires Plan(u, w).next.Goto?
    ensures IsTarget(Plan(u, w).next.target)
  {
    hide RouteOf, StorePlan, RenderPlan, Param, SecondPart, Split, ParseOrZero;
    var r := RouteOf(u);
    StoringTargets(r, u, w);
    if Renders(r) {
      RenderingArms(r, u);
    }
  }

  lemma TargetRenders(target: string)
    requires IsTarget(target)
    ensures Renders(RouteOf(target))
  {
    hide RouteOf;
    RedirectTargets();
    var p := "sentinel://download_complete?file=";
    if StartsWith(target, p) {
      assert target == p + target[|p|..];
      CompleteIsTerminal(target[|p|..]);
    }
  }

  /** Every redirect leads to an arm that renders a page, and that only reads on the way. */
  lemma RedirectLands(u: string, w: World)
    ensures var next := Plan(u, w).next;
      next.Goto? ==> Plan(next.target, w).next.Show? && OnlyReads(Plan(next.target, w).steps)
  {
    hide RouteOf, RenderPlan, IsTarget;
    var next := Plan(u, w).next;
    if next.Goto? {
      PlanTargets(u, w);
      TargetRenders(next.target);
      RenderingArms(RouteOf(next.target), next.target);
    }
  }

  function CountHtml(sent: seq<UiEvent>): nat {
    if sent == [] then 0 else (if sent[|sent| - 1].LoadHtml? then 1 else 0) + CountHtml(sent[..|sent| - 1])
  }

  lemma {:induction false} CountHtmlAppend(a: seq<UiEvent>, b: seq<UiEvent>)
    ensures CountHtml(a + b) == CountHtml(a) + CountHtml(b)
  {
    if b == [] {
      assert a + b == a;
    } else {
      assert (a + b)[..|a + b| - 1] == a + b[..|b| - 1];
      CountHtmlAppend(a, b[..|b| - 1]);
    }
  }

  /** Neither a page nor a strip is sent before the end of a request. */
  predicate Quiet(ev: UiEvent) {
    !ev.LoadHtml? && !ev.TabsChanged? && !ev.LoadUrl?
  }

  predicate QuietSteps(steps: seq<Step>) {
    forall s :: s in steps && s.Send? ==> Quiet(s.event)
  }

  lemma NetworkPlanIsQuiet(kind: string, w: World)
    ensures QuietSteps(NetworkPlan(kind, w).steps)
  {
  }

  lemma StorePlanIsQuiet(r: Route, u: string, w: World)
    ensures QuietSteps(StorePlan(r, u, w).steps)
  {
    hide Param, SecondPart, ParseOrZero;
  }

  lemma PlansAreQuiet(u: string, w: World)
    ensures QuietSteps(Plan(u, w).steps)
  {
    var r := RouteOf(u);
    hide RouteOf, Param, SecondPart, NetworkPlan, StorePlan, RenderPlan;
    if Renders(r) {
      RenderingArms(r, u);
    } else {
      NetworkPlanIsQuiet(Param(u, "type", "tor"), w);
      StorePlanIsQuiet(r, u, w);
    }
  }

  lemma {:induction false} ExecSendsPlanned(steps: seq<Step>, n: nat, failAt: Option<nat>)
    requires QuietSteps(steps)
    ensures forall ev :: ev in Exec(steps, n, failAt).sent ==> Quiet(ev)
  {
    if steps != [] {
      assert steps[0] in steps && forall s :: s in steps[1..] ==> s in steps;
      ExecSendsPlanned(steps[1..], n, failAt);
      ExecSendsPlanned(steps[1..], n + 1, failAt);
    }
  }

  lemma {:induction false} QuietHasNoHtml(sent: seq<UiEvent>)
    requires forall ev :: ev in sent ==> Quiet(ev)
    ensures CountHtml(sent) == 0
  {
    if sent != [] {
      assert sent[|sent| - 1] in sent;
      QuietHasNoHtml(sent[..|sent| - 1]);
    }
  }

  /** One arm that renders: what it sends is quiet, then the page if nothing failed. */
  lemma ShowSendsOnePage(u: string, w: World, n: nat, failAt: Option<nat>)
    requires Plan(u, w).next.Show?
    ensures var r := Serve(u, w, n, failAt);
      && CountHtml(r.sent) == (if r.ok then 1 else 0)
      && forall ev :: ev in r.sent ==> !ev.TabsChanged? && !ev.LoadUrl?
  {
    hide Plan;
    var first := Exec(Plan(u, w).steps, n, failAt);
    PlansAreQuiet(u, w);
    ExecSendsPlanned(Plan(u, w).steps, n, failAt);
    QuietHasNoHtml(first.sent);
    var page := LoadHtml(Plan(u, w).next.page);
    CountHtmlAppend(first.sent, [page]);
    assert [page][..0] == [];
  }

  /**
   A request that succeeds sends exactly one page, one that fails sends none; neither ever sends a strip or a page
   load of its own.
   */
  lemma OnePagePerRequest(u: string, w: World, n: nat, failAt: Option<nat>)
    ensures var r := Serve(u, w, n, failAt);
      && CountHtml(r.sent) == (if r.ok then 1 else 0)
      && forall ev :: ev in r.sent ==> !ev.TabsChanged? && !ev.LoadUrl?
  {
    hide Plan;
    var plan := Plan(u, w);
    var first := Exec(plan.steps, n, failAt);
    if plan.next.Show? {
      ShowSendsOnePage(u, w, n, failAt);
    } else {
      PlansAreQuiet(u, w);
      ExecSendsPlanned(plan.steps, n, failAt);
      QuietHasNoHtml(first.sent);
      if first.ok {
        RedirectLands(u, w);
        ShowSendsOnePage(plan.next.target, w, n + |first.ops|, failAt);
        CountHtmlAppend(first.sent, Serve(plan.next.target, w, n + |first.ops|, failAt).sent);
      }
    }
  }

  /** The calls among `ops` that change something. */
  function Effects(ops: seq<Op>): seq<Op> {
    if ops == [] then []
    else (if ReadOnly(ops[0]) then [] else [ops[0]]) + Effects(ops[1..])
  }

  function OpsOf(steps: seq<Step>): seq<Op> {
    if steps == [] then []
    else (if steps[0].Do? then [steps[0].op] else []) + OpsOf(steps[1..])
  }

  lemma {:induction false} EffectsAppend(a: seq<Op>, b: seq<Op>)
    ensures Effects(a + b) == Effects(a) + Effects(b)
  {
    if a == [] {
      assert a + b == b;
    } else {
      assert (a + b)[1..] == a[1..] + b;
      EffectsAppend(a[1..], b);
    }
  }

  lemma FailsIsFallible(s: Step, n: nat, failAt: Option<nat>)
    ensures s.Do? && Fails(s.op, n, failAt) ==> Fallible(s.op)
  {
  }

  lemma {:induction false} ExecOps(steps: seq<Step>, n: nat, failAt: Option<nat>)
    ensures var r := Exec(steps, n, failAt);
      && r.ops <= OpsOf(steps)
      && (r.ok ==> r.ops == OpsOf(steps))
      && (!r.ok ==> r.ops != [] && Fallible(r.ops[|r.ops| - 1]))
  {
    if steps != [] {
      hide Fails, Fallible;
      FailsIsFallible(steps[0], n, failAt);
      ExecOps(steps[1..], n, failAt);
      ExecOps(steps[1..], n + 1, failAt);
    }
  }

  lemma {:induction false} ReadsHaveNoEffect(steps: seq<Step>, n: nat, failAt: Option<nat>)
    requires OnlyReads(steps)
    ensures Effects(Exec(steps, n, failAt).ops) == []
  {
    if steps != [] {
      assert steps[0] in steps;
      assert OnlyReads(steps[1..]) by {
        forall s | s in steps[1..] ensures s.Do? && ReadOnly(s.op) {
          assert s in steps;
        }
      }
      var rest := Exec(steps[1..], n + 1, failAt).ops;
      assert ([steps[0].op] + rest)[1..] == rest;
      assert [steps[0].op][1..] == [];
      ReadsHaveNoEffect(steps[1..], n + 1, failAt);
    }
  }

  /**
   The effects of a request are those of the arm its address reaches, each made once and in order: all of them when the
   request succeeds, an initial part of them when it fails. The page it is redirected to adds none.
   */
  lemma EffectsHappenOnce(u: string, w: World, failAt: Option<nat>)
    ensures var r := Serve(u, w, 0, failAt);
      && Effects(r.ops) <= Effects(OpsOf(Plan(u, w).steps))
      && (r.ok ==> Effects(r.ops) == Effects(OpsOf(Plan(u, w).steps)))
  {
    hide Plan;
    var plan := Plan(u, w);
    var first := Exec(plan.steps, 0, failAt);
    ExecOps(plan.steps, 0, failAt);
    var all := OpsOf(plan.steps);
    assert all == first.ops + all[|first.ops|..];
    EffectsAppend(first.ops, all[|first.ops|..]);
    if first.ok && plan.next.Goto? {
      RedirectLands(u, w);
      var target := plan.next.target;
      var rest := Serve(target, w, |first.ops|, failAt);
      ReadsHaveNoEffect(Plan(target, w).steps, |first.ops|, failAt);
      assert rest.ops == Exec(Plan(target, w).steps, |first.ops|, failAt).ops;
      EffectsAppend(first.ops, rest.ops);
    }
  }

  // ---------------------------------------------------------------------------------------------------------------
  // The loop
  // ---------------------------------------------------------------------------------------------------------------

  /** What was done, and then the rest. */
  function Then(ops: seq<Op>, sent: seq<UiEvent>, rest: Outcome): Outcome {
    Outcome(ops + rest.ops, sent + rest.sent, rest.ok)
  }

  lemma ExecOneMore(ops: seq<Op>, sent: seq<UiEvent>, steps: seq<Step>, i: nat, n: nat, failAt: Option<nat>)
    requires i < |steps|
    ensures steps[i].Send? ==>
      Then(ops, sent, Exec(steps[i..], n, failAt))
        == Then(ops, sent + [steps[i].event], Exec(steps[i + 1..], n, failAt))
    ensures steps[i].Do? && Fails(steps[i].op, n, failAt) ==>
      Then(ops, sent, Exec(steps[i..], n, failAt)) == Outcome(ops + [steps[i].op], sent, false)
    ensures steps[i].Do? && !Fails(steps[i].op, n, failAt) ==>
      Then(ops, sent, Exec(steps[i..], n, failAt))
        == Then(ops + [steps[i].op], sent, Exec(steps[i + 1..], n + 1, failAt))
  {
    hide Fails;
    assert steps[i..][1..] == steps[i + 1..];
  }

  lemma ExecNothing(ops: seq<Op>, sent: seq<UiEvent>, n: nat, failAt: Option<nat>)
    ensures Then(ops, sent, Exec([], n, failAt)) == Outcome(ops, sent, true)
  {
  }

  lemma ThenFirst(rest: Outcome)
    ensures Then([], [], rest) == rest
  {
  }

  method RunSteps(steps: seq<Step>, n: nat, failAt: Option<nat>)
    returns (ops: seq<Op>, sent: seq<UiEvent>, ok: bool)
    ensures Outcome(ops, sent, ok) == Exec(steps, n, failAt)
  {
    hide Exec, Fails, Then;
    ops, sent, ok := [], [], true;
    var i := 0;
    assert steps[0..] == steps;
    ThenFirst(Exec(steps, n, failAt));
    while i < |steps| && ok
      invariant i <= |steps|
      invariant ok ==> Exec(steps, n, failAt) == Then(ops, sent, Exec(steps[i..], n + |ops|, failAt))
      invariant !ok ==> Exec(steps, n, failAt) == Outcome(ops, sent, false)
      decreases |steps| - i
    {
      ExecOneMore(ops, sent, steps, i, n + |ops|, failAt);
      match steps[i] {
      case Send(ev) =>
        sent := sent + [ev];
      case Do(op) =>
        ok := !Fails(op, n + |ops|, failAt);
        ops := ops + [op];
      }
      i := i + 1;
    }
    if ok {
      assert steps[i..] == [];
      ExecNothing(ops, sent, n + |ops|, failAt);
    }
  }

  /** The redirect loop runs at most twice, whatever the address. */
  method HandleInternalPage(url: string, w: World, failAt: Option<nat>)
    returns (ops: seq<Op>, sent: seq<UiEvent>, ok: bool, rounds: nat)
    ensures Outcome(ops, sent, ok) == Serve(url, w, 0, failAt)
    ensures 1 <= rounds <= 2
    ensures rounds == 2 ==> Plan(url, w).next.Goto?
  {
    hide Plan;
    var currentUrl := url;
    ops, sent, rounds := [], [], 0;
    while true
      invariant rounds == 0 ==> currentUrl == url && ops == [] && sent == []
      invariant rounds == 1 ==> Plan(url, w).next == Goto(currentUrl)
      invariant rounds <= 1
      invariant var rest := Serve(currentUrl, w, |ops|, failAt);
        Serve(url, w, 0, failAt) == Outcome(ops + rest.ops, sent + rest.sent, rest.ok)
      decreases 1 - rounds
    {
      var plan := Plan(currentUrl, w);
      rounds := rounds + 1;
      var made, said, fine := RunSteps(plan.steps, |ops|, failAt);
      if rounds == 2 {
        RedirectLands(url, w);
      }
      if !fine {
        return ops + made, sent + said, false, rounds;
      }
      match plan.next
      case Show(page) =>
        return ops + made, sent + (said + [LoadHtml(page)]), true, rounds;
      case Goto(target) =>
        ghost var rest := Serve(target, w, |ops| + |made|, failAt);
        assert (ops + made) + rest.ops == ops + (made + rest.ops);
        assert (sent + said) + rest.sent == sent + (said + rest.sent);
        ops, sent := ops + made, sent + said;
        currentUrl := target;
    }
  }
}
