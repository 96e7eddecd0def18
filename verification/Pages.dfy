/**
 What each internal page does when nothing fails, address by address: the calls made, in order, and the events sent;
 and what a failing call changes.
 */
module Pages {
  import opened Words
  import opened Wrappers
  import opened Text
  import opened Messages
  import opened Dispatcher
  import Percent
  import Utf8

  // ---------------------------------------------------------------------------------------------------------------
  // Which addresses reach which arm
  // ---------------------------------------------------------------------------------------------------------------

  lemma LettersAgree(u: string, p: string)
    requires StartsWith(u, p)
    ensures |p| <= |u| && forall i :: 0 <= i < |p| ==> u[i] == p[i]
  {
    assert forall i :: 0 <= i < |p| ==> u[i] == u[..|p|][i];
  }

  lemma NotFixed(u: string)
    requires |u| > 13
    requires
      || u[11] in {'a', 'v'}
      || (u[11] == 'n' && u[13] == 't' && u != "sentinel://network_menu")
      || (u[11] == 'c' && u[12] == 'o' && |u| > 18)
    ensures FixedPage(u) == None
  {
  }

  lemma ReachesAllowSite(u: string)
    requires StartsWith(u, "sentinel://allow_site")
    ensures RouteOf(u) == DoAllowSite
  {
    LettersAgree(u, "sentinel://allow_site");
    NotFixed(u);
    hide FixedPage, LateRoute, StartsWith;
  }

  lemma ReachesVote(u: string)
    requires StartsWith(u, "sentinel://vote")
    ensures RouteOf(u) == DoVote
  {
    LettersAgree(u, "sentinel://vote");
    NotFixed(u);
    hide FixedPage, LateRoute, StartsWith;
    NotPrefix(u, "sentinel://allow_site", 11);
  }

  lemma ReachesAddBookmark(u: string)
    requires StartsWith(u, "sentinel://add_bookmark")
    ensures RouteOf(u) == DoAddBookmark
  {
    LettersAgree(u, "sentinel://add_bookmark");
    NotFixed(u);
    hide FixedPage, LateRoute, StartsWith;
    NotPrefix(u, "sentinel://allow_site", 12);
    NotPrefix(u, "sentinel://vote", 11);
    NotPrefix(u, "sentinel://search", 11);
  }

  lemma ReachesNetwork(u: string)
    requires StartsWith(u, "sentinel://network") && u != "sentinel://network_menu"
    ensures RouteOf(u) == DoNetwork
  {
    LettersAgree(u, "sentinel://network");
    NotFixed(u);
    hide FixedPage, LateRoute, StartsWith;
    NotPrefix(u, "sentinel://allow_site", 11);
    NotPrefix(u, "sentinel://vote", 11);
    NotPrefix(u, "sentinel://search", 11);
    NotPrefix(u, "sentinel://add_bookmark", 11);
  }

  lemma ReachesAddObfs4(u: string)
    requires StartsWith(u, "sentinel://add_bridge_obfs4")
    ensures RouteOf(u) == DoAddObfs4
  {
    LettersAgree(u, "sentinel://add_bridge_obfs4");
    NotFixed(u);
    hide FixedPage, LateRoute, StartsWith;
    NotPrefix(u, "sentinel://allow_site", 12);
    NotPrefix(u, "sentinel://vote", 11);
    NotPrefix(u, "sentinel://search", 11);
    NotPrefix(u, "sentinel://add_bookmark", 16);
    NotPrefix(u, "sentinel://network", 11);
  }

  lemma ReachesAddSnowflake(u: string)
    requires StartsWith(u, "sentinel://add_bridge_snowflake")
    ensures RouteOf(u) == DoAddSnowflake
  {
    LettersAgree(u, "sentinel://add_bridge_snowflake");
    NotFixed(u);
    hide FixedPage, LateRoute, StartsWith;
    NotPrefix(u, "sentinel://allow_site", 12);
    NotPrefix(u, "sentinel://vote", 11);
    NotPrefix(u, "sentinel://search", 11);
    NotPrefix(u, "sentinel://add_bookmark", 16);
    NotPrefix(u, "sentinel://network", 11);
    NotPrefix(u, "sentinel://add_bridge_obfs4", 22);
  }

  lemma ReachesAddVmess(u: string)
    requires StartsWith(u, "sentinel://connect_add_vmess")
    ensures RouteOf(u) == DoAddVmess
  {
    LettersAgree(u, "sentinel://connect_add_vmess");
    NotFixed(u);
    hide FixedPage, LateRoute, StartsWith;
    NotPrefix(u, "sentinel://allow_site", 11);
    NotPrefix(u, "sentinel://vote", 11);
    NotPrefix(u, "sentinel://search", 11);
    NotPrefix(u, "sentinel://add_bookmark", 11);
    NotPrefix(u, "sentinel://network", 11);
    NotPrefix(u, "sentinel://add_bridge_obfs4", 11);
    NotPrefix(u, "sentinel://add_bridge_snowflake", 11);
  }

  lemma ReachesAddVless(u: string)
    requires StartsWith(u, "sentinel://connect_add_vless")
    ensures RouteOf(u) == DoAddVless
  {
    LettersAgree(u, "sentinel://connect_add_vless");
    NotFixed(u);
    hide FixedPage, LateRoute, StartsWith;
    NotPrefix(u, "sentinel://allow_site", 11);
    NotPrefix(u, "sentinel://vote", 11);
    NotPrefix(u, "sentinel://search", 11);
    NotPrefix(u, "sentinel://add_bookmark", 11);
    NotPrefix(u, "sentinel://network", 11);
    NotPrefix(u, "sentinel://add_bridge_obfs4", 11);
    NotPrefix(u, "sentinel://add_bridge_snowflake", 11);
    NotPrefix(u, "sentinel://connect_add_vmess", 24);
  }

  lemma ReachesAddTrojan(u: string)
    requires StartsWith(u, "sentinel://connect_add_trojan")
    ensures RouteOf(u) == DoAddTrojan
  {
    LettersAgree(u, "sentinel://connect_add_trojan");
    NotFixed(u);
    hide FixedPage, LateRoute, StartsWith;
    NotPrefix(u, "sentinel://allow_site", 11);
    NotPrefix(u, "sentinel://vote", 11);
    NotPrefix(u, "sentinel://search", 11);
    NotPrefix(u, "sentinel://add_bookmark", 11);
    NotPrefix(u, "sentinel://network", 11);
    NotPrefix(u, "sentinel://add_bridge_obfs4", 11);
    NotPrefix(u, "sentinel://add_bridge_snowflake", 11);
    NotPrefix(u, "sentinel://connect_add_vmess", 23);
    NotPrefix(u, "sentinel://connect_add_vless", 23);
  }

  lemma ReachesSaveProfile(u: string)
    requires StartsWith(u, "sentinel://connect_save_profile")
    ensures RouteOf(u) == DoSaveProfile
  {
    LettersAgree(u, "sentinel://connect_save_profile");
    NotFixed(u);
    hide FixedPage, LateRoute, StartsWith;
    NotPrefix(u, "sentinel://allow_site", 11);
    NotPrefix(u, "sentinel://vote", 11);
    NotPrefix(u, "sentinel://search", 11);
    NotPrefix(u, "sentinel://add_bookmark", 11);
    NotPrefix(u, "sentinel://network", 11);
    NotPrefix(u, "sentinel://add_bridge_obfs4", 11);
    NotPrefix(u, "sentinel://add_bridge_snowflake", 11);
    NotPrefix(u, "sentinel://connect_add_vmess", 19);
    NotPrefix(u, "sentinel://connect_add_vless", 19);
    NotPrefix(u, "sentinel://connect_add_trojan", 19);
  }

  lemma ReachesSwitchProfile(u: string)
    requires StartsWith(u, "sentinel://connect_switch")
    ensures RouteOf(u) == DoSwitchProfile
  {
    LettersAgree(u, "sentinel://connect_switch");
    NotFixed(u);
    hide FixedPage, LateRoute, StartsWith;
    NotPrefix(u, "sentinel://allow_site", 11);
    NotPrefix(u, "sentinel://vote", 11);
    NotPrefix(u, "sentinel://search", 11);
    NotPrefix(u, "sentinel://add_bookmark", 11);
    NotPrefix(u, "sentinel://network", 11);
    NotPrefix(u, "sentinel://add_bridge_obfs4", 11);
    NotPrefix(u, "sentinel://add_bridge_snowflake", 11);
    NotPrefix(u, "sentinel://connect_add_vmess", 19);
    NotPrefix(u, "sentinel://connect_add_vless", 19);
    NotPrefix(u, "sentinel://connect_add_trojan", 19);
    NotPrefix(u, "sentinel://connect_save_profile", 20);
  }

  // ---------------------------------------------------------------------------------------------------------------
  // Parameters
  // ---------------------------------------------------------------------------------------------------------------

  datatype Pair = Pair(key: string, value: string)

  predicate Plain(s: string) {
    '&' !in s && '=' !in s && '?' !in s
  }

  ghost predicate AllPlain(pairs: seq<Pair>) {
    forall k :: 0 <= k < |pairs| ==> Plain(pairs[k].key) && Plain(pairs[k].value)
  }

  function Texts(pairs: seq<Pair>): (r: seq<string>)
    ensures |r| == |pairs| && forall k :: 0 <= k < |r| ==> r[k] == pairs[k].key + "=" + pairs[k].value
  {
    if pairs == [] then [] else [pairs[0].key + "=" + pairs[0].value] + Texts(pairs[1..])
  }

  /** `key=value` texts with `&` between them. */
  function Form(pairs: seq<Pair>): string
    requires pairs != []
  {
    Join(Texts(pairs), "&")
  }

  /** The value given last for a key. */
  function LastOf(pairs: seq<Pair>, key: string, default: string): string {
    if pairs == [] then default
    else if pairs[|pairs| - 1].key == key then pairs[|pairs| - 1].value
    else LastOf(pairs[..|pairs| - 1], key, default)
  }

  lemma PartOf(pair: Pair, key: string)
    requires Plain(pair.key) && Plain(pair.value)
    ensures PartValue(pair.key + "=" + pair.value, key) == if pair.key == key then Some(pair.value) else None
  {
    SplitJoined([pair.key, pair.value], "=");
    assert [pair.key, pair.value][1..] == [pair.value];
  }

  lemma LastValueOf(parts: seq<string>, part: string, key: string, default: string)
    ensures LastValue(parts + [part], key, default) ==
      if PartValue(part, key).Some? then PartValue(part, key).value else LastValue(parts, key, default)
  {
    hide PartValue;
    assert (parts + [part])[..|parts|] == parts;
  }

  lemma LastPairOf(pairs: seq<Pair>, pair: Pair, key: string, default: string)
    ensures LastOf(pairs + [pair], key, default) == if pair.key == key then pair.value else LastOf(pairs, key, default)
    ensures Texts(pairs + [pair]) == Texts(pairs) + [pair.key + "=" + pair.value]
  {
    assert (pairs + [pair])[..|pairs|] == pairs;
  }

  lemma {:induction false} LastOfTexts(pairs: seq<Pair>, key: string, default: string)
    requires AllPlain(pairs)
    ensures LastValue(Texts(pairs), key, default) == LastOf(pairs, key, default)
  {
    if pairs != [] {
      hide PartValue, Plain, Texts, LastValue, LastOf;
      var front, last := pairs[..|pairs| - 1], pairs[|pairs| - 1];
      assert pairs == front + [last];
      LastOfTexts(front, key, default);
      LastPairOf(front, last, key, default);
      LastValueOf(Texts(front), last.key + "=" + last.value, key, default);
      PartOf(last, key);
    }
  }

  lemma FormHasNoMark(pairs: seq<Pair>)
    requires pairs != [] && AllPlain(pairs)
    ensures '?' !in Form(pairs)
  {
    NotInJoin(Texts(pairs), "&", '?');
  }

  lemma {:induction false} NotInJoin(parts: seq<string>, p: string, c: char)
    requires parts != [] && c !in p && forall k :: 0 <= k < |parts| ==> c !in parts[k]
    ensures c !in Join(parts, p)
  {
    if |parts| > 1 {
      NotInJoin(parts[1..], p, c);
    }
  }

  /** What an arm reads of a query is what was put in, the last value where a key comes twice. */
  lemma ParamOf(front: string, pairs: seq<Pair>, key: string, default: string)
    requires '?' !in front && pairs != [] && AllPlain(pairs)
    ensures Param(front + "?" + Form(pairs), key, default) == LastOf(pairs, key, default)
  {
    hide SecondPart, Split, Join, LastValue;
    FormHasNoMark(pairs);
    SplitOnce(front, "?", Form(pairs));
    SplitJoined(Texts(pairs), "&");
    LastOfTexts(pairs, key, default);
  }

  // ---------------------------------------------------------------------------------------------------------------
  // Numbers
  // ---------------------------------------------------------------------------------------------------------------

  predicate AllDigits(s: string) {
    forall i :: 0 <= i < |s| ==> '0' <= s[i] <= '9'
  }

  lemma {:induction false} DigitsIff(s: string)
    ensures Digits(s).Some? <==> AllDigits(s)
  {
    if s != "" {
      DigitsIff(s[..|s| - 1]);
    }
  }

  lemma {:induction false} DigitsOfDecimal(n: nat)
    ensures Digits(Decimal(n)) == Some(n) && Decimal(n) != "" && '0' <= Decimal(n)[0] <= '9'
    ensures AllDigits(Decimal(n))
  {
    var s := Decimal(n);
    if n < 10 {
      assert s[..|s| - 1] == "";
      assert Digits("") == Some(0);
    } else {
      DigitsOfDecimal(n / 10);
      assert s[..|s| - 1] == Decimal(n / 10);
    }
  }

  /** Decimal text is read back up to the type's maximum and is nothing above it; a sign in front changes nothing. */
  lemma DecimalIsRead(n: nat, max: nat)
    ensures ParseOrZero(Decimal(n), max) == ParseOrZero("+" + Decimal(n), max) == if n <= max then n else 0
  {
    hide Decimal, Digits;
    DigitsOfDecimal(n);
    assert ("+" + Decimal(n))[1..] == Decimal(n);
  }

  lemma OtherTextIsZero(s: string, max: nat)
    requires s == "" || !AllDigits(s[1..]) || !('0' <= s[0] <= '9' || (s[0] == '+' && |s| > 1))
    ensures ParseOrZero(s, max) == 0
  {
    hide Digits;
    if s != "" {
      assert forall i :: 0 <= i < |s| - 1 ==> s[1..][i] == s[i + 1];
      DigitsIff(if s[0] == '+' then s[1..] else s);
    }
  }

  // ---------------------------------------------------------------------------------------------------------------
  // Requests in which nothing fails
  // ---------------------------------------------------------------------------------------------------------------

  function SentBy(steps: seq<Step>): seq<UiEvent> {
    if steps == [] then []
    else (if steps[0].Send? then [steps[0].event] else []) + SentBy(steps[1..])
  }

  lemma {:induction false} ExecAll(steps: seq<Step>, n: nat)
    ensures Exec(steps, n, None) == Outcome(OpsOf(steps), SentBy(steps), true)
  {
    if steps != [] {
      ExecAll(steps[1..], n);
      ExecAll(steps[1..], n + 1);
    }
  }

  lemma DoFirst(op: Op, rest: seq<Step>)
    ensures OpsOf([Do(op)] + rest) == [op] + OpsOf(rest) && SentBy([Do(op)] + rest) == SentBy(rest)
  {
    assert ([Do(op)] + rest)[1..] == rest;
  }

  lemma SendFirst(ev: UiEvent, rest: seq<Step>)
    ensures OpsOf([Send(ev)] + rest) == OpsOf(rest) && SentBy([Send(ev)] + rest) == [ev] + SentBy(rest)
  {
    assert ([Send(ev)] + rest)[1..] == rest;
  }

  lemma DoOne(a: Op)
    ensures OpsOf([Do(a)]) == [a] && SentBy([Do(a)]) == []
  {
    DoFirst(a, []);
    assert [Do(a)] + [] == [Do(a)];
  }

  lemma DoTwo(a: Op, b: Op)
    ensures OpsOf([Do(a), Do(b)]) == [a, b] && SentBy([Do(a), Do(b)]) == []
  {
    DoFirst(a, [Do(b)]);
    DoOne(b);
    assert [Do(a)] + [Do(b)] == [Do(a), Do(b)];
  }

  lemma DoFour(a: Op, b: Op, c: Op, d: Op)
    ensures OpsOf([Do(a), Do(b), Do(c), Do(d)]) == [a, b, c, d] && SentBy([Do(a), Do(b), Do(c), Do(d)]) == []
  {
    DoFirst(a, [Do(b), Do(c), Do(d)]);
    DoFirst(b, [Do(c), Do(d)]);
    DoTwo(c, d);
    assert [Do(b)] + [Do(c), Do(d)] == [Do(b), Do(c), Do(d)];
    assert [Do(a)] + [Do(b), Do(c), Do(d)] == [Do(a), Do(b), Do(c), Do(d)];
  }

  lemma DoFourSend(a: Op, b: Op, c: Op, d: Op, ev: UiEvent)
    ensures OpsOf([Do(a), Do(b), Do(c), Do(d), Send(ev)]) == [a, b, c, d]
    ensures SentBy([Do(a), Do(b), Do(c), Do(d), Send(ev)]) == [ev]
  {
    SendFirst(ev, []);
    DoFirst(d, [Send(ev)]);
    DoFirst(c, [Do(d), Send(ev)]);
    DoFirst(b, [Do(c), Do(d), Send(ev)]);
    DoFirst(a, [Do(b), Do(c), Do(d), Send(ev)]);
    assert [Send(ev)] + [] == [Send(ev)] && [Do(d)] + [Send(ev)] == [Do(d), Send(ev)];
    assert [Do(c)] + [Do(d), Send(ev)] == [Do(c), Do(d), Send(ev)];
    assert [Do(b)] + [Do(c), Do(d), Send(ev)] == [Do(b), Do(c), Do(d), Send(ev)];
    assert [Do(a)] + [Do(b), Do(c), Do(d), Send(ev)] == [Do(a), Do(b), Do(c), Do(d), Send(ev)];
  }

  /** The calls and the page of a request that is answered at once. */
  ghost predicate Shows(u: string, w: World, ops: seq<Op>, page: Page) {
    forall n: nat :: Serve(u, w, n, None) == Outcome(ops, [LoadHtml(page)], true)
  }

  lemma ShownAtOnce(u: string, w: World)
    requires Plan(u, w).next.Show? && SentBy(Plan(u, w).steps) == []
    ensures Shows(u, w, OpsOf(Plan(u, w).steps), Plan(u, w).next.page)
  {
    hide Plan, Exec;
    forall n: nat ensures Serve(u, w, n, None) ==
      Outcome(OpsOf(Plan(u, w).steps), [LoadHtml(Plan(u, w).next.page)], true)
    {
      ExecAll(Plan(u, w).steps, n);
      assert [] + [LoadHtml(Plan(u, w).next.page)] == [LoadHtml(Plan(u, w).next.page)];
    }
  }

  /** A request that is redirected does its own part and then the page's. */
  lemma Redirected(u: string, w: World, ops: seq<Op>, page: Page)
    requires Plan(u, w).next.Goto? && Shows(Plan(u, w).next.target, w, ops, page)
    ensures Serve(u, w, 0, None) ==
      Outcome(OpsOf(Plan(u, w).steps) + ops, SentBy(Plan(u, w).steps) + [LoadHtml(page)], true)
  {
    hide Plan, Exec;
    ExecAll(Plan(u, w).steps, 0);
  }

  // ---------------------------------------------------------------------------------------------------------------
  // The pages that only read
  // ---------------------------------------------------------------------------------------------------------------

  const SETTINGS_READ := [GetSetting("theme"), GetSetting("search_engine"), GetSetting("history_enabled"),
                          GetSetting("security_level")]

  lemma RenderedAtOnce(u: string, r: Route, w: World)
    requires RouteOf(u) == r && Renders(r) && RenderPlan(r, u).next.Show? && SentBy(RenderPlan(r, u).steps) == []
    ensures Shows(u, w, OpsOf(RenderPlan(r, u).steps), RenderPlan(r, u).next.page)
  {
    hide Serve, RouteOf, RenderPlan;
    ShownAtOnce(u, w);
  }

  lemma FixedIsRoute(u: string, r: Route)
    requires FixedPage(u) == Some(r)
    ensures RouteOf(u) == r
  {
  }

  lemma HomePages(w: World)
    ensures Shows("sentinel://home", w, [GetSetting("theme"), GetSetting("search_engine")], Home)
    ensures Shows("sentinel://newtab", w, [GetSetting("theme"), GetSetting("search_engine")], Home)
    ensures Shows("sentinel://welcome", w, [GetSetting("theme"), GetSetting("search_engine")], Home)
  {
    hide Serve, RouteOf;
    DoTwo(GetSetting("theme"), GetSetting("search_engine"));
    FixedIsRoute("sentinel://home", ToHome);
    RenderedAtOnce("sentinel://home", ToHome, w);
    FixedIsRoute("sentinel://newtab", ToHome);
    RenderedAtOnce("sentinel://newtab", ToHome, w);
    FixedIsRoute("sentinel://welcome", ToHome);
    RenderedAtOnce("sentinel://welcome", ToHome, w);
  }

  lemma NetworkPages(w: World)
    ensures Shows("sentinel://status", w, [GetStatus], Status)
    ensures Shows("sentinel://connect", w, [GetStatus, ListProfiles], Connect)
    ensures Shows("sentinel://network_menu", w, [], NetworkMenu)
  {
    hide Serve, RouteOf;
    DoOne(GetStatus);
    DoTwo(GetStatus, ListProfiles);
    FixedIsRoute("sentinel://status", ToStatus);
    RenderedAtOnce("sentinel://status", ToStatus, w);
    FixedIsRoute("sentinel://connect", ToConnect);
    RenderedAtOnce("sentinel://connect", ToConnect, w);
    FixedIsRoute("sentinel://network_menu", ToNetworkMenu);
    RenderedAtOnce("sentinel://network_menu", ToNetworkMenu, w);
  }

  lemma RecordPages(w: World)
    ensures Shows("sentinel://bookmarks", w, [GetBookmarks], Bookmarks)
    ensures Shows("sentinel://history", w, [GetHistory], History)
    ensures Shows("sentinel://governance", w, [ListProposals], Governance)
  {
    hide Serve, RouteOf;
    DoOne(GetBookmarks);
    DoOne(GetHistory);
    DoOne(ListProposals);
    FixedIsRoute("sentinel://bookmarks", ToBookmarks);
    RenderedAtOnce("sentinel://bookmarks", ToBookmarks, w);
    FixedIsRoute("sentinel://history", ToHistory);
    RenderedAtOnce("sentinel://history", ToHistory, w);
    FixedIsRoute("sentinel://governance", ToGovernance);
    RenderedAtOnce("sentinel://governance", ToGovernance, w);
  }

  lemma SettingsPage(w: World)
    ensures Shows("sentinel://settings", w, SETTINGS_READ, Settings)
  {
    hide Serve, RouteOf;
    DoFour(GetSetting("theme"), GetSetting("search_engine"), GetSetting("history_enabled"),
           GetSetting("security_level"));
    FixedIsRoute("sentinel://settings", ToSettings);
    RenderedAtOnce("sentinel://settings", ToSettings, w);
  }

  lemma StaticPages(w: World)
    ensures Shows("sentinel://dapps", w, [], Dapps)
    ensures Shows("sentinel://design", w, [], Design)
    ensures Shows("sentinel://prototype", w, [], Prototype)
  {
    hide Serve, RouteOf;
    FixedIsRoute("sentinel://dapps", ToDapps);
    RenderedAtOnce("sentinel://dapps", ToDapps, w);
    FixedIsRoute("sentinel://design", ToDesign);
    RenderedAtOnce("sentinel://design", ToDesign, w);
    FixedIsRoute("sentinel://prototype", ToPrototype);
    RenderedAtOnce("sentinel://prototype", ToPrototype, w);
  }

  /** No action's address begins like this one. */
  lemma NoAction(u: string)
    requires |u| > 13 && (u[11] in {'d', 'i'} || (u[11] == 's' && u[12] == 'e' && u[13] == 'c'))
    ensures Action(u) == None
  {
    NotPrefix(u, "sentinel://allow_site", 11);
    NotPrefix(u, "sentinel://vote", 11);
    NotPrefix(u, "sentinel://search", if u[11] == 's' then 13 else 11);
    NotPrefix(u, "sentinel://add_bookmark", 11);
    NotPrefix(u, "sentinel://network", 11);
    NotPrefix(u, "sentinel://add_bridge_obfs4", 11);
    NotPrefix(u, "sentinel://add_bridge_snowflake", 11);
    NotPrefix(u, "sentinel://connect_add_vmess", 11);
    NotPrefix(u, "sentinel://connect_add_vless", 11);
    NotPrefix(u, "sentinel://connect_add_trojan", 11);
    NotPrefix(u, "sentinel://connect_save_profile", 11);
    NotPrefix(u, "sentinel://connect_switch", 11);
  }

  lemma LateIsRoute(u: string, r: Route)
    requires FixedPage(u) == None && Action(u) == None && LateRoute(u) == r
    ensures RouteOf(u) == r
  {
  }

  lemma DownloadsPage(w: World)
    ensures Shows("sentinel://downloads", w, [GetDownloads], Downloads)
  {
    hide Serve, RouteOf, Action;
    var u := "sentinel://downloads";
    NoAction(u);
    NotPrefix(u, "sentinel://download?", 19);
    LateIsRoute(u, ToDownloads);
    DoOne(GetDownloads);
    RenderedAtOnce(u, ToDownloads, w);
  }

  lemma SecurityPage(w: World)
    ensures Shows("sentinel://security", w, [GetSetting("security_level")], Security)
  {
    hide Serve, RouteOf, Action;
    var u := "sentinel://security";
    NoAction(u);
    NotPrefix(u, "sentinel://download?", 11);
    NotPrefix(u, "sentinel://download_complete", 11);
    LateIsRoute(u, ToSecurity);
    DoOne(GetSetting("security_level"));
    RenderedAtOnce(u, ToSecurity, w);
  }

  lemma InstallPage(w: World)
    ensures Shows("sentinel://install_pt", w, [Install], PtInstall)
  {
    hide Serve, RouteOf, Action;
    NoAction("sentinel://install_pt");
    LateIsRoute("sentinel://install_pt", DoInstallPt);
    DoOne(Install);
    ShownAtOnce("sentinel://install_pt", w);
  }

  /** The page a finished download leads to names the file. */
  lemma CompletePage(file: string, w: World)
    requires '?' !in file
    ensures Shows("sentinel://download_complete?file=" + file, w, [], DownloadComplete(file))
  {
    hide Serve, RouteOf;
    var u := "sentinel://download_complete?file=" + file;
    assert u == "sentinel://download_complete" + "?file=" + file;
    CompleteIsTerminal(file);
    FileOf(file);
    ShownAtOnce(u, w);
  }

  lemma FileOf(file: string)
    requires '?' !in file
    ensures SecondPart("sentinel://download_complete" + "?file=" + file, "?file=", "document.pdf") == file
  {
    var u := "sentinel://download_complete" + "?file=" + file;
    FindBehind("sentinel://download_complete", "?file=", file);
    NotContained(file, "?file=");
    assert u[34..] == file && Split(file, "?file=") == [file];
  }

  /** What the address of some page or action has behind "sentinel://". */
  predicate Known(c: char) {
    c in {'w', 'n', 'h', 's', 'c', 'g', 'd', 'p', 'b', 't', 'a', 'v', 'i'}
  }

  /** Any other address is one that no arm knows. */
  lemma NowherePage(u: string, w: World)
    requires |u| > 11 && !Known(u[11])
    ensures Shows(u, w, [], NotFound)
  {
    hide Serve, RouteOf;
    NowhereRouted(u);
    RenderedAtOnce(u, Unknown, w);
  }

  lemma NowhereRouted(u: string)
    requires |u| > 11 && !Known(u[11])
    ensures RouteOf(u) == Unknown
  {
    NowhereFixed(u);
    NowhereActs(u);
    hide FixedPage, Action;
    NotPrefix(u, "sentinel://download?", 11);
    NotPrefix(u, "sentinel://download_complete", 11);
  }

  lemma NowhereFixed(u: string)
    requires |u| > 11 && !Known(u[11])
    ensures FixedPage(u) == None
  {
  }

  lemma NowhereActs(u: string)
    requires |u| > 11 && u[11] !in {'a', 'v', 's', 'n', 'c'}
    ensures Action(u) == None
  {
    NotPrefix(u, "sentinel://allow_site", 11);
    NotPrefix(u, "sentinel://vote", 11);
    NotPrefix(u, "sentinel://search", 11);
    NotPrefix(u, "sentinel://add_bookmark", 11);
    NotPrefix(u, "sentinel://network", 11);
    NotPrefix(u, "sentinel://add_bridge_obfs4", 11);
    NotPrefix(u, "sentinel://add_bridge_snowflake", 11);
    NotPrefix(u, "sentinel://connect_add_vmess", 11);
    NotPrefix(u, "sentinel://connect_add_vless", 11);
    NotPrefix(u, "sentinel://connect_add_trojan", 11);
    NotPrefix(u, "sentinel://connect_save_profile", 11);
    NotPrefix(u, "sentinel://connect_switch", 11);
  }

  // ---------------------------------------------------------------------------------------------------------------
  // The arms that store what the address says
  // ---------------------------------------------------------------------------------------------------------------

  lemma BookmarkStored(pairs: seq<Pair>, w: World)
    requires pairs != [] && AllPlain(pairs)
    ensures Serve("sentinel://add_bookmark" + "?" + Form(pairs), w, 0, None) ==
      Outcome([StoreBookmark(LastOf(pairs, "url", ""), LastOf(pairs, "title", "")), GetBookmarks],
              [LoadHtml(Bookmarks)], true)
  {
    hide Serve, RouteOf, Param, Form, AllPlain;
    var u := "sentinel://add_bookmark" + "?" + Form(pairs);
    ReachesAddBookmark(u);
    ParamOf("sentinel://add_bookmark", pairs, "url", "");
    ParamOf("sentinel://add_bookmark", pairs, "title", "");
    RecordPages(w);
    Redirected(u, w, [GetBookmarks], Bookmarks);
  }

  lemma Obfs4Stored(pairs: seq<Pair>, mode: nat, w: World)
    requires pairs != [] && AllPlain(pairs) && LastOf(pairs, "iat_mode", "0") == Decimal(mode)
    ensures Serve("sentinel://add_bridge_obfs4" + "?" + Form(pairs), w, 0, None) ==
      Outcome([StoreBridge(Obfs4(LastOf(pairs, "addr", ""), LastOf(pairs, "cert", ""),
                                 if mode <= 255 then mode else 0))],
              [LoadHtml(NetworkMenu)], true)
  {
    hide Serve, RouteOf, Param, Form, AllPlain, ParseOrZero, Decimal;
    var u := "sentinel://add_bridge_obfs4" + "?" + Form(pairs);
    ReachesAddObfs4(u);
    ParamOf("sentinel://add_bridge_obfs4", pairs, "addr", "");
    ParamOf("sentinel://add_bridge_obfs4", pairs, "cert", "");
    ParamOf("sentinel://add_bridge_obfs4", pairs, "iat_mode", "0");
    DecimalIsRead(mode, 255);
    NetworkPages(w);
    Redirected(u, w, [], NetworkMenu);
  }

  lemma SnowflakeStored(pairs: seq<Pair>, w: World)
    requires pairs != [] && AllPlain(pairs)
    ensures Serve("sentinel://add_bridge_snowflake" + "?" + Form(pairs), w, 0, None) ==
      Outcome([StoreBridge(Snowflake(LastOf(pairs, "broker", ""), LastOf(pairs, "relay", "")))],
              [LoadHtml(NetworkMenu)], true)
  {
    hide Serve, RouteOf, Param, Form, AllPlain;
    var u := "sentinel://add_bridge_snowflake" + "?" + Form(pairs);
    ReachesAddSnowflake(u);
    ParamOf("sentinel://add_bridge_snowflake", pairs, "broker", "");
    ParamOf("sentinel://add_bridge_snowflake", pairs, "relay", "");
    NetworkPages(w);
    Redirected(u, w, [], NetworkMenu);
  }

  lemma VmessStored(pairs: seq<Pair>, alter: nat, w: World)
    requires pairs != [] && AllPlain(pairs) && LastOf(pairs, "alterId", "0") == Decimal(alter)
    ensures Serve("sentinel://connect_add_vmess" + "?" + Form(pairs), w, 0, None) ==
      Outcome([StoreV2Ray(VMess(LastOf(pairs, "uuid", ""), if alter < 0x1_0000_0000 then alter else 0,
                                LastOf(pairs, "security", ""))), GetStatus, ListProfiles],
              [LoadHtml(Connect)], true)
  {
    hide Serve, RouteOf, Param, Form, AllPlain, ParseOrZero, Decimal;
    var u := "sentinel://connect_add_vmess" + "?" + Form(pairs);
    ReachesAddVmess(u);
    ParamOf("sentinel://connect_add_vmess", pairs, "uuid", "");
    ParamOf("sentinel://connect_add_vmess", pairs, "alterId", "0");
    ParamOf("sentinel://connect_add_vmess", pairs, "security", "");
    DecimalIsRead(alter, U32 - 1);
    NetworkPages(w);
    Redirected(u, w, [GetStatus, ListProfiles], Connect);
  }

  lemma VlessStored(pairs: seq<Pair>, w: World)
    requires pairs != [] && AllPlain(pairs)
    ensures Serve("sentinel://connect_add_vless" + "?" + Form(pairs), w, 0, None) ==
      Outcome([StoreV2Ray(VLESS(LastOf(pairs, "uuid", ""), LastOf(pairs, "encryption", ""), LastOf(pairs, "flow", ""))),
               GetStatus, ListProfiles],
              [LoadHtml(Connect)], true)
  {
    hide Serve, RouteOf, Param, Form, AllPlain;
    var u := "sentinel://connect_add_vless" + "?" + Form(pairs);
    ReachesAddVless(u);
    ParamOf("sentinel://connect_add_vless", pairs, "uuid", "");
    ParamOf("sentinel://connect_add_vless", pairs, "encryption", "");
    ParamOf("sentinel://connect_add_vless", pairs, "flow", "");
    NetworkPages(w);
    Redirected(u, w, [GetStatus, ListProfiles], Connect);
  }

  lemma TrojanStored(pairs: seq<Pair>, w: World)
    requires pairs != [] && AllPlain(pairs)
    ensures Serve("sentinel://connect_add_trojan" + "?" + Form(pairs), w, 0, None) ==
      Outcome([StoreV2Ray(Trojan(LastOf(pairs, "password", ""))), GetStatus, ListProfiles], [LoadHtml(Connect)], true)
  {
    hide Serve, RouteOf, Param, Form, AllPlain;
    var u := "sentinel://connect_add_trojan" + "?" + Form(pairs);
    ReachesAddTrojan(u);
    ParamOf("sentinel://connect_add_trojan", pairs, "password", "");
    NetworkPages(w);
    Redirected(u, w, [GetStatus, ListProfiles], Connect);
  }

  lemma ProfileSaved(pairs: seq<Pair>, w: World)
    requires pairs != [] && AllPlain(pairs)
    ensures Serve("sentinel://connect_save_profile" + "?" + Form(pairs), w, 0, None) ==
      Outcome([StoreProfile(LastOf(pairs, "name", "Profile"), w.protocol), GetStatus, ListProfiles],
              [LoadHtml(Connect)], true)
  {
    hide Serve, RouteOf, Param, Form, AllPlain;
    var u := "sentinel://connect_save_profile" + "?" + Form(pairs);
    ReachesSaveProfile(u);
    ParamOf("sentinel://connect_save_profile", pairs, "name", "Profile");
    NetworkPages(w);
    Redirected(u, w, [GetStatus, ListProfiles], Connect);
  }

  lemma ProfileUsed(pairs: seq<Pair>, w: World)
    requires pairs != [] && AllPlain(pairs)
    ensures Serve("sentinel://connect_switch" + "?" + Form(pairs), w, 0, None) ==
      Outcome([UseProfile(LastOf(pairs, "name", "")), GetStatus, ListProfiles], [LoadHtml(Connect)], true)
  {
    hide Serve, RouteOf, Param, Form, AllPlain;
    var u := "sentinel://connect_switch" + "?" + Form(pairs);
    ReachesSwitchProfile(u);
    ParamOf("sentinel://connect_switch", pairs, "name", "");
    NetworkPages(w);
    Redirected(u, w, [GetStatus, ListProfiles], Connect);
  }

  /** A host given to the allow-list is stored whole; without one nothing is stored. */
  lemma HostAllowed(host: string, w: World)
    requires '?' !in host
    ensures Serve("sentinel://allow_site" + "?host=" + host, w, 0, None) ==
      Outcome((if host == "" then [] else [AddAllowlist(host)]) + SETTINGS_READ, [LoadHtml(Settings)], true)
  {
    hide Serve, RouteOf, SecondPart;
    var u := "sentinel://allow_site" + "?host=" + host;
    assert StartsWith(u, "sentinel://allow_site");
    ReachesAllowSite(u);
    SplitOnce("sentinel://allow_site", "?host=", host);
    SettingsPage(w);
    Redirected(u, w, SETTINGS_READ, Settings);
  }

  // ---------------------------------------------------------------------------------------------------------------
  // Votes
  // ---------------------------------------------------------------------------------------------------------------

  /** A vote is cast for the number given, in favour exactly when the approval given last is "true" or none is given. */
  lemma VoteCast(pairs: seq<Pair>, n: nat, w: World)
    requires pairs != [] && AllPlain(pairs) && LastOf(pairs, "id", "0") == Decimal(n)
    ensures var u := "sentinel://vote" + "?" + Form(pairs);
      Shows(u, w, if 0 < n < U64 then [CastVote(n, LastOf(pairs, "approve", "true") == "true")] else [], Vote(u))
  {
    hide Serve, RouteOf, Param, Form, AllPlain, ParseOrZero, Decimal;
    var u := "sentinel://vote" + "?" + Form(pairs);
    ReachesVote(u);
    ParamOf("sentinel://vote", pairs, "id", "0");
    ParamOf("sentinel://vote", pairs, "approve", "true");
    DecimalIsRead(n, U64 - 1);
    ShownAtOnce(u, w);
  }

  lemma VoteByAddress(n: nat, v: string, w: World)
    requires Plain(v) && 0 < n < U64
    ensures Serve("sentinel://vote?id=" + Decimal(n) + "&approve=" + v, w, 0, None).ops == [CastVote(n, v == "true")]
  {
    hide Serve, Decimal, Form;
    DecimalIsPlain(n);
    var pairs := [Pair("id", Decimal(n)), Pair("approve", v)];
    assert pairs[..1] == [Pair("id", Decimal(n))];
    VoteCast(pairs, n, w);
    FormTwo("id", Decimal(n), "approve", v);
    assert "sentinel://vote" + "?" + ("id" + "=" + Decimal(n) + "&" + ("approve" + "=" + v))
      == "sentinel://vote?id=" + Decimal(n) + "&approve=" + v;
  }

  lemma VoteWithoutApproval(n: nat, w: World)
    requires 0 < n < U64
    ensures Serve("sentinel://vote?id=" + Decimal(n), w, 0, None).ops == [CastVote(n, true)]
  {
    hide Serve, Decimal, Form;
    DecimalIsPlain(n);
    var pairs := [Pair("id", Decimal(n))];
    assert pairs[..0] == [];
    VoteCast(pairs, n, w);
    FormOne("id", Decimal(n));
    assert "sentinel://vote" + "?" + ("id" + "=" + Decimal(n)) == "sentinel://vote?id=" + Decimal(n);
  }

  lemma FormOne(k: string, v: string)
    ensures Form([Pair(k, v)]) == k + "=" + v
  {
  }

  lemma FormTwo(k: string, v: string, l: string, x: string)
    ensures Form([Pair(k, v), Pair(l, x)]) == k + "=" + v + "&" + (l + "=" + x)
  {
    var pairs := [Pair(k, v), Pair(l, x)];
    assert pairs[1..] == [Pair(l, x)] && [Pair(l, x)][1..] == [];
    assert Texts(pairs) == [k + "=" + v, l + "=" + x];
    assert Texts(pairs)[1..] == [l + "=" + x];
    assert Join([l + "=" + x], "&") == l + "=" + x;
  }

  lemma DecimalIsPlain(n: nat)
    ensures Plain(Decimal(n))
  {
    DigitsOfDecimal(n);
  }

  /** A number that is none votes for nothing. */
  lemma NoNumberNoVote(pairs: seq<Pair>, w: World)
    requires pairs != [] && AllPlain(pairs)
    requires var id := LastOf(pairs, "id", "0");
      id == "" || !AllDigits(id[1..]) || !('0' <= id[0] <= '9' || (id[0] == '+' && |id| > 1))
    ensures var u := "sentinel://vote" + "?" + Form(pairs);
      Shows(u, w, [], Vote(u))
  {
    hide Serve, RouteOf, Param, Form, AllPlain, ParseOrZero;
    var u := "sentinel://vote" + "?" + Form(pairs);
    ReachesVote(u);
    ParamOf("sentinel://vote", pairs, "id", "0");
    OtherTextIsZero(LastOf(pairs, "id", "0"), U64 - 1);
    ShownAtOnce(u, w);
  }

  // ---------------------------------------------------------------------------------------------------------------
  // Switches
  // ---------------------------------------------------------------------------------------------------------------

  lemma HistoryToggled(w: World)
    ensures Serve("sentinel://toggle_history", w, 0, None) ==
      Outcome([GetSetting("history_enabled"),
               SetSetting("history_enabled", if w.historyEnabled == "true" then "false" else "true")] + SETTINGS_READ,
              [LoadHtml(Settings)], true)
  {
    hide Serve, RouteOf;
    var u := "sentinel://toggle_history";
    FixedIsRoute(u, DoToggleHistory);
    DoTwo(GetSetting("history_enabled"),
          SetSetting("history_enabled", if w.historyEnabled == "true" then "false" else "true"));
    SettingsPage(w);
    Redirected(u, w, SETTINGS_READ, Settings);
  }

  /** Toggling twice, the second time with the setting the first one stored, stores the setting that was there. */
  lemma ToggledTwice(w: World)
    requires w.historyEnabled in {"true", "false"}
    ensures var ops := Serve("sentinel://toggle_history", w, 0, None).ops;
      && |ops| > 1 && ops[1].SetSetting? && ops[1].key == "history_enabled" && ops[1].value != w.historyEnabled
      && var again := Serve("sentinel://toggle_history", w.(historyEnabled := ops[1].value), 0, None).ops;
         |again| > 1 && again[1] == SetSetting("history_enabled", w.historyEnabled)
  {
    hide Serve;
    HistoryToggled(w);
    HistoryToggled(w.(historyEnabled := if w.historyEnabled == "true" then "false" else "true"));
  }

  lemma SecurityToggled(w: World, next: string)
    requires next == NextLevel(w.securityLevel)
    ensures Serve("sentinel://toggle_security", w, 0, None) ==
      Outcome([GetSetting("security_level"), SetSetting("security_level", next), SetSecurityLevel(next), Harden]
              + SETTINGS_READ,
              [PrivacyUpdated(next, true, next != "Standard", "Job Object"), LoadHtml(Settings)], true)
  {
    hide Serve, RouteOf, NextLevel;
    var u := "sentinel://toggle_security";
    FixedIsRoute(u, DoToggleSecurity);
    DoFourSend(GetSetting("security_level"), SetSetting("security_level", next), SetSecurityLevel(next), Harden,
               PrivacyUpdated(next, true, next != "Standard", "Job Object"));
    SettingsPage(w);
    Redirected(u, w, SETTINGS_READ, Settings);
  }

  /**
   The level goes round in three, from a level that is none to the lowest. It is stored and set, the system hardened,
   and the chrome told; WebRTC is always blocked, WebGL on at the lowest level only.
   */
  lemma LevelGoesRound(w: World, next: string)
    requires || (w.securityLevel, next) in {("Standard", "Strict"), ("Strict", "Paranoid"), ("Paranoid", "Standard")}
             || (w.securityLevel !in {"Standard", "Strict", "Paranoid"} && next == "Standard")
    ensures Serve("sentinel://toggle_security", w, 0, None) ==
      Outcome([GetSetting("security_level"), SetSetting("security_level", next), SetSecurityLevel(next), Harden]
              + SETTINGS_READ,
              [PrivacyUpdated(next, true, next in {"Strict", "Paranoid"}, "Job Object"), LoadHtml(Settings)], true)
  {
    hide Serve;
    SecurityToggled(w, next);
  }

  lemma HistoryCleared(w: World)
    ensures Serve("sentinel://clear_history", w, 0, None)
         == Outcome([ClearHistory, GetHistory], [LoadHtml(History)], true)
  {
    hide Serve, RouteOf;
    FixedIsRoute("sentinel://clear_history", DoClearHistory);
    DoOne(ClearHistory);
    RecordPages(w);
    Redirected("sentinel://clear_history", w, [GetHistory], History);
  }

  lemma ConnectionTested(w: World)
    ensures Serve("sentinel://connect_test", w, 0, None)
         == Outcome([TestConnection, GetStatus, ListProfiles], [LoadHtml(Connect)], true)
  {
    hide Serve, RouteOf;
    TestIsRouted();
    DoOne(TestConnection);
    NetworkPages(w);
    Redirected("sentinel://connect_test", w, [GetStatus, ListProfiles], Connect);
  }

  lemma TestIsRouted()
    ensures RouteOf("sentinel://connect_test") == DoConnectTest
  {
    hide RouteOf, Action;
    TestActs();
    LateIsRoute("sentinel://connect_test", DoConnectTest);
  }

  lemma TestActs()
    ensures Action("sentinel://connect_test") == None
  {
    hide StartsWith;
    var u := "sentinel://connect_test";
    NotPrefix(u, "sentinel://allow_site", 11);
    NotPrefix(u, "sentinel://vote", 11);
    NotPrefix(u, "sentinel://search", 11);
    NotPrefix(u, "sentinel://add_bookmark", 11);
    NotPrefix(u, "sentinel://network", 11);
    NotPrefix(u, "sentinel://add_bridge_obfs4", 11);
    NotPrefix(u, "sentinel://add_bridge_snowflake", 11);
    NotPrefix(u, "sentinel://connect_add_vmess", 19);
    NotPrefix(u, "sentinel://connect_add_vless", 19);
    NotPrefix(u, "sentinel://connect_add_trojan", 19);
    NotPrefix(u, "sentinel://connect_save_profile", 19);
    NotPrefix(u, "sentinel://connect_switch", 19);
  }

  // ---------------------------------------------------------------------------------------------------------------
  // Networks
  // ---------------------------------------------------------------------------------------------------------------

  /** The protocol that a kind of network asks for, if it may be switched to. */
  function Asked(kind: string, w: World): Option<Protocol> {
    if kind == "clear" then Some(Clearweb)
    else if kind == "v2ray" then (if w.v2rayReady then Some(V2Ray(VLESS(w.v2rayUuid, "none", ""))) else None)
    else if kind == "i2p" || kind == "wireguard" then None
    else if kind == "snowflake" && w.snowflakeAvailable then
      Some(Tor(Snowflake("https://snowflake-broker.torproject.net/", "snowflake.torproject.net")))
    else Some(Tor(NoBridge))
  }

  lemma NetworkPlanned(u: string, w: World)
    requires RouteOf(u) == DoNetwork
    ensures Plan(u, w) == NetworkPlan(Param(u, "type", "tor"), w)
  {
    hide RouteOf, NetworkPlan, Param;
  }

  /** The last kind asked for is set, and the chrome told of it and of the port; one not to be had changes nothing. */
  lemma NetworkAsked(pairs: seq<Pair>, w: World)
    requires pairs != [] && AllPlain(pairs)
    ensures var kind := LastOf(pairs, "type", "tor");
      var r := Serve("sentinel://network" + "?" + Form(pairs), w, 0, None);
      match Asked(kind, w)
      case Some(protocol) =>
        r == Outcome([SetProtocol(protocol), GetStatus],
                     [NetworkStatusChanged(protocol)]
                     + (if w.socksPort.Some? then [SocksReady(w.socksPort.value)] else []) + [LoadHtml(Status)], true)
      case None =>
        r == if kind == "v2ray" then Outcome([ListProfiles], [LoadHtml(V2RayUnavailable)], true)
             else Outcome([], [LoadHtml(NotAvailable)], true)
  {
    hide Serve, RouteOf, Param, Form, AllPlain;
    var u := "sentinel://network" + "?" + Form(pairs);
    assert u[18] == '?';
    ReachesNetwork(u);
    ParamOf("sentinel://network", pairs, "type", "tor");
    NetworkPlanned(u, w);
    var kind := LastOf(pairs, "type", "tor");
    AskedPlan(kind, w);
    hide Plan, NetworkPlan, Asked, ChangeSteps, Shows;
    NetworkPages(w);
    match Asked(kind, w) {
      case Some(protocol) =>
        ChangeIs(protocol, w.socksPort);
        Redirected(u, w, [GetStatus], Status);
      case None =>
        DoOne(ListProfiles);
        ShownAtOnce(u, w);
        ShowsAt(u, w, OpsOf(Plan(u, w).steps), Plan(u, w).next.page);
    }
  }

  lemma ShowsAt(u: string, w: World, ops: seq<Op>, page: Page)
    requires Shows(u, w, ops, page)
    ensures Serve(u, w, 0, None) == Outcome(ops, [LoadHtml(page)], true)
  {
  }

  lemma AskedPlan(kind: string, w: World)
    ensures match Asked(kind, w)
            case Some(protocol) =>
              NetworkPlan(kind, w) == PagePlan(ChangeSteps(protocol, w.socksPort), Goto("sentinel://status"))
            case None =>
              NetworkPlan(kind, w) ==
                if kind == "v2ray" then PagePlan([Do(ListProfiles)], Show(V2RayUnavailable))
                else PagePlan([], Show(NotAvailable))
  {
    hide ChangeSteps;
  }

  lemma ChangeIs(protocol: Protocol, port: Option<u16>)
    ensures OpsOf(ChangeSteps(protocol, port)) == [SetProtocol(protocol)]
    ensures SentBy(ChangeSteps(protocol, port))
         == [NetworkStatusChanged(protocol)] + if port.Some? then [SocksReady(port.value)] else []
  {
    var tail := if port.Some? then [Send(SocksReady(port.value))] else [];
    if port.Some? {
      SendFirst(SocksReady(port.value), []);
      assert [Send(SocksReady(port.value))] + [] == tail;
    }
    SendFirst(NetworkStatusChanged(protocol), tail);
    DoFirst(SetProtocol(protocol), [Send(NetworkStatusChanged(protocol))] + tail);
    assert ChangeSteps(protocol, port) == [Do(SetProtocol(protocol))] + ([Send(NetworkStatusChanged(protocol))] + tail);
  }

  // ---------------------------------------------------------------------------------------------------------------
  // Downloads
  // ---------------------------------------------------------------------------------------------------------------

  lemma DownloadRouted(text: string)
    ensures RouteOf("sentinel://download" + "?url=" + text) == DoDownload
  {
    var p := "sentinel://download?";
    var u := p + ("url=" + text);
    assert u == "sentinel://download" + "?url=" + text;
    DoIsNotFixed(u);
    DoIsNotAction(u);
    hide FixedPage, Action;
    assert u[..|p|] == p;
    assert u[12] == 'o' && u[19] == '?';
  }

  lemma DownloadPlanned(u: string, w: World)
    requires RouteOf(u) == DoDownload
    ensures Plan(u, w) == DownloadPlan(u, w)
  {
    hide RouteOf, DownloadPlan;
  }

  lemma SavedPlan(u: string, file: string, w: World)
    requires IsWebUrl(DownloadAddress(u)) && w.downloaded == Some(file)
    ensures DownloadPlan(u, w) ==
      PagePlan([Do(Fetch(DownloadAddress(u))), Do(StoreDownload(DownloadAddress(u), file, true))],
               Goto("sentinel://download_complete?file=" + file))
  {
    assert DownloadAddress(u) != "";
    hide DownloadAddress, IsWebUrl, Split;
  }

  /** A download that works is fetched from the address asked for, recorded as saved, and its page names the file. */
  lemma DownloadSaved(address: string, file: string, w: World)
    requires IsWebUrl(address) && w.downloaded == Some(file) && '?' !in file
    ensures Serve("sentinel://download" + "?url=" + Percent.Encoded(address), w, 0, None) ==
      Outcome([Fetch(address), StoreDownload(address, file, true)], [LoadHtml(DownloadComplete(file))], true)
  {
    hide Serve, RouteOf, Plan, Percent.Encoded, IsWebUrl, DownloadAddress, DownloadPlan, Shows;
    var u := "sentinel://download" + "?url=" + Percent.Encoded(address);
    DownloadRouted(Percent.Encoded(address));
    AddressDecoded(address);
    DownloadPlanned(u, w);
    SavedPlan(u, file, w);
    DoTwo(Fetch(address), StoreDownload(address, file, true));
    CompletePage(file, w);
    Redirected(u, w, [], DownloadComplete(file));
  }

  /** One that fails is recorded as such, under what follows the last slash of the address. */
  lemma DownloadFailed(front: string, file: string, w: World)
    requires IsWebUrl(front + "/" + file) && '/' !in file && w.downloaded == None
    ensures var address := front + "/" + file;
      Shows("sentinel://download" + "?url=" + Percent.Encoded(address), w,
            [Fetch(address), StoreDownload(address, file, false)], DownloadError)
  {
    hide Serve, RouteOf, Percent.Encoded, IsWebUrl, DownloadAddress, Split;
    var address := front + "/" + file;
    var u := "sentinel://download" + "?url=" + Percent.Encoded(address);
    DownloadRouted(Percent.Encoded(address));
    AddressDecoded(address);
    LastPiece(front, file);
    DoTwo(Fetch(address), StoreDownload(address, file, false));
    ShownAtOnce(u, w);
  }

  lemma {:induction false} LastPiece(front: string, file: string)
    requires '/' !in file
    ensures Split(front + "/" + file, "/")[|Split(front + "/" + file, "/")| - 1] == file
    decreases |front|
  {
    var s := front + "/" + file;
    assert OccursAt(s, "/", |front|);
    FindIsFirst(s, "/", |front|);
    var i := Find(s, "/").value;
    if i == |front| {
      NotContained(file, "/");
      assert s[i + 1..] == file;
    } else {
      assert s[i + 1..] == front[i + 1..] + "/" + file;
      LastPiece(front[i + 1..], file);
    }
  }

  /** Anything but a web address is not fetched. */
  lemma NoWebAddressNoDownload(address: string, w: World)
    requires !IsWebUrl(address)
    ensures Shows("sentinel://download" + "?url=" + Percent.Encoded(address), w, [], DownloadError)
  {
    hide Serve, RouteOf, Percent.Encoded, IsWebUrl, DownloadAddress;
    var u := "sentinel://download" + "?url=" + Percent.Encoded(address);
    DownloadRouted(Percent.Encoded(address));
    AddressDecoded(address);
    ShownAtOnce(u, w);
  }

  lemma AddressDecoded(address: string)
    ensures DownloadAddress("sentinel://download" + "?url=" + Percent.Encoded(address)) == address
  {
    hide SecondPart, Percent.EncodeBytes, Percent.Decoded, Percent.SpacesForPluses, Percent.WellEncoded;
    Percent.EncoderAlphabet(Utf8.Encode(address));
    Percent.WellEncodedHasNoMark(Percent.Encoded(address));
    SplitOnce("sentinel://download", "?url=", Percent.Encoded(address));
    Percent.PrePassChangesNothing(Percent.Encoded(address));
    Percent.RoundTrip(address);
  }

  // ---------------------------------------------------------------------------------------------------------------
  // Requests in which a call fails
  // ---------------------------------------------------------------------------------------------------------------

  /** Calls that cannot fail, or whose failure is passed over. */
  predicate Tolerated(op: Op) {
    match op
    case GetBookmarks => true
    case GetHistory => true
    case GetStatus => true
    case ListProfiles => true
    case ListProposals => true
    case Harden => true
    case CastVote(_, _) => true
    case Install => true
    case TestConnection => true
    case Fetch(_) => true
    case StoreDownload(_, _, saved) => !saved
    case _ => false
  }

  lemma FailsIff(op: Op, n: nat, at: nat)
    ensures Fails(op, n, Some(at)) <==> n == at && !Tolerated(op)
  {
  }

  lemma {:induction false} ExecFails(steps: seq<Step>, n: nat, at: nat)
    requires n <= at
    ensures var full, r := OpsOf(steps), Exec(steps, n, Some(at));
      && (r.ok <==> at - n >= |full| || Tolerated(full[at - n]))
      && r.ops == (if r.ok then full else full[..at - n + 1])
      && (r.ok ==> r.sent == SentBy(steps))
      && r.sent <= SentBy(steps)
    decreases |steps|
  {
    if steps != [] {
      hide Fails, Tolerated;
      if steps[0].Do? {
        FailsIff(steps[0].op, n, at);
      }
      var rest := steps[1..];
      assert OpsOf(steps) == (if steps[0].Do? then [steps[0].op] else []) + OpsOf(rest);
      if steps[0].Send? {
        ExecFails(rest, n, at);
      } else if at > n {
        ExecFails(rest, n + 1, at);
      } else {
        ExecPast(rest, n + 1, at);
      }
    }
  }

  lemma {:induction false} ExecPast(steps: seq<Step>, n: nat, at: nat)
    requires at < n
    ensures Exec(steps, n, Some(at)) == Outcome(OpsOf(steps), SentBy(steps), true)
  {
    if steps != [] {
      ExecPast(steps[1..], n, at);
      ExecPast(steps[1..], n + 1, at);
    }
  }

  /** A failing call ends the request there, with no page, unless it is one that is passed over. */
  lemma FailureEnds(u: string, w: World, at: nat)
    ensures var full, r := Serve(u, w, 0, None), Serve(u, w, 0, Some(at));
      && (r.ok <==> at >= |full.ops| || Tolerated(full.ops[at]))
      && r == (if r.ok then full else Outcome(full.ops[..at + 1], r.sent, false))
      && r.sent <= full.sent
  {
    hide Plan, Tolerated, Exec;
    var plan := Plan(u, w);
    ExecAll(plan.steps, 0);
    ExecFails(plan.steps, 0, at);
    if plan.next.Goto? {
      RedirectLands(u, w);
      if at < |OpsOf(plan.steps)| {
        ExecPast(Plan(plan.next.target, w).steps, |OpsOf(plan.steps)|, at);
        ExecAll(Plan(plan.next.target, w).steps, |OpsOf(plan.steps)|);
      } else {
        PageFails(u, w, at);
      }
    }
  }

  lemma PageFails(u: string, w: World, at: nat)
    requires Plan(u, w).next.Goto? && at >= |OpsOf(Plan(u, w).steps)|
    ensures var full, r := Serve(u, w, 0, None), Serve(u, w, 0, Some(at));
      && (r.ok <==> at >= |full.ops| || Tolerated(full.ops[at]))
      && r == (if r.ok then full else Outcome(full.ops[..at + 1], r.sent, false))
      && r.sent <= full.sent
  {
    hide Plan, Tolerated, Exec, OpsOf;
    var plan := Plan(u, w);
    var m := |OpsOf(plan.steps)|;
    RedirectLands(u, w);
    var page := Plan(plan.next.target, w);
    ExecAll(plan.steps, 0);
    ExecFails(plan.steps, 0, at);
    ExecAll(page.steps, m);
    ExecFails(page.steps, m, at);
    var ops, rest := OpsOf(plan.steps), OpsOf(page.steps);
    assert at < m + |rest| ==> (ops + rest)[at] == rest[at - m] && (ops + rest)[..at + 1] == ops + rest[..at - m + 1];
  }
}