# Sentinel Browser, verified model

A Dafny model of the stateful parts of Sentinel Browser and proofs of what they keep. Verify everything with
`dafny verify dfyconfig.toml`.

Objects that the browser changes in place are classes; each method is proved to take the object's abstract value to
what a specification function says. The promises are then proved about those functions, over all inputs and whole
runs. A few results are of the form "if and only if", because the plain claim is false of the code.

- **Tabs, end to end** (`Tabs`, `CommandLoop`, `Browsing`, `UiLoop`, `TabPool`, `Chrome`, `Agreement`). The core's tab
  manager and command loop send events into a queue; the chrome's event loop takes them off and drives a cache of at
  most three live views. Storage, searches, network changes and view builds may fail at any point. Main results: the pool's invariant after
  every operation, failed ones included; the cache is the recent end of an unlimited recency list; tab histories are
  zippers; every strip the chrome shows is one the core had, and once the queue is drained the two agree.
- **Internal pages** (`Dispatcher`, `Pages`, `AddressBar`, `Percent`, `Utf8`, `Html`). The ordered arms of the
  `sentinel://` dispatcher, its redirect loop, what each arm calls and shows, the address bar that feeds it, the percent
  codec on UTF-8 bytes, HTML escaping.
- **Governance** (`Governance`). Submissions, votes, queueings and executions over clocked runs with a log of what
  happened; the status of every proposal is read off the log, whatever ids a run repeats.
- **Search** (`Ranking`, `Dht`, `Hex`). The stable sort, collapse and cut of merged results; the peer index's command
  loop over its directory of shards, with failing writes, restarts and query events.
- **Network** (`Connections`, `Dns`, `Socks`). The connection counter under all interleavings of fetches and downloads,
  the DNS cache under interleaved lookups, the SOCKS5 front door.

`Prelude` holds machine words, options, order-preserving removal and the string tests (`Words`, `Wrappers`, `Lists`,
`Text`); `Messages` what core and chrome say to each other.

What the outside decides is a parameter: clocks, whether a call fails, which key a hash map lists first, the network's
answers. Proof verification in governance is an arbitrary predicate on votes. `Browsing`, `Chrome` and `Pages` say what
the specification functions mean without naming them.

## Where the plain claim fails

Each with the exact condition and a run or input that fails.

- Result addresses are not unique: the collapse sees neighbours only. `Ranking.UrlsDistinctIff`,
  `Ranking.RepeatWitness`.
- The strip goes stale when the settings cannot be read: `CommandLoop.StripStaleIff`, `Agreement.StaleStripWitness`;
  the next navigation that reads them heals it (`Agreement.NavigationRestoresAgreement`).
- Closing the active tab may promote a suspended tab without waking it: `CommandLoop.ActiveSuspendedIff`,
  `Agreement.AsleepWitness`; no suspended active tab comes from anywhere else (`Agreement.SuspendedWasPromoted`).
- Closing a stale id while one tab is open adds a tab: `CommandLoop.TabCountAfterClose`, `Agreement.StaleCloseWitness`.
- A failed switch may leave the pool on the previous tab, a failed rebuild its active id with no view:
  `UiLoop.FailedSwitchShowsTabIff`, `UiLoop.FailedSwitchWitness`, `TabPool.DanglingExactlyWhenEmpty`,
  `UiLoop.DanglingWitness`.
- Two of the four arms that rebuild do not ask what the page wants. `SocksReady` ignores the V2Ray label, so a change to
  V2Ray ends without a proxy (`UiLoop.SocksReadyAgreesIff`, `UiLoop.SocksReadyWitness`, `Agreement.V2RayEndToEnd`).
  `PrivacyUpdated` keeps to a proxy only if the active view had one (`UiLoop.PrivacyUpdatedAgreesIff`,
  `UiLoop.PrivacyUpdatedWitness`).
- A download never gives back its stream's increment, a fetch not after a failure on its stream:
  `Connections.LeftIsZeroIff`, `Connections.DownloadWitness`.
- A proposal runs once if its id is submitted once and not queued outside a vote (`Governance.OnceEach`). Any run that
  submits an id twice, or queues it, goes on to one where it runs again (`Governance.SubmittedTwiceRunsTwice`,
  `Governance.QueueingReopens`). The 48 hours hold in either case (`Governance.TimelockHolds`).
- The search arm searches for the percent-encoded text, though the download arm decodes its parameter:
  `AddressBar.SearchGetsTypedIff`, `AddressBar.SearchWitness`.

Where comments and code differ the model follows the code: the shard store's header says that a Get falls back to disk
when the network has nothing, the loop asks the disk first (search/src/lib.rs:437-443); the last tab's close is said to
reset to home (core/src/lib.rs:543), which fails for a stale id.

## Model

| member | source | states |
|---|---|---|
| `TabPool.TabWebViewPool.constructor` | ui/src/tab_pool.rs:26-40 | A new pool holds the first view alone, and it is the active one. |
| `TabPool.TabWebViewPool.Touch` | ui/src/tab_pool.rs:77-80 | The touched tab moves to the recent end of the list, wherever it was. |
| `TabPool.TabWebViewPool.HideAll` | ui/src/tab_pool.rs:82-86 | Every view becomes invisible and nothing else changes. |
| `TabPool.TabWebViewPool.EvictIfNeeded` | ui/src/tab_pool.rs:88-99 | The eviction loop ends, and drops the oldest views that are not to be kept until three are left. |
| `TabPool.TabWebViewPool.Switch` | ui/src/tab_pool.rs:101-143 | The whole new state of a switch: hit, build with eviction, or failed build after everything was hidden. |
| `TabPool.TabWebViewPool.CloseTab` | ui/src/tab_pool.rs:145-157 | The view and its place go; if it was active the most recent one left takes over and is shown. |
| `TabPool.TabWebViewPool.Rebuild` | ui/src/tab_pool.rs:159-184 | Every view is dropped before the one new view is built; on failure none is left but proxy and privacy are the new ones. |
| `TabPool.NeedsProxyIff` | ui/src/tab_pool.rs:186-188 | The pool has another proxy than the wanted one exactly when no cached view has that, nor any view a switch brings up. |
| `TabPool.TabWebViewPool.LoadUrlActive` | ui/src/tab_pool.rs:190-197 | Only the active view's address changes, and only when there is such a view. |
| `TabPool.RepInvAlways` | ui/src/tab_pool.rs:77-184 | In every reachable state, failed builds included: cached views are exactly the listed ids, without duplicates, at most three, a non-empty list ends in the active tab, only that one may be visible, and every view has the pool's proxy and privacy. |
| `TabPool.AtMostThreeViews` | ui/src/tab_pool.rs:15-184 | No run of switches, closes, rebuilds and loads, failing or not, ever leaves more than three views alive. |
| `TabPool.EvictLeavesThree` | ui/src/tab_pool.rs:88-99 | However many views there are, the loop drops the oldest and leaves the three most recent, untouched. |
| `TabPool.EvictDropsOldest` | ui/src/tab_pool.rs:88-99 | One view too many costs exactly the least recent one, never the one being switched to. |
| `TabPool.SwitchKeepsRepInv` | ui/src/tab_pool.rs:101-143 | A switch keeps the invariant; on success the tab is active, live and visible, on failure active and order stay and nothing is visible. |
| `TabPool.SwitchShowsIff` | ui/src/tab_pool.rs:108-139 | A successful switch shows the tab's address exactly when the view is built, shows it already, or belongs to a hidden tab and the address is http or https. |
| `TabPool.CloseKeepsRepInv` | ui/src/tab_pool.rs:145-157 | Closing removes exactly the given views, and when it removes the active one the tab taking over is visible. |
| `TabPool.CloseOneMore` | ui/src/lib.rs:229-236 | Closing stale tabs one at a time, in any order of the hash map, is closing them together. |
| `TabPool.DanglingExactlyWhenEmpty` | ui/src/tab_pool.rs:159-184 | The active id has a view exactly when the cache is not empty. |
| `TabPool.CacheIsRecentSuffix` | ui/src/tab_pool.rs:77-184 | Over any run of switches, closes, rebuilds and loads, failing or not, the cache order is an end of the list an unlimited cache would keep; which end is the next two rows. |
| `TabPool.StepCachedIff` | ui/src/tab_pool.rs:101-184 | One operation: a tab is cached after it exactly if it was brought up by it, or was cached and is still among the three most recent. |
| `TabPool.CachedIffRecentSince` | ui/src/tab_pool.rs:77-184 | Over any such run, exactly those tabs have a live view that some operation brought up and that have had fewer than three others behind them on the unlimited recency list at every moment since. |
| `TabPool.VisitKeepsRecentThree` | ui/src/tab_pool.rs:77-143 | After visits whose views could be built, exactly the last three distinct tabs are cached, in order. |
| `TabPool.CachedIffFewSince` | ui/src/tab_pool.rs:77-143 | A tab has a live view exactly when it was visited and fewer than three other tabs were visited since. |
| `Tabs.TabManager.Add` | core/src/lib.rs:147-162 | The new tab gets the next id, which wraps at 32 bits, becomes active and starts a history of one entry. |
| `Tabs.TabManager.Switch` | core/src/lib.rs:164-172 | A known tab becomes active, fresh and awake; an unknown id changes nothing. |
| `Tabs.TabManager.Close` | core/src/lib.rs:174-184 | The tab goes; if it was active some remaining tab is promoted as it is, or id 0 when none remains. |
| `Tabs.RemovalTells` | core/src/lib.rs:174-184 | Removing the active tab promotes some other, or leaves id 0 when there is none; removing another moves nothing. |
| `Tabs.TabManager.Suspend` | core/src/lib.rs:190-206 | Exactly the tabs idle beyond the threshold and not active become suspended, and exactly their saved states, where they have one, are written. |
| `Tabs.SavedIff` | core/src/lib.rs:190-206 | Written are the states, where there are any, of exactly the tabs that the pass puts to sleep. |
| `Tabs.TabManager.PushUrl` | core/src/lib.rs:241-255 | The active tab's history is cut at its place and extended unless the address repeats. |
| `Tabs.TabManager.Back` | core/src/lib.rs:257-267 | One entry back when there is one, with the address shown following; else nothing. |
| `Tabs.TabManager.Forward` | core/src/lib.rs:269-279 | One entry forward when there is one; else nothing. |
| `Tabs.TabManager.List` | core/src/lib.rs:208-223 | The strip by ascending id, one entry a tab, marking the active one. |
| `Tabs.SortingGivesStrip` | core/src/lib.rs:208-223 | Sorting by id any listing of the map in any order gives the one strip. |
| `Tabs.ByIdUnique` | core/src/lib.rs:221 | Two strips in ascending order of id with the same entries are equal. |
| `Tabs.PushIsVisit` | core/src/lib.rs:241-255 | Pushing is visiting in a (back, current, forward) zipper: it drops what lay ahead even when the address is the one shown, and never leaves two equal neighbours. |
| `Tabs.BackIsStepBack` | core/src/lib.rs:257-267 | Going back is the zipper's step back. |
| `Tabs.ForwardIsStepForward` | core/src/lib.rs:269-279 | Going forward is the zipper's step forward. |
| `Tabs.ZipIsFaithful` | core/src/lib.rs:115-124 | The zipper loses nothing: it determines history and place. |
| `Tabs.BackAndForward` | core/src/lib.rs:257-279 | Any number of steps back that is possible, then as many forward, restores the tabs. |
| `CommandLoop.Aegis.constructor` | core/src/lib.rs:357-358 | The core starts with one tab on the welcome page. |
| `CommandLoop.Aegis.Sync` | core/src/lib.rs:423-436 | Sends exactly the current strip. |
| `CommandLoop.Aegis.NavigateTo` | core/src/lib.rs:579-642 | Tabs and events of a navigation: history first, then strip and page; unreadable settings end it in between. |
| `CommandLoop.Aegis.Execute` | core/src/lib.rs:466-571 | Each command's new tabs and the events it sends, in order, are those specified, whatever fails. |
| `CommandLoop.CommandKeepsOk` | core/src/lib.rs:466-571 | Every command keeps: the active id names a tab, keys equal stored ids, each tab's address is its current history entry, and no history repeats its predecessor. |
| `CommandLoop.CommandTellsStrip` | core/src/lib.rs:466-612 | With readable settings a command that navigates sends, last, the strip of the tabs as they end up, whatever strip was in force; any other changes neither. |
| `CommandLoop.CommandSendsStrips` | core/src/lib.rs:466-612 | Whatever fails, every strip a command sends lists the tabs as they were at some moment of it. |
| `CommandLoop.PassingEnds` | core/src/lib.rs:466-612 | The states a command passes through end in the one it leaves. |
| `CommandLoop.StripStaleIff` | core/src/lib.rs:579-612 | With unreadable settings the strip held by the chrome is out of date exactly after a navigation elsewhere, a possible back or a possible forward. |
| `CommandLoop.PassSparesActive` | core/src/lib.rs:190-206 | A suspend pass neither suspends nor wakes the active tab and changes no strip. |
| `CommandLoop.ActiveAfter` | core/src/lib.rs:147-184 | Which tab is active after each command. |
| `CommandLoop.ActiveSuspendedIff` | core/src/lib.rs:164-184 | The exact commands after which the active tab is suspended: only promotion on close makes it so. |
| `CommandLoop.TabCountAfterClose` | core/src/lib.rs:540-548 | The number of tabs after a close: a stale id with one tab open leaves two. |
| `Browsing.GoesWhereItSays` | core/src/lib.rs:466-642 | A command that navigates, the settings readable, ends in the strip as the tabs then are and the page of the address the active tab then has: a web address as it is, a bare host over https or, for an onion, http, a query's results, an internal page; a tab opened or shown sends strip and address before that. |
| `Browsing.LoadsOnce` | core/src/lib.rs:614-640 | A load is sent exactly for a web address or a host, once, last, and directly behind the address bar's text for it. |
| `Browsing.SettingsAreAnnounced` | core/src/lib.rs:438-450 | Network, proxy mode and privacy commands announce exactly what they set, each value under its own name, and leave the tabs alone. |
| `Browsing.HistoryAfter` | core/src/lib.rs:466-612 | The history of the tab active after each command: visited, stepped back or forward, new, or that of the tab switched to or promoted, whatever storage does. |
| `Browsing.TabsAfter` | core/src/lib.rs:466-557 | Which tabs there are after each command: no other is opened or closed. |
| `Browsing.OthersAreSpared` | core/src/lib.rs:466-612 | No tab but the one active after a command changes in any way. |
| `Browsing.TimeAfter` | core/src/lib.rs:147-172 | The time kept of the active tab is that of the command if it opened it or switched to it, else what it was. |
| `Browsing.TitleAfter` | core/src/lib.rs:595-611 | After a navigation an internal page is titled by its path up to the query, any other address by its first 32 characters. |
| `Browsing.FirstTabsAre` | core/src/lib.rs:357-358 | The core starts with tab 0 on the welcome page, made at the time given, and the next id is 1. |
| `Browsing.NewTabIsNew` | core/src/lib.rs:147-162 | A tab opened is new in every respect: its id, home, its title, its time, awake, and a history of one. |
| `Browsing.StripTells` | core/src/lib.rs:208-223 | The strip has each tab once, ids ascending, with its own title and address, and marks the active one. |
| `Browsing.PassSuspendsIff` | core/src/lib.rs:190-206 | A pass puts to sleep exactly the tabs not active for more than the threshold in whole seconds and changes nothing else. |
| `UiLoop.WindowManager.constructor` | ui/src/lib.rs:123-149 | The chrome's variables at start, with a pool only if the content engine could be created. |
| `UiLoop.WindowManager.CloseStale` | ui/src/lib.rs:229-236 | The loop over the cached ids closes exactly those not in the strip, whatever the order of the hash map. |
| `UiLoop.WindowManager.OnTabsChanged` | ui/src/lib.rs:224-247 | A new strip closes stale views, then switches to its active tab; the variables follow even if the switch fails. |
| `UiLoop.WindowManager.Handle` | ui/src/lib.rs:160-335 | Each event's effect on pool, strip, address bar, label and port is the one specified. |
| `UiLoop.EventKeepsSound` | ui/src/lib.rs:224-247 | Every event from the core, however builds go, keeps the pool's invariant and leaves views for tabs of the strip only. |
| `UiLoop.EventSettles` | ui/src/lib.rs:160-335 | With its build succeeding, every event keeps the chrome's active tab live and active in the pool. |
| `UiLoop.StripSettlesPool` | ui/src/lib.rs:224-247 | A strip whose view can be built puts the pool on its active tab, whatever failed before. |
| `UiLoop.FailedSwitchShowsTabIff` | ui/src/lib.rs:237-245 | When the view cannot be built the pool is on the new tab exactly if it was cached or already the active id. |
| `UiLoop.FailedSwitchWitness` | ui/src/lib.rs:237-245 | From start-up, one strip whose view cannot be built leaves the chrome on tab 5 and the pool on tab 0. |
| `UiLoop.DanglingWitness` | ui/src/tab_pool.rs:159-184 | From start-up, one failed rebuild leaves an active id and no view. |
| `UiLoop.RunKeepsRepInv` | ui/src/lib.rs:156-335 | After any events the pool's invariant holds, and pool and chrome have the same active tab if no build failed. |
| `UiLoop.LoadUrlSetsProxy` | ui/src/lib.rs:305-329 | A page load leaves the pool on the proxy the page wants, built or not. |
| `UiLoop.ProxyAgreesAfterLoad` | ui/src/lib.rs:305-329 | After any events ending in a page load, builds succeeding, the active view shows that page through the proxy it wants. |
| `UiLoop.ProxyStays` | ui/src/lib.rs:224-247 | Events other than the four that rebuild never change proxy or privacy. |
| `UiLoop.EveryViewSharesLoadProxy` | ui/src/tab_pool.rs:117-127 | Until the next rebuild every view, those created by later switches included, has the proxy of the last page load. |
| `UiLoop.SocksReadyAgreesIff` | ui/src/lib.rs:193-215 | A new port leaves the proxy the page wants exactly when the label is not V2Ray or the page is an onion. |
| `UiLoop.V2RayLosesProxy` | ui/src/lib.rs:193-283 | What a change to V2Ray sends takes the proxy from any page that is no onion, every view built. |
| `UiLoop.SocksReadyWitness` | ui/src/lib.rs:193-215 | From start-up, a change to V2Ray and a new port, every view built, leave the active view without the proxy its page wants. |
| `UiLoop.NetworkChangeAgrees` | ui/src/lib.rs:253-283 | A change of network always leaves the proxy the restored page wants under the new label. |
| `UiLoop.PrivacyUpdatedAgreesIff` | ui/src/lib.rs:163-192 | A change of privacy leaves the proxy the page wants exactly when no port is known, or the active view has a proxy just when the page wants one. |
| `UiLoop.PrivacyUpdatedWitness` | ui/src/lib.rs:163-192 | From start-up under Tor, a failed rebuild and a change of privacy leave a live view without the proxy its page wants. |
| `Chrome.PrivacyIsTheLastSent` | ui/src/lib.rs:163-192 | After any events, with rebuilds for ports, networks and pages and with failed builds, the pool and every cached view have the level, the WebRTC and WebGL flags and the sandbox label last sent, each under its own name, or those of start-up; the other two settings never change. |
| `Chrome.VariablesAreTheLastSent` | ui/src/lib.rs:156-335 | After any events the port, the strip, the text of the address bar and the active tab are those last sent. |
| `Chrome.NetworkIsTheLastSent` | ui/src/lib.rs:253-262 | The network shown names the protocol last sent, Tor at start-up. |
| `Chrome.PageGoesThrough` | ui/src/lib.rs:305-329 | With every view built, a page sent is on the view of the tab last marked active, and goes through the port last announced exactly if it is an onion or the protocol last sent is Tor or V2Ray. |
| `Chrome.LoadKeepsViews` | ui/src/lib.rs:305-329 | A page sent goes to the view there is, every view staying, if the pool has the proxy it wants; otherwise all views go and one on the active tab comes if it can be built. |
| `Chrome.RebuildsKeepThePage` | ui/src/lib.rs:163-283 | A rebuild for privacy, a port or a network leaves one view, on the active tab, visible, with the page shown before. |
| `Chrome.NothingBringsBlank` | ui/src/tab_pool.rs:64-68 | With no view left after a failed rebuild, the page brought back is a blank one. |
| `Chrome.StripBringsUp` | ui/src/lib.rs:224-247 | A strip whose view can be built leaves views of its tabs only, its active one alone visible; that one has the address listed exactly if it is new, had it already, or was hidden and the address is one of the web. |
| `Chrome.StartsBlank` | ui/src/lib.rs:123-137 | At start-up the pool has one blank view, shown, with no proxy. |
| `Chrome.HtmlTakesTheBar` | ui/src/lib.rs:293-304 | A rendered page is remembered under the text of the address bar; no other view is touched. |
| `Chrome.SwitchLeavesOthers` | ui/src/tab_pool.rs:101-143 | A switch changes of the other views only that they are hidden. |
| `Chrome.CloseLeavesOthers` | ui/src/tab_pool.rs:145-157 | Closing changes of the views left only that the one taking over is shown. |
| `Agreement.AlwaysSound` | core/src/lib.rs:452-577 | In every interleaving of core and chrome, failures included: every event sent was taken or is queued, in order; each strip among them lists tabs the core had in this run; the chrome shows the last strip taken with the active tab of such a state; tabs and pool are well-formed. |
| `Agreement.StaysInStep` | core/src/lib.rs:452-577 | Once the queue ends in the core's strip it always does, as long as the settings can be read. |
| `Agreement.DrainedMeansAgreed` | core/src/lib.rs:423-436 | Whenever the queue is drained after boot: the strip tells of the core's tabs with their titles and addresses, the active ids agree, every cached view is of an open tab; with builds succeeding the pool's active view is live and the core's active tab. |
| `Agreement.NavigationRestoresAgreement` | core/src/lib.rs:466-612 | Whatever failed before, one command that navigates and reads its settings brings agreement back, at every drained queue after it. |
| `Agreement.StripSettles` | ui/src/lib.rs:224-247 | Whatever failed to build before, one strip taken with its view built puts the pool on the active tab. |
| `Agreement.SettingsAlwaysFollow` | core/src/lib.rs:438-576 | In every run, whatever fails, the chrome has the port, and in its pool and every view the privacy, that the core sent last among what was taken; all of it once the queue is drained. |
| `Agreement.StaleStripWitness` | core/src/lib.rs:579-612 | After boot, one navigation with unreadable settings leaves the queue ending in another strip than the core's. |
| `Agreement.BootTellsStrip` | core/src/lib.rs:374-417 | Boot's events end in the strip of the tabs it leaves. |
| `Agreement.BootAnnounces` | core/src/lib.rs:374-400 | Boot announces the port there is, the protocol in force, last, and a network that failed. |
| `Agreement.BootGoesHome` | core/src/lib.rs:412 | After boot there is one tab, whose history leads from the welcome page home. |
| `Agreement.FiveMinutes` | core/src/lib.rs:459-461 | In every run a suspend pass puts to sleep exactly the tabs not active that were last used 301 whole seconds ago or more. |
| `Agreement.TypedTextIsRemembered` | ui/src/lib.rs:293-304 | In every run typing touches nothing but the address bar, and a page rendered next is remembered under what was typed. |
| `Agreement.CommandKeepsKeys` | core/src/lib.rs:466-571 | Only a new tab, or the last one's close, takes an id, the next one; no other id appears. |
| `Agreement.IdsAlwaysCounted` | core/src/lib.rs:147-149 | In every run the next id is the number of tabs ever created modulo 2^32; until that many it is in no open tab and above all of them. |
| `Agreement.SuspendedWasPromoted` | core/src/lib.rs:164-206 | In every run a suspended active tab was promoted asleep by closing the active one, and nothing has woken it or taken its place since. |
| `Agreement.AsleepWitness` | core/src/lib.rs:174-206 | Boot, a second tab, a pause of five minutes and closing that tab leave the active tab suspended. |
| `Agreement.StaleCloseWitness` | core/src/lib.rs:540-548 | Closing an id that is no tab right after boot leaves two tabs. |
| `Agreement.V2RayEndToEnd` | core/src/lib.rs:438-450 | In any run, a change to V2Ray whose two events are taken with every view built leaves a page that is no onion without the proxy it wants. |
| `Dispatcher.CompleteIsTerminal` | core/src/lib.rs:1003-1026 | The address a finished download redirects to reaches the completion page past all prefix guards, whatever the file name. |
| `Dispatcher.PlanTargets` | core/src/lib.rs:644-1050 | Every redirect goes to one of six pages or the completion page. |
| `Dispatcher.RedirectLands` | core/src/lib.rs:644-1050 | Every redirect target renders a page and only reads on the way. |
| `Dispatcher.OnePagePerRequest` | core/src/lib.rs:1036-1050 | For every address and failure a request that succeeds sends exactly one page, one that fails none. |
| `Dispatcher.EffectsHappenOnce` | core/src/lib.rs:644-1050 | A request's effects are those of its address's arm, once each and in order; a failed one's are an initial part. |
| `Dispatcher.ReadParam` | core/src/lib.rs:784-792 | The last value given for the key wins; the default stands when none is. |
| `Dispatcher.RunSteps` | core/src/lib.rs:644-1050 | Calls are made in order up to the first one that fails. |
| `Dispatcher.HandleInternalPage` | core/src/lib.rs:644-1050 | The redirect loop ends within two rounds and does what the specification of the request says. |
| `Pages.HomePages` | core/src/lib.rs:649-653 | The three addresses of the home page: what is read and what is shown. |
| `Pages.NetworkPages` | core/src/lib.rs:654-691 | Status, connect and network menu. |
| `Pages.RecordPages` | core/src/lib.rs:699-723 | Bookmarks, history and proposals. |
| `Pages.SettingsPage` | core/src/lib.rs:692-698 | The settings page reads four settings. |
| `Pages.StaticPages` | core/src/lib.rs:703-711 | The three pages that read nothing. |
| `Pages.DownloadsPage` | core/src/lib.rs:1027-1030 | The downloads page. |
| `Pages.SecurityPage` | core/src/lib.rs:1031-1037 | The security page. |
| `Pages.CompletePage` | core/src/lib.rs:1023-1026 | The page of a finished download names the file. |
| `Pages.NowherePage` | core/src/lib.rs:1038-1041 | An address no arm knows shows the page for that. |
| `Pages.ParamOf` | core/src/lib.rs:784-792 | What an arm reads of a query is what was put in, the last value where a key comes twice. |
| `Pages.DecimalIsRead` | core/src/lib.rs:1064 | A number in decimal is read back up to the type's maximum and is nothing above it. |
| `Pages.OtherTextIsZero` | core/src/lib.rs:1064 | Any other text is read as zero. |
| `Pages.BookmarkStored` | core/src/lib.rs:782-797 | A bookmark is stored with the address and the title given, and the bookmarks shown. |
| `Pages.Obfs4Stored` | core/src/lib.rs:856-874 | An obfs4 bridge is stored with its three fields as given. |
| `Pages.SnowflakeStored` | core/src/lib.rs:875-891 | A snowflake bridge is stored with both fields as given. |
| `Pages.VmessStored` | core/src/lib.rs:892-910 | A VMess configuration is stored with its three fields as given. |
| `Pages.VlessStored` | core/src/lib.rs:911-929 | A VLESS configuration is stored with its three fields as given. |
| `Pages.TrojanStored` | core/src/lib.rs:930-943 | A Trojan configuration is stored with its password. |
| `Pages.ProfileSaved` | core/src/lib.rs:944-957 | The protocol in force is stored under the name given, "Profile" without one. |
| `Pages.ProfileUsed` | core/src/lib.rs:958-970 | The profile named is switched to. |
| `Pages.HostAllowed` | core/src/lib.rs:765-772 | The host given is put on the allow-list; without one nothing is. |
| `Pages.VoteCast` | core/src/lib.rs:1052-1099 | A vote is cast for the number given, in favour exactly when the approval given last is "true" or none is given; for 0 and numbers out of range none is. |
| `Pages.VoteByAddress` | core/src/lib.rs:1055 | The address with id n and approval v makes exactly the vote on n, in favour iff v is "true". |
| `Pages.VoteWithoutApproval` | core/src/lib.rs:1055 | Without approval the vote is in favour. |
| `Pages.NoNumberNoVote` | core/src/lib.rs:1069-1071 | An id that is no number votes for nothing. |
| `Pages.HistoryToggled` | core/src/lib.rs:729-735 | The setting is read, its opposite stored, and the settings shown. |
| `Pages.ToggledTwice` | core/src/lib.rs:729-735 | Toggling twice stores the setting that was there. |
| `Pages.LevelGoesRound` | core/src/lib.rs:736-764 | The level goes round in three; it is stored and set, the system hardened and the chrome told, WebRTC blocked and WebGL off above the lowest. |
| `Pages.HistoryCleared` | core/src/lib.rs:724-728 | The history is cleared once and shown. |
| `Pages.ConnectionTested` | core/src/lib.rs:983-987 | The connection is tested once and the connect page shown. |
| `Pages.InstallPage` | core/src/lib.rs:971-982 | The helpers are installed once. |
| `Pages.NetworkAsked` | core/src/lib.rs:798-855 | The last kind asked for sets its protocol and tells the chrome of it and of the port; kinds not to be had change nothing. |
| `Pages.DownloadSaved` | core/src/lib.rs:988-1006 | A download that works is fetched from the address asked for, recorded as saved under its file, and its page names the file. |
| `Pages.DownloadFailed` | core/src/lib.rs:1007-1021 | One that fails is recorded as such under what follows the last slash. |
| `Pages.NoWebAddressNoDownload` | core/src/lib.rs:988-994 | Anything but a web address is not fetched. |
| `Pages.FailureEnds` | core/src/lib.rs:644-1050 | A failing call ends the request right there, unless it is one of those passed over; the others of the request were made, in order. |
| `AddressBar.SearchIsRouted` | ui/src/lib.rs:520-532 | A typed search reaches the search arm, which searches for the whole encoded text, once, and shows its results. |
| `AddressBar.SearchGetsTypedIff` | core/src/lib.rs:776-781 | The arm searches for what was typed exactly when every character typed is unreserved. |
| `AddressBar.SearchWitness` | core/src/lib.rs:776-781 | Typing two words searches for them with a plus sign between. |
| `AddressBar.TypedCuts` | ui/src/lib.rs:521 | What is typed loses the spaces around it, then the bars around that, and nothing else. |
| `AddressBar.WhatIsTyped` | ui/src/lib.rs:520-532 | An address with a known scheme is kept, a host is reached over https, the rest is a search. |
| `Text.SplitOnce` | core/src/lib.rs:777 | Splitting at a marker recovers whole what was put behind it, if that has no first character of the marker. |
| `Text.SecondOfThree` | core/src/lib.rs:766 | The second part ends at the next marker. |
| `Text.SecondOfOne` | core/src/lib.rs:1024 | Without a marker there is only the default. |
| `Text.SplitJoined` | core/src/lib.rs:786 | Splitting a joined text gives back the parts. |
| `Text.SplitJoins` | core/src/lib.rs:786 | Splitting takes out the separators and nothing else. |
| `Text.FindIsFirst` | core/src/lib.rs:777 | The first occurrence is found. |
| `Text.TrimCuts` | core/src/lib.rs:613 | Trimming takes off the white space at both ends, all of it, and nothing else. |
| `Text.SpacesAre` | core/src/lib.rs:613 | White space is the 25 characters that Unicode lists. |
| `Text.WebUrlIff` | core/src/lib.rs:619 | A web address is "http://" or "https://" and anything behind it. |
| `Percent.UrlencodingLite` | ui/src/lib.rs:534-546 | The loop over the text's bytes yields the encoding. |
| `Percent.UrlencodingDecode` | core/src/lib.rs:1188-1222 | The index loop and the lossy conversion decode every text, malformed escapes and a '%' near the end included. |
| `Percent.NeverLengthens` | core/src/lib.rs:1188-1222 | The decoder never lengthens: the UTF-8 bytes of the text returned, replacement characters included, are no more than those of the text given. |
| `Percent.EscapeIsRead` | core/src/lib.rs:1199-1213 | An escape decodes alike in either case, the first digit counting sixteen times. |
| `Percent.UnreservedAre` | ui/src/lib.rs:538 | Exactly the 66 characters of section 2.3 of RFC 3986 stand for themselves. |
| `Percent.RoundTrip` | core/src/lib.rs:1188-1222 | Decoding the encoding of any text gives the text. |
| `Percent.PrePassChangesNothing` | core/src/lib.rs:989-990 | Replacing '+' by space beforehand changes the decoding of no text. |
| `Percent.EncoderAlphabet` | ui/src/lib.rs:534-546 | Output is unreserved characters, '+', and '%' with two upper-case digits. |
| `Percent.WellEncodedHasNoMark` | ui/src/lib.rs:534-546 | So it never contains a question mark. |
| `Percent.EncodedIsIdentityIff` | ui/src/lib.rs:534-546 | Encoding leaves a text alone exactly when all its characters are unreserved. |
| `Utf8.DecodeEncode` | network/src/socks.rs:92 | Decoding the UTF-8 bytes of a text gives the text. |
| `Utf8.EncodeDecode` | network/src/socks.rs:92 | Only the encoding of a text decodes to it: overlong forms, surrogates and stray bytes are refused. |
| `Utf8.LossyKeepsText` | core/src/lib.rs:1221 | The lossy conversion of bytes that are UTF-8 is their text. |
| `Utf8.PieceIsReplaced` | core/src/lib.rs:1221 | Each piece of bytes that is no character becomes one replacement character. |
| `Utf8.NoLongerPiece` | core/src/lib.rs:1221 | A replacement character stands for as much as could have begun a character: nothing longer could, |
| `Utf8.PieceBeginsChar` | core/src/lib.rs:1221 | and a piece of two or three bytes could. |
| `Utf8.KnownEncodings` | ui/src/lib.rs:536 | One character of each length has the bytes of the standard. |
| `Html.EscapeIsCharWise` | core/src/views.rs:276-281 | The chained replaces equal one pass that treats each character on its own. |
| `Html.EscapeAppend` | core/src/views.rs:276-281 | Escaping distributes over concatenation. |
| `Html.NoRaw` | ui/src/lib.rs:548-552 | No raw angle bracket survives, and a quote exactly where the chain lacks its replace. |
| `Html.UnescapeEscape` | core/src/lib.rs:1224-1228 | A reader of entities gets the text back, from the chain of four and from that of three. |
| `Html.EscapeInjective` | core/src/views.rs:276-281 | Different texts have different escapes. |
| `Governance.GovernanceEngine.SubmitProposal` | governance/src/lib.rs:230-233 | The proposal is appended as active, whatever its id. |
| `Governance.GovernanceEngine.QueueExecution` | governance/src/lib.rs:235-245 | The first proposal with the id is locked for 48 hours, whatever its status. |
| `Governance.GovernanceEngine.CastVote` | governance/src/lib.rs:247-282 | An accepted vote is kept with its nullifier and locks its proposal; a rejected one changes nothing. |
| `Governance.GovernanceEngine.ExecuteProposal` | governance/src/lib.rs:284-309 | Execution happens only for a lock that has run out; every refusal changes nothing. |
| `Governance.StatusLaw` | governance/src/lib.rs:230-309 | In every run, with ids repeated and clocks wrapping, the first proposal of an id has the status that the last vote, queueing or execution of the id in the log left it. |
| `Governance.ExecutesIffDue` | governance/src/lib.rs:284-309 | After any run an execution is granted exactly when the last event of the id is a vote or queueing whose 172800 seconds are over. |
| `Governance.RemainingCountsDown` | governance/src/lib.rs:302-304 | A refusal for the time remaining is one for a running lock, and tells exactly what is left of it. |
| `Governance.TimelockHolds` | governance/src/lib.rs:235-309 | Every execution follows, 172800 seconds or more by the clock, the accepted vote or the outside queueing that locked its proposal, with no other execution in between; ids may repeat. |
| `Governance.RunsUseLocks` | governance/src/lib.rs:235-309 | No id is executed more often than it was voted on and queued together. |
| `Governance.TwinsStayActive` | governance/src/lib.rs:236-309 | Of proposals with one id only the first ever changes status. |
| `Governance.EntriesAreSubmissions` | governance/src/lib.rs:230-233 | There is one proposal for each submission of an id. |
| `Governance.ProposalsAreKept` | governance/src/lib.rs:230-233 | Every proposal is kept as submitted, in order. |
| `Governance.FirstHashIsReturned` | governance/src/lib.rs:296-299 | An execution hands out the hash of the proposal first submitted under the id. |
| `Governance.RefusalsTell` | governance/src/lib.rs:290-307 | Not found exactly if never submitted; not locked exactly if submitted and untouched or already executed. |
| `Governance.CountsIffOpen` | governance/src/lib.rs:247-282 | After any run a vote counts exactly when its proof verifies, its nullifier is new, and its id was submitted twice, or once and neither voted on nor queued. |
| `Governance.HashStandsForBytes` | governance/src/lib.rs:260-262 | A voter hash of 32 bytes in hexadecimal stands for those bytes. |
| `Governance.ZerosIff` | governance/src/lib.rs:260-262 | Exactly the texts that are not 64 hexadecimal digits, and the one of 64 zeros, stand for 32 zero bytes. |
| `Governance.VoteSpendsItsHash` | governance/src/lib.rs:271 | An accepted vote puts exactly the bytes of its hash on the list. |
| `Governance.VoterCountsIffNew` | governance/src/lib.rs:247-282 | A vote of 32 bytes not all zero counts after any run exactly when its proof verifies, its id is open, and no accepted vote decodes to the same bytes. |
| `Governance.VotersDoNotExclude` | governance/src/lib.rs:264-267 | Two voters with different hashes never exclude each other. |
| `Governance.NullifiersUsedOnce` | governance/src/lib.rs:257-273 | The votes kept are those accepted, nullifiers are theirs one by one, and no nullifier repeats. |
| `Governance.OnceEach` | governance/src/lib.rs:230-309 | An id submitted once gets at most one vote, and is executed at most once plus once for each queueing outside a vote, whatever other ids do. |
| `Governance.SubmittedTwiceRunsTwice` | governance/src/lib.rs:230-309 | The converse: in any run with an id submitted twice, any two votes on it that verify under new nullifiers make it run twice more. |
| `Governance.QueueingReopens` | governance/src/lib.rs:235-245 | In any run, queueing a submitted id outside a vote makes it run again after 48 hours, unvoted. |
| `Governance.StepAdvances` | governance/src/lib.rs:230-309 | One operation takes the status of a proposal submitted once, and not queued by it, at most one step: active, locked, executed. |
| `Governance.StatusOnlyAdvances` | governance/src/lib.rs:230-309 | Over any continuation of a run such a proposal stays itself and its status never goes back, whatever other ids do. |
| `Governance.StatusIsKnown` | governance/src/lib.rs:230-309 | No proposal ever has another status than active, locked or executed. |
| `Governance.VotesAddUp` | governance/src/lib.rs:230-282 | With ids submitted once and queued only by votes, as many proposals left the active state as there are votes. |
| `Governance.VotesAreDistinct` | governance/src/lib.rs:247-282 | Two accepted votes concern two proposals, unless the id they share was submitted twice. |
| `Hex.DecodeEncode` | search/src/dht_store.rs:29-31 | A shard's file name decodes to its key. |
| `Hex.EncodeInjective` | search/src/dht_store.rs:29-31 | Different keys have different file names. |
| `Hex.DecodesIff` | search/src/dht_store.rs:60-62 | Exactly the texts of pairs of hexadecimal digits decode. |
| `Hex.DigitWorth` | search/src/dht_store.rs:60-62 | A digit is worth its place among the sixteen, in either case. |
| `Hex.EncodesLower` | search/src/dht_store.rs:29-31 | Names are written in lower case, two digits a byte. |
| `Ranking.Search` | search/src/lib.rs:164-222 | The merged sources, sorted, collapsed and cut. |
| `Ranking.Collapse` | search/src/lib.rs:217 | Comparing each entry with the last one retained keeps the first of each run of one address. |
| `Ranking.TiersRank` | search/src/lib.rs:200-216 | The ranking by tiers: verified local, then local or verified onion, verified, onion, the rest, and titles within a tier. |
| `Ranking.TextLessIff` | search/src/lib.rs:215 | A title comes first if at the first difference its character is the smaller, or it ends there. |
| `Ranking.TextOrderIsByteOrder` | search/src/lib.rs:215 | That is the order of the UTF-8 bytes, which the program compares. |
| `Ranking.SortedIsTheStableSort` | search/src/lib.rs:201-216 | There is exactly one stable sort of the input, and it is this one. |
| `Ranking.TiesKeepTheirOrder` | search/src/lib.rs:201-216 | Of every tier and title the sorted list has the same results as the input, in the same order. |
| `Ranking.RankedIsOrdered` | search/src/lib.rs:200-221 | The final list is in ranking order, from the sources only, at most forty. |
| `Ranking.RankedLikeADictionary` | search/src/lib.rs:200-221 | In the list returned tiers never fall back, and titles of one tier stand in the order of the dictionary. |
| `Ranking.RankedFollowsSources` | search/src/lib.rs:200-221 | Of two results returned with one tier and one title, the one shown first came first from the sources. |
| `Ranking.NothingBetterIsLost` | search/src/lib.rs:200-221 | Every result is represented by one of its address that ranks no worse, unless forty that rank no worse fill the list. |
| `Ranking.NeighboursDiffer` | search/src/lib.rs:217 | No two neighbours share an address. |
| `Ranking.BestOfEachUrlSurvives` | search/src/lib.rs:217 | The first entry of every address survives the collapse. |
| `Ranking.UrlsDistinctIff` | search/src/lib.rs:217-220 | The addresses returned are distinct exactly when, wherever a result of another address ranks between two of one address, at least forty entries come out before the second of those. |
| `Ranking.RepeatWitness` | search/src/lib.rs:217 | Three results of one score with titles a, b, c and the middle one under another address: an address is returned twice. |
| `Ranking.DistinctWhenTiesAreUrls` | search/src/lib.rs:200-221 | They are when equal score and title and equal address coincide. |
| `Dht.LoadAll` | search/src/dht_store.rs:45-75 | The loop over the directory yields the shards of the readable, non-empty files whose names decode. |
| `Dht.DhtLoop.HandlePut` | search/src/lib.rs:421-435 | The shard is written if the disk allows, and the sender told how the network's store went. |
| `Dht.DhtLoop.HandleGet` | search/src/lib.rs:436-444 | A shard on disk is answered at once; otherwise the sender waits under the new query. |
| `Dht.DhtLoop.HandleProgress` | search/src/lib.rs:402-417 | The first event of a query takes its sender out; the rest are ignored. |
| `Dht.DiskIsRegisters` | search/src/dht_store.rs:33-43 | Over any run with failing writes and restarts the directory holds, key by key, what one register a key would. |
| `Dht.GetReturnsLatest` | search/src/lib.rs:421-444 | After a Put whose write succeeded, and anything but another write to the key, restarts included, a Get answers its value at once. |
| `Dht.LoadedIsStored` | search/src/dht_store.rs:45-75 | Among whatever else lies in the directory, exactly the non-empty shards are loaded. |
| `Dht.LoadedKeysDiffer` | search/src/dht_store.rs:45-75 | No key is loaded twice. |
| `Dht.BootSeesRun` | search/src/lib.rs:345-372 | After any run boot loads exactly the non-empty values last written. |
| `Dht.PendingHoldsUnresolved` | search/src/lib.rs:394-444 | The pending table holds exactly the gets left to the network with no event and no restart since, each with its sender. |
| `Dht.NextEventResolves` | search/src/lib.rs:402-417 | The next event of such a query takes its sender out with the value found, the error, or nothing. |
| `Dht.SendersAccounted` | search/src/lib.rs:399-449 | Since the last restart no sender has left twice, and each is either gone or pending under one query. |
| `Dht.RepliesAreDue` | search/src/lib.rs:402-444 | Every sender that left has the reply due to it: a Put that of the network's store, a Get what was last written under its key or what its query's first event brought. |
| `Connections.Vortex.ConnectStream` | network/src/lib.rs:506-513 | A failed connection leaves the counter as it was, an opened one leaves it one higher. |
| `Connections.Vortex.FetchPage` | network/src/lib.rs:586-645 | A fetch alone leaves the counter as it was unless it fails after connecting. |
| `Connections.Vortex.DownloadFile` | network/src/lib.rs:650-689 | A download alone leaves it one higher exactly when a stream opened. |
| `Connections.RunBalances` | network/src/lib.rs:506-689 | In every interleaving the counter is what the calls have out, modulo 2^64. |
| `Connections.NeverUnderflows` | network/src/lib.rs:506-689 | With fewer than 2^63 calls it is exactly that, and no decrement meets zero. |
| `Connections.QuietCounter` | network/src/lib.rs:650-689 | When all have returned it is the downloads that opened a stream or timed out connecting plus the fetches that failed after connecting. |
| `Connections.LeftIsZeroIff` | network/src/lib.rs:506-689 | Which is zero exactly when the run has no such event. |
| `Connections.DownloadWitness` | network/src/lib.rs:650-689 | One download that works leaves the counter at one. |
| `Connections.FetchWitness` | network/src/lib.rs:586-645 | One fetch that works leaves the counter at zero, one that fails on its open stream at one. |
| `Connections.RefusedWitness` | network/src/lib.rs:506-513 | A call whose connection is refused leaves the counter at zero. |
| `Connections.DirectWitness` | network/src/lib.rs:586-689 | So does one that opens no stream. |
| `Connections.TimeoutWitness` | network/src/lib.rs:650-689 | A download that times out leaves the counter at one, connecting or reading. |
| `Connections.FetchesGiveBackIff` | network/src/lib.rs:586-645 | For fetches alone: zero exactly when none failed on its open stream. |
| `Dns.SecureDns.LookInCache` | network/src/dns.rs:95-119 | A live entry answers; a dead one is dropped and the name to ask for is the domain or its gateway name. |
| `Dns.SecureDns.AcceptReply` | network/src/dns.rs:122-139 | Errors and empty answers end the lookup without touching the cache. |
| `Dns.SecureDns.UpdateCache` | network/src/dns.rs:138-149 | The answer is stored under the name asked, for an hour. |
| `Dns.CacheIsClean` | network/src/dns.rs:95-151 | However lookups interleave, no entry is empty and none is for an ENS name. |
| `Dns.EnsReachesUpstream` | network/src/dns.rs:109-117 | An ENS name is never answered by the cache. |
| `Dns.CacheReflectsHistory` | network/src/dns.rs:95-151 | The cache holds nothing but the latest insertion for each name, and drops it only after its hour. |
| `Dns.HitIffFresh` | network/src/dns.rs:96-106 | A lookup is answered from the cache exactly when the latest insertion is less than 3600 seconds old, with its addresses. |
| `Dns.AnswersAreUpstreams` | network/src/dns.rs:95-151 | Every answer given is one the upstream gave, in the run, for the normalised name. |
| `Dns.GatewayNames` | network/src/dns.rs:109-115 | A name under .eth is asked for under .eth.limo, any other as it is. |
| `Dns.MissGoesUpstream` | network/src/dns.rs:96-137 | A lookup the cache does not answer waits for the upstream, or fails where there is none, and drops only its own entry. |
| `Dns.FailureIsHandedOn` | network/src/dns.rs:127-139 | Upstream failures and empty answers are handed on and not kept. |
| `Dns.AnswerIsKept` | network/src/dns.rs:138-150 | An answer is returned once it is kept under the name asked, for an hour from then. |
| `Socks.Client.ReadExact` | network/src/socks.rs:61-68 | Exactly the next bytes, or an end of input. |
| `Socks.Client.Greet` | network/src/socks.rs:60-70 | A whole SOCKS5 greeting is consumed and answered with "no authentication". |
| `Socks.Client.ReadAddress` | network/src/socks.rs:80-100 | The address of each type, read at its length. |
| `Socks.Client.ReadRequest` | network/src/socks.rs:72-103 | The request at the read position is classified and consumed as specified. |
| `Socks.Client.Reach` | network/src/socks.rs:105-127 | Tor not ready, address refused, connection failed or made: what is dialled and replied. |
| `Socks.Client.Handle` | network/src/socks.rs:56-127 | A connection's writes, its dialled target and where the tunnel starts, for every input and every failing write. |
| `Socks.RequestRoundTrip` | network/src/socks.rs:72-103 | An encoded CONNECT request of any of the three types is read back in full and what follows is left; a name that is no text is refused. |
| `Socks.AcceptedIsEncoded` | network/src/socks.rs:72-103 | Whatever is accepted was such an encoding, up to the reserved byte. |
| `Socks.SelfDelimiting` | network/src/socks.rs:72-103 | No encoded request is the beginning of a different one. |
| `Socks.ConversationRoundTrip` | network/src/socks.rs:56-127 | Greeting and request give the client's target and a tunnel that starts at the first byte behind them. |
| `Socks.DottedInjective` | network/src/socks.rs:85 | Different IPv4 addresses have different texts. |
| `Socks.DottedReads` | network/src/socks.rs:85 | The text of an IPv4 address is its four numbers in the order of the bytes. |
| `Socks.DecimalIsShort` | network/src/socks.rs:85 | No number is written with a needless zero. |
| `Socks.HostIsWhatWasSent` | network/src/socks.rs:81-100 | A domain is handed on as the text whose UTF-8 was sent, and refused if there is none. |
| `Socks.ReplyIsWellFormed` | network/src/socks.rs:77-127 | Every reply is laid out as section 6 of RFC 1928 has it. |
| `Socks.AtMostOneReply` | network/src/socks.rs:70-127 | The method selection comes first and at most one of four replies follows. |
| `Socks.SuccessIffConnected` | network/src/socks.rs:113-127 | Success is written exactly when Tor was dialled and connected, and what is dialled is the target of the request. |
| `Socks.SilentIff` | network/src/socks.rs:72-122 | Malformed ones included: exactly which requests end without a reply. |
| `Socks.WholeRequestAnswered` | network/src/socks.rs:72-127 | Every well-formed conversation, whatever its command and address and what follows it, gets exactly the reply due. |
| `Socks.CutOffGetsNoReply` | network/src/socks.rs:72-103 | A client that breaks off anywhere in its request gets the method selection and nothing else, and nothing is dialled. |

## Left out

- Tor bootstrap, relaying of SOCKS bytes, the HTTP client, libp2p, process spawning: only success and failure remain.
- Zero-knowledge proofs, vault, storage and settings internals, ad blocking, indexing, crawling: libraries or thin wrappers.
- Window, mouse, keyboard, rendering and the text of page templates; a page is the name of its template and its data.
- Governance.TimelockHolds: assumes that no vote or queueing is within 48 hours of the end of 64-bit time, where a lock wraps around.
- CommandLoop.Aegis.Execute: tells tabs and events only; the calls that store a bridge or V2Ray settings, set the search port or change the network leave no other trace, and a search is a flag that succeeds or fails.
- CommandLoop.Aegis.NavigateTo: the entry written to the persistent history leaves no trace.
- CommandLoop.Aegis.constructor: storage, network, search, plugins and the vault are not set up here.
- Agreement.AlwaysSound: assumes that sending into the event queue succeeds; the code mostly ignores such failures.
- Dispatcher.HandleInternalPage: the search port that a change of network sets leaves no trace; the vote page is its address; one call fails in a request, as the first failure ends it.
- Ranking.Search: the four sources are arguments; one that fails or times out contributes an empty list.
- Dht.LoadedIsStored: assumes every shard on disk can be read and listed; `LoadAll` itself covers the failures.
- Dht.SendersAccounted: assumes that callers hand over distinct senders and that libp2p gives distinct query ids between restarts.
- Connections.QuietCounter: dropping a fetch from outside before it returns is not modelled; the code does so nowhere.
- Socks.HostOf: the text of an IPv6 address is left to its sixteen bytes; which names Tor takes as addresses is a parameter.
- Tabs.TabManager.Close: the hash map's choice of the promoted tab is any remaining tab.
