/**
 The core and the chrome as two processes joined by a queue of events. The core runs commands and appends to the
 queue, the chrome takes events off it, in any interleaving. Whenever the queue is drained the two agree.
 */
module Agreement {
  import opened Words
  import opened Wrappers
  import opened Text
  import opened Messages
  import opened Tabs
  import opened TabPool
  import opened UiLoop
  import opened CommandLoop
  import Browsing
  import Chrome

  /**
   Beside the two processes and the queue: whether boot is over, how many tabs the core ever created, every state its
   tabs were in, every event it sent, and every event the chrome has taken.
   */
  datatype Sys = Sys(
    core: Tabs, queue: seq<UiEvent>, ui: Ui, booted: bool, adds: nat,
    past: seq<Tabs>, sent: seq<UiEvent>, taken: seq<UiEvent>)

  datatype Label =
    | Boot(networkUp: bool, port: Option<u16>, protocol: Protocol, env: Env)
    | Run(cmd: BrowserCommand, pick: u32, env: Env)
    | SuspendPass(now: nat)
    | Deliver(built: bool)
    | TypeUrl(text: string)

  function Starting(now: nat, created: bool): Sys {
    Sys(FirstTabs(now), [], Start(created), false, 1, [FirstTabs(now)], [], [])
  }

  /** Boot ends the program when the settings cannot be read, so only a boot that reads them leads anywhere. */
  predicate Enabled(s: Sys, l: Label) {
    match l
    case Boot(_, _, _, e) => !s.booted && e.storageOk
    case Run(cmd, pick, _) => s.booted && Possible(s.core, cmd, pick)
    case SuspendPass(_) => s.booted
    case Deliver(_) => s.queue != []
    case TypeUrl(_) => true
  }

  /** What boot sends before the first page. */
  function Preamble(networkUp: bool, port: Option<u16>, protocol: Protocol): seq<UiEvent> {
    [SetVortex] + (if networkUp then [] else [ConfigurationError("Network init")])
    + (if port.Some? then [SocksReady(port.value)] else []) + [NetworkStatusChanged(protocol)]
  }

  ghost function Booting(m: Tabs, networkUp: bool, port: Option<u16>, protocol: Protocol, e: Env): Did
    requires TabsOk(m)
  {
    var home := Navigating(m, HOME, true, e);
    home.(sent := Preamble(networkUp, port, protocol) + (home.sent + [Synced(home.tabs)]))
  }

  predicate Creates(m: Tabs, cmd: BrowserCommand) {
    cmd.NewTab? || (cmd.CloseTab? && |m.tabs| <= 1)
  }

  /** The core did `d`, passing through `states`. */
  function Sending(s: Sys, d: Did, states: seq<Tabs>): Sys {
    s.(core := d.tabs, queue := s.queue + d.sent, sent := s.sent + d.sent, past := s.past + states)
  }

  /** The chrome takes the first event of the queue. */
  function Taking(s: Sys, built: bool): Sys
    requires s.queue != []
  {
    s.(queue := s.queue[1..], taken := s.taken + [s.queue[0]], ui := OnEvent(s.ui, s.queue[0], built))
  }

  ghost function Next(s: Sys, l: Label): Sys
    requires TabsOk(s.core) && Enabled(s, l)
  {
    match l
    case Boot(networkUp, port, protocol, e) =>
      Sending(s, Booting(s.core, networkUp, port, protocol, e), NavPassing(s.core, HOME, true, e)).(booted := true)
    case Run(cmd, pick, e) =>
      Sending(s, Command(s.core, cmd, pick, e), Passing(s.core, cmd, pick, e))
      .(adds := s.adds + if Creates(s.core, cmd) then 1 else 0)
    case SuspendPass(now) => Sending(s, Did(SuspendInactive(s.core, 300, now), []), [SuspendInactive(s.core, 300, now)])
    case Deliver(built) => Taking(s, built)
    case TypeUrl(text) => s.(ui := s.ui.(urlBar := text))
  }

  lemma NextKeepsTabsOk(s: Sys, l: Label)
    requires TabsOk(s.core) && Enabled(s, l)
    ensures TabsOk(Next(s, l).core)
  {
    hide Command, Navigating, OnEvent, SuspendInactive, ListTabs, Passing, NavPassing;
    match l
    case Boot(_, _, _, e) => NavigatingKeepsOk(s.core, HOME, true, e);
    case Run(cmd, pick, e) => CommandKeepsOk(s.core, cmd, pick, e);
    case SuspendPass(now) => PassSparesActive(s.core, 300, now);
    case _ =>
  }

  /** The system after any labels; one that is not enabled where it stands changes nothing. */
  ghost function After(now: nat, created: bool, labels: seq<Label>): (s: Sys)
    ensures TabsOk(s.core)
  {
    if labels == [] then AddKeepsOk(EMPTY, "sentinel://welcome", "New Tab", now); Starting(now, created)
    else
      var s := After(now, created, labels[..|labels| - 1]);
      var l := labels[|labels| - 1];
      if Enabled(s, l) then NextKeepsTabsOk(s, l); Next(s, l) else s
  }

  lemma AfterMore(now: nat, created: bool, labels: seq<Label>, l: Label)
    ensures var s := After(now, created, labels);
      After(now, created, labels + [l]) == if Enabled(s, l) then Next(s, l) else s
  {
    hide Next;
    assert (labels + [l])[..|labels|] == labels;
  }

  ghost predicate StorageOk(l: Label) {
    (l.Boot? || l.Run?) ==> l.env.storageOk
  }

  ghost predicate BuildsOk(l: Label) {
    l.Deliver? ==> l.built
  }

  // ---------------------------------------------------------------------------------------------------------------
  // What every step keeps
  // ---------------------------------------------------------------------------------------------------------------

  lemma StripActive(n: Tabs)
    requires TabsOk(n)
    ensures ActiveEntry(ListTabs(n)) == Some(Info(n, n.activeTabId))
    ensures Ids(ListTabs(n)) == n.tabs.Keys
    ensures n.activeTabId in Ids(ListTabs(n))
  {
    StripIsSorted(n, n.tabs.Keys);
    var strip := ListTabs(n);
    assert Info(n, n.activeTabId) in strip;
    forall id | id in n.tabs.Keys ensures id in Ids(strip) {
      assert Info(n, id) in strip;
    }
  }

  /** The tabs were once in a state with this strip, and it is that state's active tab that the chrome has. */
  ghost predicate Shows(ui: Ui, n: Tabs) {
    TabsOk(n) && ui.tabs == ListTabs(n) && ui.activeTabId == n.activeTabId
  }

  /** The chrome has no strip yet, or shows one of these states. */
  ghost predicate FollowsCore(ui: Ui, past: seq<Tabs>) {
    ui.tabs == [] || exists n :: n in past && Shows(ui, n)
  }

  /** Every event sent was taken or is still queued, in order, and lists tabs that the core had. */
  ghost predicate BooksOk(s: Sys) {
    && s.sent == s.taken + s.queue
    && s.core in s.past
    && StripsOf(s.sent, s.past)
    && s.ui.tabs == LastStrip(s.taken, [])
  }

  /** Holds whatever fails. */
  ghost predicate SysSound(s: Sys) {
    && TabsOk(s.core) && BooksOk(s) && FollowsCore(s.ui, s.past) && Sound(s.ui)
    && (!s.booted ==> s.sent == [])
  }

  /** What the chrome will show once it has taken every event is what the core has. */
  ghost predicate InStep(s: Sys) {
    s.booted ==> LastStrip(s.queue, s.ui.tabs) == ListTabs(s.core)
  }

  lemma LastStripTail(q: seq<UiEvent>, strip: seq<TabInfo>)
    requires q != []
    ensures LastStrip(q, strip) == LastStrip(q[1..], if q[0].TabsChanged? then q[0].tabs else strip)
  {
    assert q == [q[0]] + q[1..];
    LastStripAppend([q[0]], q[1..], strip);
    assert [q[0]][..0] == [];
  }

  lemma LastStripSnoc(q: seq<UiEvent>, ev: UiEvent)
    ensures LastStrip(q + [ev], []) == if ev.TabsChanged? then ev.tabs else LastStrip(q, [])
  {
    assert (q + [ev])[..|q|] == q;
  }

  lemma StripDelivered(ui: Ui, n: Tabs, built: bool)
    requires TabsOk(n)
    ensures Shows(OnEvent(ui, Synced(n), built), n) && WellFormed(Synced(n))
  {
    StripActive(n);
    hide ListTabs, TabsOk, OnPool;
  }

  lemma OtherDelivered(ui: Ui, ev: UiEvent, built: bool)
    requires !ev.TabsChanged?
    ensures OnEvent(ui, ev, built).tabs == ui.tabs && OnEvent(ui, ev, built).activeTabId == ui.activeTabId
    ensures WellFormed(ev)
  {
    hide OnPool;
  }

  lemma OtherShows(ui: Ui, next: Ui, past: seq<Tabs>)
    requires FollowsCore(ui, past) && next.tabs == ui.tabs && next.activeTabId == ui.activeTabId
    ensures FollowsCore(next, past)
  {
    hide ListTabs, TabsOk;
    if ui.tabs != [] {
      var n :| n in past && Shows(ui, n);
      assert Shows(next, n);
    }
  }

  lemma DeliverFollows(ui: Ui, ev: UiEvent, built: bool, past: seq<Tabs>)
    requires FollowsCore(ui, past)
    requires ev.TabsChanged? ==> exists n :: n in past && TabsOk(n) && ev == Synced(n)
    ensures FollowsCore(OnEvent(ui, ev, built), past) && WellFormed(ev)
    ensures OnEvent(ui, ev, built).tabs == if ev.TabsChanged? then ev.tabs else ui.tabs
  {
    hide OnEvent, ListTabs, TabsOk, WellFormed;
    if ev.TabsChanged? {
      var n :| n in past && TabsOk(n) && ev == Synced(n);
      StripDelivered(ui, n, built);
    } else {
      OtherDelivered(ui, ev, built);
      OtherShows(ui, OnEvent(ui, ev, built), past);
    }
  }

  lemma TakingKeeps(s: Sys, built: bool)
    requires SysSound(s) && s.queue != []
    ensures SysSound(Taking(s, built))
    ensures Taking(s, built).ui.tabs == if s.queue[0].TabsChanged? then s.queue[0].tabs else s.ui.tabs
    ensures built && Settled(s.ui) ==> Settled(Taking(s, built).ui)
    ensures InStep(s) ==> InStep(Taking(s, built))
  {
    hide OnEvent, WellFormed, Settled, FollowsCore, Sound, TabsOk, Synced, ListTabs, LastStrip;
    var ev := s.queue[0];
    assert s.queue == [ev] + s.queue[1..] && s.taken + s.queue == (s.taken + [ev]) + s.queue[1..];
    assert ev in s.sent;
    DeliverFollows(s.ui, ev, built, s.past);
    EventKeepsSound(s.ui, ev, built);
    LastStripSnoc(s.taken, ev);
    LastStripTail(s.queue, s.ui.tabs);
    TakingSettles(s, built);
  }

  lemma TakingSettles(s: Sys, built: bool)
    requires Sound(s.ui) && s.queue != []
    ensures built && Settled(s.ui) ==> Settled(Taking(s, built).ui)
  {
    if built && Settled(s.ui) {
      EventSettles(s.ui, s.queue[0]);
    }
  }

  lemma SendingKeeps(s: Sys, d: Did, states: seq<Tabs>)
    requires SysSound(s) && TabsOk(d.tabs) && StripsOf(d.sent, states)
    requires d.tabs in states || d.tabs == s.core
    ensures var after := Sending(s, d, states).(booted := true);
      SysSound(after) && SysSound(after.(adds := s.adds + 1))
  {
    hide TabsOk, StripsOf, Sound, LastStrip, ListTabs;
    StripsOfMore(s.sent, d.sent, s.past, states);
    assert s.taken + (s.queue + d.sent) == (s.taken + s.queue) + d.sent;
    if s.ui.tabs != [] {
      var n :| n in s.past && Shows(s.ui, n);
      assert n in s.past + states;
    }
  }

  lemma NavPassingEnds(m: Tabs, url: string, record: bool, e: Env)
    requires TabsOk(m)
    ensures Navigating(m, url, record, e).tabs in NavPassing(m, url, record, e)
  {
    hide PushHistory, Retitle, ListTabs, PageEvents;
    var states := NavPassing(m, url, record, e);
    assert Navigating(m, url, record, e).tabs == states[|states| - 1];
  }

  lemma BootTellsStrip(m: Tabs, networkUp: bool, port: Option<u16>, protocol: Protocol, e: Env)
    requires TabsOk(m) && e.storageOk
    ensures var d := Booting(m, networkUp, port, protocol, e);
      && LastStrip(d.sent, []) == ListTabs(d.tabs) && StripsOf(d.sent, NavPassing(m, HOME, true, e))
      && TabsOk(d.tabs) && d.tabs in NavPassing(m, HOME, true, e)
  {
    hide Navigating, NavPassing, ListTabs, LastStrip, TabsOk, StripsOf;
    var pre := Preamble(networkUp, port, protocol);
    var home, states := Navigating(m, HOME, true, e), NavPassing(m, HOME, true, e);
    NavPassingEnds(m, HOME, true, e);
    NavigatingKeepsOk(m, HOME, true, e);
    NavigatingTellsStrip(m, HOME, true, e, []);
    OneStrip(home.tabs, [], states);
    assert [Synced(home.tabs)] + [] == [Synced(home.tabs)];
    BootParts(pre, home.sent, home.tabs, states);
  }

  lemma BootParts(pre: seq<UiEvent>, sent: seq<UiEvent>, n: Tabs, states: seq<Tabs>)
    requires forall ev :: ev in pre ==> !ev.TabsChanged?
    requires StripsOf(sent, states) && StripsOf([Synced(n)], states)
    ensures StripsOf(pre + (sent + [Synced(n)]), states)
    ensures LastStrip(pre + (sent + [Synced(n)]), []) == ListTabs(n)
  {
    hide ListTabs, TabsOk;
    LastStripAppend(pre + sent, [Synced(n)], []);
    assert pre + (sent + [Synced(n)]) == (pre + sent) + [Synced(n)];
    LastStripAfterSync(n, [], LastStrip(pre + sent, []));
    assert [Synced(n)] + [] == [Synced(n)];
  }

  lemma CommandStates(m: Tabs, cmd: BrowserCommand, pick: u32, e: Env)
    requires TabsOk(m) && Possible(m, cmd, pick)
    ensures var d := Command(m, cmd, pick, e);
      d.tabs in Passing(m, cmd, pick, e) || d.tabs == m
  {
    hide Passing, Command;
    PassingEnds(m, cmd, pick, e);
  }

  lemma NextKeepsSound(s: Sys, l: Label)
    requires SysSound(s) && Enabled(s, l)
    ensures SysSound(Next(s, l))
  {
    NextKeepsTabsOk(s, l);
    match l
    case Boot(networkUp, port, protocol, e) =>
      hide SysSound, Booting, NavPassing, Sending;
      SoundIsOk(s);
      BootTellsStrip(s.core, networkUp, port, protocol, e);
      SendingKeeps(s, Booting(s.core, networkUp, port, protocol, e), NavPassing(s.core, HOME, true, e));
    case Run(cmd, pick, e) =>
      hide SysSound, Command, Passing;
      SoundIsOk(s);
      CommandSendsStrips(s.core, cmd, pick, e);
      CommandStates(s.core, cmd, pick, e);
      SendingKeeps(s, Command(s.core, cmd, pick, e), Passing(s.core, cmd, pick, e));
    case SuspendPass(now) =>
      hide SysSound, SuspendInactive;
      SoundIsOk(s);
      var n := SuspendInactive(s.core, 300, now);
      SendingKeeps(s, Did(n, []), [n]);
    case Deliver(built) =>
      hide SysSound, Taking;
      TakingKeeps(s, built);
    case TypeUrl(text) => TypingKeeps(s, text);
  }

  lemma SoundIsOk(s: Sys)
    requires SysSound(s)
    ensures TabsOk(s.core)
  {
  }

  lemma TypingKeeps(s: Sys, text: string)
    requires SysSound(s)
    ensures SysSound(s.(ui := s.ui.(urlBar := text)))
  {
    hide TabsOk, BooksOk, Sound;
    var ui := s.ui.(urlBar := text);
    assert BooksOk(s.(ui := ui)) && Sound(ui) by {
      TypingKeepsRest(s, text);
    }
    OtherShows(s.ui, ui, s.past);
  }

  lemma TypingKeepsRest(s: Sys, text: string)
    requires BooksOk(s) && Sound(s.ui)
    ensures BooksOk(s.(ui := s.ui.(urlBar := text))) && Sound(s.ui.(urlBar := text))
    ensures Settled(s.ui) ==> Settled(s.ui.(urlBar := text))
  {
    hide StripsOf, LastStrip, RepInv;
  }

  /** Storage failures aside, no step puts the chrome's future out of step with the core. */
  lemma NextKeepsInStep(s: Sys, l: Label)
    requires SysSound(s) && InStep(s) && Enabled(s, l) && StorageOk(l)
    ensures InStep(Next(s, l))
  {
    match l
    case Boot(networkUp, port, protocol, e) => BootBringsInStep(s, networkUp, port, protocol, e);
    case Run(cmd, pick, e) =>
      hide SysSound, Command, Passing, ListTabs, TabsOk, Speaks;
      CommandTellsStrip(s.core, cmd, pick, e, LastStrip(s.queue, s.ui.tabs));
      LastStripAppend(s.queue, Command(s.core, cmd, pick, e).sent, s.ui.tabs);
    case SuspendPass(now) =>
      hide SuspendInactive, ListTabs;
      PassSparesActive(s.core, 300, now);
      assert s.queue + [] == s.queue;
    case Deliver(built) =>
      hide SysSound, Taking, InStep;
      TakingKeeps(s, built);
    case TypeUrl(_) =>
  }

  lemma BootBringsInStep(s: Sys, networkUp: bool, port: Option<u16>, protocol: Protocol, e: Env)
    requires SysSound(s) && Enabled(s, Boot(networkUp, port, protocol, e))
    ensures InStep(Next(s, Boot(networkUp, port, protocol, e)))
  {
    BootTellsStrip(s.core, networkUp, port, protocol, e);
    hide Booting, ListTabs, NavPassing, TabsOk, LastStrip, Sound;
    assert s.queue == [] && s.taken == [] by {
      assert |s.taken + s.queue| == 0;
    }
    assert LastStrip([], []) == [] by {
      LastStripSame([], []);
    }
    var sent := Booting(s.core, networkUp, port, protocol, e).sent;
    assert [] + sent == sent;
  }

  /** Whatever went wrong before, one command that navigates and reads its settings brings the two in step. */
  lemma NavigationHeals(s: Sys, cmd: BrowserCommand, pick: u32, e: Env)
    requires TabsOk(s.core) && Enabled(s, Run(cmd, pick, e)) && e.storageOk && Speaks(s.core, cmd)
    ensures InStep(Next(s, Run(cmd, pick, e)))
  {
    hide Command, Passing, ListTabs, Speaks;
    CommandTellsStrip(s.core, cmd, pick, e, LastStrip(s.queue, s.ui.tabs));
    LastStripAppend(s.queue, Command(s.core, cmd, pick, e).sent, s.ui.tabs);
  }

  /** Whatever failed to build before, one strip taken whose view can be built settles the pool on its active tab. */
  lemma StripSettles(s: Sys)
    requires SysSound(s) && s.queue != [] && s.queue[0].TabsChanged?
    ensures Settled(Taking(s, true).ui)
  {
    assert s.queue[0] in s.sent;
    var n :| n in s.past && TabsOk(n) && s.queue[0] == Synced(n);
    StripActive(n);
    hide ListTabs, RepInv, OnEvent, Settled;
    StripSettlesPool(s.ui, ListTabs(n));
  }

  lemma NextKeepsSettled(s: Sys, l: Label)
    requires SysSound(s) && Settled(s.ui) && Enabled(s, l) && BuildsOk(l)
    ensures Settled(Next(s, l).ui)
  {
    match l
    case Deliver(built) =>
      hide SysSound, Taking, Settled;
      TakingKeeps(s, built);
    case TypeUrl(text) =>
    case _ => hide Command, Booting, Passing, NavPassing, SuspendInactive;
  }

  // ---------------------------------------------------------------------------------------------------------------
  // Whole runs
  // ---------------------------------------------------------------------------------------------------------------

  lemma StartIsSound(now: nat, created: bool)
    ensures SysSound(Starting(now, created)) && InStep(Starting(now, created)) && Settled(Start(created))
  {
    AddKeepsOk(EMPTY, "sentinel://welcome", "New Tab", now);
    if created {
      RepInvAlways(FIRST_VIEW, 0, []);
    }
  }

  /**
   Whatever fails: every event sent was taken or is queued, in order; every strip among them lists tabs the core had;
   the chrome shows the last strip taken, with the active tab of that state of the core; its pool is well-formed.
   */
  lemma {:induction false} AlwaysSound(now: nat, created: bool, labels: seq<Label>)
    ensures SysSound(After(now, created, labels))
  {
    hide SysSound, Next;
    if labels == [] {
      hide InStep, Settled;
      StartIsSound(now, created);
    } else {
      var n := |labels| - 1;
      AlwaysSound(now, created, labels[..n]);
      if Enabled(After(now, created, labels[..n]), labels[n]) {
        NextKeepsSound(After(now, created, labels[..n]), labels[n]);
      }
    }
  }

  /** Once in step, for as long as the settings can be read. */
  lemma {:induction false} StaysInStep(now: nat, created: bool, labels: seq<Label>, more: seq<Label>)
    requires InStep(After(now, created, labels)) && forall l :: l in more ==> StorageOk(l)
    ensures InStep(After(now, created, labels + more))
  {
    if more == [] {
      assert labels + more == labels;
    } else {
      hide InStep, Next, SysSound;
      var n := |more| - 1;
      assert labels + more == (labels + more[..n]) + [more[n]];
      assert more[n] in more && forall l :: l in more[..n] ==> l in more;
      StaysInStep(now, created, labels, more[..n]);
      AfterMore(now, created, labels + more[..n], more[n]);
      AlwaysSound(now, created, labels + more[..n]);
      if Enabled(After(now, created, labels + more[..n]), more[n]) {
        NextKeepsInStep(After(now, created, labels + more[..n]), more[n]);
      }
    }
  }

  lemma {:induction false} StaysSettled(now: nat, created: bool, labels: seq<Label>, more: seq<Label>)
    requires Settled(After(now, created, labels).ui) && forall l :: l in more ==> BuildsOk(l)
    ensures Settled(After(now, created, labels + more).ui)
  {
    if more == [] {
      assert labels + more == labels;
    } else {
      hide Settled, Next, SysSound;
      var n := |more| - 1;
      assert labels + more == (labels + more[..n]) + [more[n]];
      assert more[n] in more && forall l :: l in more[..n] ==> l in more;
      StaysSettled(now, created, labels, more[..n]);
      AfterMore(now, created, labels + more[..n], more[n]);
      AlwaysSound(now, created, labels + more[..n]);
      if Enabled(After(now, created, labels + more[..n]), more[n]) {
        NextKeepsSettled(After(now, created, labels + more[..n]), more[n]);
      }
    }
  }

  /**
   The strip tells of the core's tabs, title by title and address by address, the active tabs are the same, and every
   cached view belongs to an open tab.
   */
  ghost predicate Agreed(s: Sys) {
    && s.ui.tabs == ListTabs(s.core)
    && Browsing.Tells(s.ui.tabs, s.core)
    && s.ui.activeTabId == s.core.activeTabId
    && (s.ui.pool.Some? ==> RepInv(s.ui.pool.value) && s.ui.pool.value.slots.Keys <= s.core.tabs.Keys)
  }

  lemma InStepMeansAgreed(s: Sys)
    requires SysSound(s) && InStep(s) && s.booted && s.queue == []
    ensures Agreed(s)
  {
    StripActive(s.core);
    Browsing.StripTells(s.core);
    hide ListTabs, RepInv, Browsing.Tells;
    assert s.ui.tabs == ListTabs(s.core);
    assert s.ui.tabs != [];
    var n :| n in s.past && Shows(s.ui, n);
    StripActive(n);
  }

  /**
   Agreement. In every run in which the settings can be read, whenever the queue is drained after boot the strip lists
   the core's tabs, the chrome's active tab is the core's, and every cached view belongs to an open tab, even if views
   failed to build. If none failed, the pool's active view is live and is the core's active tab.
   */
  lemma DrainedMeansAgreed(now: nat, created: bool, labels: seq<Label>)
    requires forall l :: l in labels ==> StorageOk(l)
    requires After(now, created, labels).booted && After(now, created, labels).queue == []
    ensures var s := After(now, created, labels);
      && Agreed(s)
      && (s.ui.pool.Some? && (forall l :: l in labels ==> BuildsOk(l)) ==>
            s.ui.pool.value.active == Some(s.core.activeTabId) && s.core.activeTabId in s.ui.pool.value.slots)
  {
    StartIsSound(now, created);
    StaysInStep(now, created, [], labels);
    AlwaysSound(now, created, labels);
    assert [] + labels == labels;
    if forall l :: l in labels ==> BuildsOk(l) {
      StaysSettled(now, created, [], labels);
    }
    hide After, SysSound, InStep;
    InStepMeansAgreed(After(now, created, labels));
  }

  /**
   Recovery. Whatever failed before, a command that navigates and can read its settings brings agreement back: whenever
   the queue is drained after it, and as long as the settings can be read.
   */
  lemma NavigationRestoresAgreement(
      now: nat, created: bool, before: seq<Label>, cmd: BrowserCommand, pick: u32, e: Env, more: seq<Label>)
    requires var s := After(now, created, before);
      Enabled(s, Run(cmd, pick, e)) && e.storageOk && Speaks(s.core, cmd)
    requires forall l :: l in more ==> StorageOk(l)
    requires After(now, created, before + [Run(cmd, pick, e)] + more).queue == []
    ensures Agreed(After(now, created, before + [Run(cmd, pick, e)] + more))
  {
    hide SysSound, InStep, Next, Speaks;
    var s := After(now, created, before);
    AfterMore(now, created, before, Run(cmd, pick, e));
    NavigationHeals(s, cmd, pick, e);
    StaysInStep(now, created, before + [Run(cmd, pick, e)], more);
    AlwaysSound(now, created, before + [Run(cmd, pick, e)] + more);
    StaysBooted(now, created, before, [Run(cmd, pick, e)] + more);
    assert before + [Run(cmd, pick, e)] + more == before + ([Run(cmd, pick, e)] + more);
    InStepMeansAgreed(After(now, created, before + [Run(cmd, pick, e)] + more));
  }

  lemma {:induction false} StaysBooted(now: nat, created: bool, labels: seq<Label>, more: seq<Label>)
    requires After(now, created, labels).booted
    ensures After(now, created, labels + more).booted
  {
    if more == [] {
      assert labels + more == labels;
    } else {
      var n := |more| - 1;
      assert labels + more == (labels + more[..n]) + [more[n]];
      StaysBooted(now, created, labels, more[..n]);
      AfterMore(now, created, labels + more[..n], more[n]);
      hide Command, Booting, Passing, NavPassing, OnEvent, SuspendInactive;
    }
  }

  // ---------------------------------------------------------------------------------------------------------------
  // Settings
  // ---------------------------------------------------------------------------------------------------------------

  /** Port and privacy are those last taken, whichever of the two sides is ahead. */
  ghost predicate SettingsFollow(s: Sys) {
    && s.ui.socks == Chrome.LastPort(s.taken)
    && (s.ui.pool.Some? ==> Chrome.PrivacyFits(s.ui.pool.value.privacy, Chrome.LastPrivacy(s.taken)))
  }

  lemma LastTaken(taken: seq<UiEvent>, ev: UiEvent)
    ensures Chrome.LastPort(taken + [ev]) == if ev.SocksReady? then Some(ev.port) else Chrome.LastPort(taken)
    ensures Chrome.LastPrivacy(taken + [ev]) == if ev.PrivacyUpdated? then Some(ev) else Chrome.LastPrivacy(taken)
  {
    assert (taken + [ev])[..|taken|] == taken;
  }

  lemma PoolAfter(ui: Ui, ev: UiEvent, built: bool)
    ensures OnEvent(ui, ev, built).pool == if ui.pool.Some? then Some(OnPool(ui, ev, built)) else None
  {
    hide OnPool;
  }

  lemma PoolIsSound(s: Sys)
    requires SysSound(s) && s.ui.pool.Some?
    ensures RepInv(s.ui.pool.value)
  {
    hide BooksOk, FollowsCore, TabsOk, RepInv;
  }

  lemma TakingFollows(s: Sys, built: bool)
    requires SysSound(s) && SettingsFollow(s) && s.queue != []
    ensures SettingsFollow(Taking(s, built))
  {
    hide SysSound, Chrome.PrivacyFits, Chrome.LastPort, Chrome.LastPrivacy, OnPool, OnEvent, RepInv;
    var ev := s.queue[0];
    LastTaken(s.taken, ev);
    PoolAfter(s.ui, ev, built);
    Chrome.StepVariables(s.ui, ev, built);
    if s.ui.pool.Some? {
      PoolIsSound(s);
      Chrome.PrivacyStep(s.ui, ev, built, Chrome.LastPrivacy(s.taken));
    }
  }

  lemma NextFollows(s: Sys, l: Label)
    requires SysSound(s) && SettingsFollow(s) && Enabled(s, l)
    ensures SettingsFollow(Next(s, l))
  {
    hide Chrome.PrivacyFits, Chrome.LastPort, Chrome.LastPrivacy;
    match l
    case Deliver(built) =>
      hide SysSound, SettingsFollow, Taking;
      TakingFollows(s, built);
    case _ => hide Command, Booting, Passing, NavPassing, SuspendInactive, OnEvent;
  }

  /**
   In every run, whatever fails, the chrome has the port and, in its pool and every cached view, the privacy that the
   core sent last among what was taken - all of it once the queue is drained.
   */
  lemma {:induction false} SettingsAlwaysFollow(now: nat, created: bool, labels: seq<Label>)
    ensures var s := After(now, created, labels);
      && SettingsFollow(s)
      && (s.queue == [] ==> s.taken == s.sent)
      && (s.ui.pool.Some? ==> forall id :: id in s.ui.pool.value.slots ==>
            Chrome.PrivacyFits(s.ui.pool.value.slots[id].privacy, Chrome.LastPrivacy(s.taken)))
  {
    AlwaysSound(now, created, labels);
    SoundBooks(After(now, created, labels));
    hide Next, SysSound, Chrome.PrivacyFits;
    if labels != [] {
      var n := |labels| - 1;
      SettingsAlwaysFollow(now, created, labels[..n]);
      AlwaysSound(now, created, labels[..n]);
      hide SettingsFollow;
      if Enabled(After(now, created, labels[..n]), labels[n]) {
        NextFollows(After(now, created, labels[..n]), labels[n]);
      }
      SettingsOfViews(After(now, created, labels));
    } else {
      StartFollows(now, created);
      SettingsOfViews(Starting(now, created));
    }
  }

  lemma StartFollows(now: nat, created: bool)
    ensures SettingsFollow(Starting(now, created))
  {
  }

  lemma SoundBooks(s: Sys)
    requires SysSound(s)
    ensures s.sent == s.taken + s.queue
  {
  }

  lemma SettingsOfViews(s: Sys)
    requires SysSound(s) && SettingsFollow(s)
    ensures s.ui.pool.Some? ==> forall id :: id in s.ui.pool.value.slots ==>
              Chrome.PrivacyFits(s.ui.pool.value.slots[id].privacy, Chrome.LastPrivacy(s.taken))
  {
    hide BooksOk, FollowsCore, TabsOk, Chrome.PrivacyFits;
  }

  /** What boot announces before the first page: the port there is, the protocol in force, and a network that failed. */
  lemma BootAnnounces(networkUp: bool, port: Option<u16>, protocol: Protocol, ev: UiEvent)
    ensures ev in Preamble(networkUp, port, protocol) <==>
      || ev == SetVortex
      || (!networkUp && ev == ConfigurationError("Network init"))
      || (port.Some? && ev == SocksReady(port.value))
      || ev == NetworkStatusChanged(protocol)
    ensures forall i :: 0 <= i < |Preamble(networkUp, port, protocol)| - 1 ==>
              !Preamble(networkUp, port, protocol)[i].NetworkStatusChanged?
  {
  }

  // ---------------------------------------------------------------------------------------------------------------
  // Ids
  // ---------------------------------------------------------------------------------------------------------------

  /** The next id counts the tabs created, up to wrap-around; before that, every open id lies below the count. */
  predicate IdsCounted(s: Sys) {
    && s.core.nextTabId == s.adds % U32
    && (s.adds <= U32 ==> forall id :: id in s.core.tabs ==> id < s.adds)
  }

  /** `n` has the tabs of `m`, some closed, and, when one was created, the one that took the next id. */
  ghost predicate KeysFrom(m: Tabs, n: Tabs, created: bool) {
    && n.nextTabId == (if created then (m.nextTabId + 1) % U32 else m.nextTabId)
    && (forall id :: id in n.tabs ==> id in m.tabs || (created && id == m.nextTabId))
    && (created ==> m.nextTabId in n.tabs)
  }

  lemma NavigatingKeysFrom(m: Tabs, n: Tabs, created: bool, url: string, record: bool, e: Env)
    requires TabsOk(n) && KeysFrom(m, n, created)
    ensures KeysFrom(m, Navigating(n, url, record, e).tabs, created)
    ensures KeysFrom(m, CommandLoop.Opened(n, e).tabs, created)
    ensures KeysFrom(m, CommandLoop.Shown(n, e).tabs, created)
  {
    hide Navigating, ListTabs;
    NavigatingKeepsKeys(n, url, record, e);
    NavigatingKeepsKeys(n, HOME, true, e);
    NavigatingKeepsKeys(n, n.tabs[n.activeTabId].url, false, e);
  }

  /** Only creating a tab takes an id, the next one; no other id ever appears. */
  lemma CommandKeepsKeys(m: Tabs, cmd: BrowserCommand, pick: u32, e: Env)
    requires TabsOk(m) && Possible(m, cmd, pick)
    ensures KeysFrom(m, Command(m, cmd, pick, e).tabs, Creates(m, cmd))
  {
    assert KeysFrom(m, m, false);
    hide Navigating, CommandLoop.Opened, CommandLoop.Shown, ListTabs, Closed, AddTab, SwitchToTab, GoBack, GoForward,
      KeysFrom;
    match cmd
    case Navigate(url) => NavigatingKeysFrom(m, m, false, url, true, e);
    case Back => SteppingKeysFrom(m, e);
    case Forward => SteppingKeysFrom(m, e);
    case Refresh => NavigatingKeysFrom(m, m, false, m.tabs[m.activeTabId].url, false, e);
    case NewTab =>
      AddKeepsOk(m, HOME, "New Tab", e.now);
      AddingKeysFrom(m, HOME, "New Tab", e.now);
      NavigatingKeysFrom(m, AddTab(m, HOME, "New Tab", e.now), true, HOME, true, e);
    case SwitchTab(id) =>
      SwitchKeepsOk(m, id, e.now);
      SwitchingKeepsKeys(m, id, e.now);
      NavigatingKeysFrom(m, SwitchToTab(m, id, e.now), false, HOME, true, e);
    case CloseTab(id) =>
      CloseKeepsOk(m, id, pick, e.now);
      ClosingKeysFrom(m, id, pick, e.now);
      NavigatingKeysFrom(m, Closed(m, id, pick, e.now), |m.tabs| <= 1, HOME, true, e);
    case _ =>
  }

  lemma SteppingKeysFrom(m: Tabs, e: Env)
    requires TabsOk(m)
    ensures KeysFrom(m, Command(m, Back, 0, e).tabs, false)
    ensures KeysFrom(m, Command(m, Forward, 0, e).tabs, false)
  {
    assert KeysFrom(m, m, false);
    hide Navigating, ListTabs, GoBack, GoForward, KeysFrom;
    BackKeepsOk(m);
    ForwardKeepsOk(m);
    SteppingKeepsKeys(m);
    NavigatingKeysFrom(m, GoBack(m), false, GoBack(m).tabs[GoBack(m).activeTabId].url, false, e);
    NavigatingKeysFrom(m, GoForward(m), false, GoForward(m).tabs[GoForward(m).activeTabId].url, false, e);
  }

  lemma SteppingKeepsKeys(m: Tabs)
    requires TabsOk(m)
    ensures KeysFrom(m, GoBack(m), false) && KeysFrom(m, GoForward(m), false)
  {
  }

  lemma SwitchingKeepsKeys(m: Tabs, id: u32, now: nat)
    ensures KeysFrom(m, SwitchToTab(m, id, now), false)
  {
  }

  lemma AddingKeysFrom(m: Tabs, url: string, title: string, now: nat)
    ensures KeysFrom(m, AddTab(m, url, title, now), true)
  {
  }

  lemma ClosingKeysFrom(m: Tabs, id: u32, pick: u32, now: nat)
    ensures KeysFrom(m, Closed(m, id, pick, now), |m.tabs| <= 1)
  {
    hide Closed;
    ClosedKeys(m, id, pick, now);
    var n := Closed(m, id, pick, now);
    assert forall x :: x in n.tabs <==> x in n.tabs.Keys;
  }

  lemma NextKeepsIds(s: Sys, l: Label)
    requires TabsOk(s.core) && IdsCounted(s) && Enabled(s, l)
    ensures IdsCounted(Next(s, l))
  {
    hide Command, Navigating, OnEvent, Passing, NavPassing, TabsOk;
    match l
    case Boot(_, _, _, e) => NavigatingKeepsKeys(s.core, HOME, true, e);
    case Run(cmd, pick, e) => CommandKeepsKeys(s.core, cmd, pick, e);
    case _ =>
  }

  /**
   In every run the tab created after `k` others gets id `k`, modulo 2^32; so ids repeat only after 2^32 creations, and
   until then a new tab's id belongs to no open tab.
   */
  lemma {:induction false} IdsAlwaysCounted(now: nat, created: bool, labels: seq<Label>)
    ensures var s := After(now, created, labels);
      IdsCounted(s) && (s.adds < U32 ==> s.core.nextTabId == s.adds && s.core.nextTabId !in s.core.tabs)
  {
    hide Next;
    if labels != [] {
      var n := |labels| - 1;
      var s, l := After(now, created, labels[..n]), labels[n];
      IdsAlwaysCounted(now, created, labels[..n]);
      if Enabled(s, l) {
        NextKeepsIds(s, l);
      }
    }
  }

  /** The core's own pass comes after five minutes, counted in whole seconds. */
  lemma FiveMinutes(now: nat, created: bool, labels: seq<Label>, at: nat, id: u32)
    requires After(now, created, labels).booted && id in After(now, created, labels).core.tabs
    ensures var m, n := After(now, created, labels).core, After(now, created, labels + [SuspendPass(at)]).core;
      && id in n.tabs
      && (n.tabs[id].isSuspended <==>
            m.tabs[id].isSuspended || (id != m.activeTabId && at >= m.tabs[id].lastActive + 301_000_000_000))
  {
    hide After, SuspendInactive;
    AfterPass(now, created, labels, at);
    Browsing.PassSuspendsIff(After(now, created, labels).core, 300, at, id);
  }

  /** Typing touches nothing but the address bar; a page rendered next is remembered under what was typed. */
  lemma TypedTextIsRemembered(now: nat, created: bool, labels: seq<Label>, text: string, built: bool)
    ensures var s, t := After(now, created, labels), After(now, created, labels + [TypeUrl(text)]);
      t.ui.urlBar == text && t == s.(ui := s.ui.(urlBar := text))
    ensures var s := After(now, created, labels);
      var t := After(now, created, labels + [TypeUrl(text)] + [Deliver(built)]);
      s.queue != [] && s.queue[0].LoadHtml? && s.ui.pool.Some? && HasActiveView(s.ui.pool.value) ==>
        && t.ui.pool.Some? && t.ui.pool.value.slots.Keys == s.ui.pool.value.slots.Keys
        && s.ui.pool.value.active.value in t.ui.pool.value.slots
        && t.ui.pool.value.slots[s.ui.pool.value.active.value].lastUrl == text
        && t.queue == s.queue[1..]
  {
    AfterMore(now, created, labels, TypeUrl(text));
    AfterMore(now, created, labels + [TypeUrl(text)], Deliver(built));
    hide After, ListTabs, Booting, Command;
  }

  /** After boot there is one tab, whose history leads from the welcome page home. */
  lemma BootGoesHome(created: bool, networkUp: bool, port: Option<u16>, protocol: Protocol, e: Env)
    requires e.storageOk
    ensures var m := After(0, created, [Boot(networkUp, port, protocol, e)]).core;
      m.activeTabId in m.tabs && TabsOk(m)
      && Zip(m.tabs[m.activeTabId]) == Zipper(["sentinel://welcome"], "sentinel://home", [])
  {
    hide Navigating, NavPassing, ListTabs;
    assert After(0, created, []) == Starting(0, created);
    AfterMore(0, created, [], Boot(networkUp, port, protocol, e));
    assert [] + [Boot(networkUp, port, protocol, e)] == [Boot(networkUp, port, protocol, e)];
    Browsing.FirstTabsAre(0);
    Browsing.NavigatingVisits(FirstTabs(0), HOME, true, e);
  }

  // ---------------------------------------------------------------------------------------------------------------
  // Where a suspended active tab comes from
  // ---------------------------------------------------------------------------------------------------------------

  /** Closing the active tab hands over to a tab that is suspended. */
  predicate Promotes(m: Tabs, l: Label) {
    && l.Run? && l.cmd.CloseTab? && l.cmd.closing == m.activeTabId && |m.tabs| > 1
    && l.pick in m.tabs && m.tabs[l.pick].isSuspended
  }

  lemma BootKeepsSuspension(s: Sys, networkUp: bool, port: Option<u16>, protocol: Protocol, e: Env)
    requires TabsOk(s.core) && Enabled(s, Boot(networkUp, port, protocol, e))
    ensures var m := Next(s, Boot(networkUp, port, protocol, e)).core;
      ActiveSuspended(m) == ActiveSuspended(s.core) && m.activeTabId == s.core.activeTabId
  {
    hide Navigating, NavPassing, ListTabs, ActiveSuspended;
    NavigatingKeepsSuspension(s.core, HOME, true, e);
    NavigatingKeepsActive(s.core, HOME, true, e);
  }

  /** One step leaves the active tab suspended only if it promotes one, or finds it so and leaves it active. */
  lemma StepSuspends(s: Sys, l: Label)
    requires TabsOk(s.core) && Enabled(s, l) && ActiveSuspended(Next(s, l).core)
    ensures Promotes(s.core, l) || (ActiveSuspended(s.core) && Next(s, l).core.activeTabId == s.core.activeTabId)
    ensures Promotes(s.core, l) ==> Next(s, l).core.activeTabId == l.pick
  {
    match l
    case Boot(networkUp, port, protocol, e) => BootKeepsSuspension(s, networkUp, port, protocol, e);
    case Run(cmd, pick, e) =>
      hide Command, Passing, TabsOk;
      ActiveSuspendedIff(s.core, cmd, pick, e);
      ActiveAfter(s.core, cmd, pick, e);
    case SuspendPass(now) => PassSparesActive(s.core, 300, now);
    case _ =>
  }

  /** Label `i` promoted the suspended tab `x`, which has been active and asleep in every state since. */
  ghost predicate AsleepSince(now: nat, created: bool, labels: seq<Label>, i: nat, x: u32)
    requires i < |labels|
  {
    && Enabled(After(now, created, labels[..i]), labels[i])
    && Promotes(After(now, created, labels[..i]).core, labels[i]) && labels[i].pick == x
    && forall j :: i < j <= |labels| ==> AsleepAt(After(now, created, labels[..j]).core, x)
  }

  predicate AsleepAt(m: Tabs, x: u32) {
    m.activeTabId == x && ActiveSuspended(m)
  }

  lemma AsleepLonger(now: nat, created: bool, labels: seq<Label>, l: Label, i: nat, x: u32)
    requires i < |labels| && AsleepSince(now, created, labels, i, x)
    requires AsleepAt(After(now, created, labels + [l]).core, x)
    ensures AsleepSince(now, created, labels + [l], i, x)
  {
    hide After, AsleepAt, Promotes, Enabled;
    var all := labels + [l];
    assert all[..i] == labels[..i] && all[i] == labels[i];
    forall j | i < j <= |all| ensures AsleepAt(After(now, created, all[..j]).core, x) {
      assert if j <= |labels| then all[..j] == labels[..j] else all[..j] == all;
    }
  }

  lemma AsleepNow(now: nat, created: bool, labels: seq<Label>, l: Label)
    requires var s := After(now, created, labels);
      Enabled(s, l) && Promotes(s.core, l) && AsleepAt(After(now, created, labels + [l]).core, l.pick)
    ensures AsleepSince(now, created, labels + [l], |labels|, l.pick)
  {
    hide After, AsleepAt, Promotes, Enabled;
    var all := labels + [l];
    assert all[..|labels|] == labels && all[..|all|] == all;
  }

  /**
   In every run a suspended active tab was promoted, by closing the tab that was active, while it slept, and nothing has
   woken it or taken its place since: no pass over the idle tabs ever suspends the active one.
   */
  lemma {:induction false} SuspendedWasPromoted(now: nat, created: bool, labels: seq<Label>)
    requires ActiveSuspended(After(now, created, labels).core)
    ensures exists i: nat :: i < |labels|
              && AsleepSince(now, created, labels, i, After(now, created, labels).core.activeTabId)
  {
    if labels != [] {
      var front, l := labels[..|labels| - 1], labels[|labels| - 1];
      var s := After(now, created, front);
      assert labels == front + [l];
      AfterMore(now, created, front, l);
      hide After, AsleepSince, Next, Promotes, ActiveSuspended;
      if Enabled(s, l) {
        StepSuspends(s, l);
      }
      var x := After(now, created, labels).core.activeTabId;
      if Enabled(s, l) && Promotes(s.core, l) {
        AsleepNow(now, created, front, l);
        assert AsleepSince(now, created, labels, |front|, x);
      } else {
        SuspendedWasPromoted(now, created, front);
        var i: nat :| i < |front| && AsleepSince(now, created, front, i, s.core.activeTabId);
        AsleepLonger(now, created, front, l, i, x);
      }
    }
  }

  // ---------------------------------------------------------------------------------------------------------------
  // Runs in which the plain claims fail
  // ---------------------------------------------------------------------------------------------------------------

  /** A change to V2Ray, once the chrome has taken what it sends, leaves the page without the proxy it wants. */
  lemma V2RayEndToEnd(now: nat, created: bool, labels: seq<Label>, config: V2RayConfig, e: Env, port: u16)
    requires var s := After(now, created, labels);
      && s.booted && s.queue == [] && s.ui.pool.Some? && !Contains(LastUrl(s.ui.pool.value), ".onion")
    requires e.changeOk && e.world.socksPort == Some(port)
    ensures var s := After(now, created,
                           labels + [Run(ChangeNetwork(V2Ray(config)), 0, e)] + [Deliver(true)] + [Deliver(true)]);
      s.queue == [] && LeavesV2RayBare(s.ui, port)
  {
    hide After, OnEvent, LeavesV2RayBare, LastUrl, Contains, Next;
    var s, change := After(now, created, labels), Run(ChangeNetwork(V2Ray(config)), 0, e);
    var changed := labels + [change];
    AfterMore(now, created, labels, change);
    AfterMore(now, created, changed, Deliver(true));
    AfterMore(now, created, changed + [Deliver(true)], Deliver(true));
    ChangeSends(s, config, e, port);
    var t := After(now, created, changed);
    TakesTwo(t, NetworkStatusChanged(V2Ray(config)), SocksReady(port));
    V2RayLosesProxy(s.ui, config, port);
  }

  lemma ChangeSends(s: Sys, config: V2RayConfig, e: Env, port: u16)
    requires TabsOk(s.core) && s.booted && s.queue == [] && e.changeOk && e.world.socksPort == Some(port)
    ensures var t := Next(s, Run(ChangeNetwork(V2Ray(config)), 0, e));
      t.queue == [NetworkStatusChanged(V2Ray(config)), SocksReady(port)] && t.ui == s.ui
  {
    hide TabsOk, ListTabs;
  }

  lemma TakesTwo(s: Sys, first: UiEvent, second: UiEvent)
    requires TabsOk(s.core) && s.queue == [first, second]
    ensures Enabled(s, Deliver(true)) && Enabled(Next(s, Deliver(true)), Deliver(true))
    ensures TabsOk(Next(s, Deliver(true)).core)
    ensures var t := Next(Next(s, Deliver(true)), Deliver(true));
      t.queue == [] && t.ui == OnEvent(OnEvent(s.ui, first, true), second, true)
  {
    hide OnEvent, TabsOk;
  }

  /** What a navigation leaves alone, and what it sets. */
  lemma NavigatingTouches(m: Tabs, url: string, record: bool, e: Env, id: u32)
    requires TabsOk(m) && id in m.tabs
    ensures var n := Navigating(m, url, record, e).tabs;
      && n.tabs.Keys == m.tabs.Keys && n.activeTabId == m.activeTabId && n.nextTabId == m.nextTabId
      && n.tabs[id].lastActive == m.tabs[id].lastActive && n.tabs[id].isSuspended == m.tabs[id].isSuspended
      && (id == m.activeTabId && (record || e.storageOk) ==> n.tabs[id].url == url)
  {
    hide PageEvents, ListTabs, TitleOf;
  }

  /** The core right after boot: one tab, on the home page. */
  predicate Booted(m: Tabs) {
    && m.tabs.Keys == {0} && m.activeTabId == 0 && m.nextTabId == 1
    && m.tabs[0].lastActive == 0 && !m.tabs[0].isSuspended && m.tabs[0].url == HOME
  }

  lemma AfterBoot(created: bool, networkUp: bool, port: Option<u16>, protocol: Protocol, e: Env)
    requires e.storageOk
    ensures var s := After(0, created, [Boot(networkUp, port, protocol, e)]);
      s.booted && Booted(s.core)
  {
    hide Navigating, NavPassing, ListTabs, Booted;
    assert After(0, created, []) == Starting(0, created);
    AfterMore(0, created, [], Boot(networkUp, port, protocol, e));
    assert [] + [Boot(networkUp, port, protocol, e)] == [Boot(networkUp, port, protocol, e)];
    FirstPage(e);
  }

  lemma FirstPage(e: Env)
    requires TabsOk(FirstTabs(0))
    ensures Booted(Navigating(FirstTabs(0), HOME, true, e).tabs)
  {
    hide Navigating, TabsOk;
    NavigatingTouches(FirstTabs(0), HOME, true, e, 0);
  }

  /** Settings that cannot be read during a navigation leave the chrome with a strip that is out of date. */
  lemma StaleStripWitness(
      created: bool, networkUp: bool, port: Option<u16>, protocol: Protocol, e: Env, url: string, fail: Env)
    requires e.storageOk && !fail.storageOk && url != HOME
    ensures var s := After(0, created, [Boot(networkUp, port, protocol, e)] + [Run(Navigate(url), 0, fail)]);
      LastStrip(s.queue, s.ui.tabs) != ListTabs(s.core)
  {
    var boot := [Boot(networkUp, port, protocol, e)];
    AfterBoot(created, networkUp, port, protocol, e);
    assert [] + boot == boot;
    StartIsSound(0, created);
    StaysInStep(0, created, [], boot);
    AfterMore(0, created, boot, Run(Navigate(url), 0, fail));
    hide After, ListTabs, LastStrip, Command, Passing;
    var s := After(0, created, boot);
    StripStaleIff(s.core, Navigate(url), 0, fail);
    LastStripAppend(s.queue, Command(s.core, Navigate(url), 0, fail).sent, s.ui.tabs);
  }

  /** Closing an id that is no tab right after boot leaves two tabs. */
  lemma StaleCloseWitness(
      created: bool, networkUp: bool, port: Option<u16>, protocol: Protocol, e: Env, stale: u32)
    requires e.storageOk && stale != 0
    ensures |After(0, created, [Boot(networkUp, port, protocol, e)] + [Run(CloseTab(stale), 0, e)]).core.tabs.Keys| == 2
  {
    var boot := [Boot(networkUp, port, protocol, e)];
    AfterBoot(created, networkUp, port, protocol, e);
    AfterMore(0, created, boot, Run(CloseTab(stale), 0, e));
    hide After, Command, Passing, ListTabs;
    var m := After(0, created, boot).core;
    assert 0 in m.tabs - {stale};
    assert |m.tabs| == |m.tabs.Keys| == 1;
    TabCountAfterClose(m, stale, 0, e);
  }

  /** A second tab, a long pause, and closing that tab: the first is promoted asleep. */
  lemma AsleepWitness(
      created: bool, networkUp: bool, port: Option<u16>, protocol: Protocol, e: Env, later: nat)
    requires e.storageOk && later >= 301_000_000_000
    ensures ActiveSuspended(
              After(0, created, [Boot(networkUp, port, protocol, e)] + [Run(NewTab, 0, e)] + [SuspendPass(later)]
                                + [Run(CloseTab(1), 0, e)]).core)
  {
    hide After, Command, SuspendInactive, ActiveSuspended, Booted;
    var boot := [Boot(networkUp, port, protocol, e)];
    var two := boot + [Run(NewTab, 0, e)];
    var passed := two + [SuspendPass(later)];
    AfterBoot(created, networkUp, port, protocol, e);
    AfterRun(0, created, boot, NewTab, 0, e);
    OpenedSecond(After(0, created, boot).core, e);
    AfterPass(0, created, two, later);
    PassedSecond(After(0, created, two).core, later);
    PromotedAsleep(After(0, created, passed).core, e);
    AfterRun(0, created, passed, CloseTab(1), 0, e);
  }

  lemma AfterRun(now: nat, created: bool, labels: seq<Label>, cmd: BrowserCommand, pick: u32, e: Env)
    requires var s := After(now, created, labels);
      s.booted && Possible(s.core, cmd, pick)
    ensures var s, t := After(now, created, labels), After(now, created, labels + [Run(cmd, pick, e)]);
      t.booted && t.core == Command(s.core, cmd, pick, e).tabs
  {
    hide Command, Passing;
    AfterMore(now, created, labels, Run(cmd, pick, e));
  }

  lemma AfterPass(now: nat, created: bool, labels: seq<Label>, later: nat)
    requires After(now, created, labels).booted
    ensures var s, t := After(now, created, labels), After(now, created, labels + [SuspendPass(later)]);
      t.booted && t.core == SuspendInactive(s.core, 300, later)
  {
    hide SuspendInactive;
    AfterMore(now, created, labels, SuspendPass(later));
  }

  lemma PromotedAsleep(m: Tabs, e: Env)
    requires TabsOk(m) && m.tabs.Keys == {0, 1} && |m.tabs| == 2 && m.activeTabId == 1 && m.tabs[0].isSuspended
    ensures Possible(m, CloseTab(1), 0) && ActiveSuspended(Command(m, CloseTab(1), 0, e).tabs)
  {
    hide Command, TabsOk;
    assert 0 in m.tabs - {1};
    ActiveSuspendedIff(m, CloseTab(1), 0, e);
  }

  lemma OpenedSecond(m: Tabs, e: Env)
    requires TabsOk(m) && Booted(m)
    ensures var n := Command(m, NewTab, 0, e).tabs;
      n.tabs.Keys == {0, 1} && n.activeTabId == 1 && n.tabs[0].lastActive == 0 && !n.tabs[0].isSuspended
  {
    hide Navigating, ListTabs;
    AddKeepsOk(m, HOME, "New Tab", e.now);
    NavigatingTouches(AddTab(m, HOME, "New Tab", e.now), HOME, true, e, 0);
  }

  lemma PassedSecond(m: Tabs, later: nat)
    requires m.tabs.Keys == {0, 1} && m.activeTabId == 1 && m.tabs[0].lastActive == 0 && !m.tabs[0].isSuspended
    requires later >= 301_000_000_000
    ensures var n := SuspendInactive(m, 300, later);
      n.tabs.Keys == {0, 1} && n.activeTabId == 1 && n.tabs[0].isSuspended && |n.tabs| == 2
  {
    assert later / NANOS >= 301;
    assert |SuspendInactive(m, 300, later).tabs| == |SuspendInactive(m, 300, later).tabs.Keys|;
  }
}
