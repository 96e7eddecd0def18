/**
 The tab set and each tab's history. `Tabs` is the abstract state and the functions over it say what each method does;
 `TabManager` is the object that does it in place. Clock readings are arguments, in nanoseconds. Ids are 32-bit and
 the next id wraps around.
 */
module Tabs {
  import opened Words
  import opened Wrappers
  import opened Messages

  const NANOS := 1_000_000_000

  datatype Tab = Tab(
    id: u32, url: string, title: string, lastActive: nat, isSuspended: bool, savedState: Option<string>,
    history: seq<string>, historyIndex: nat)

  datatype Tabs = Tabs(tabs: map<u32, Tab>, activeTabId: u32, nextTabId: u32)

  // ---------------------------------------------------------------------------------------------------------------
  // What each operation does
  // ---------------------------------------------------------------------------------------------------------------

  const EMPTY := Tabs(map[], 0, 0)

  function AddTab(m: Tabs, url: string, title: string, now: nat): Tabs {
    var tab := Tab(m.nextTabId, url, title, now, false, None, [url], 0);
    Tabs(m.tabs[m.nextTabId := tab], m.nextTabId, (m.nextTabId + 1) % U32)
  }

  function SwitchToTab(m: Tabs, id: u32, now: nat): Tabs {
    if id in m.tabs then
      m.(tabs := m.tabs[id := m.tabs[id].(lastActive := now, isSuspended := false)], activeTabId := id)
    else m
  }

  /** `pick` is the key the hash map happens to list first. */
  function RemoveTab(m: Tabs, id: u32, pick: u32): Tabs {
    var rest := m.tabs - {id};
    if m.activeTabId != id then m.(tabs := rest)
    else m.(tabs := rest, activeTabId := if rest == map[] then 0 else pick)
  }

  /** Removing the active tab promotes some other, or leaves id 0 when there is none; removing another moves nothing. */
  lemma RemovalTells(m: Tabs, id: u32, pick: u32)
    requires CanPick(m, id, pick)
    ensures var n := RemoveTab(m, id, pick);
      && n.tabs == m.tabs - {id} && n.nextTabId == m.nextTabId
      && (m.activeTabId != id ==> n.activeTabId == m.activeTabId)
      && (m.activeTabId == id ==> if m.tabs - {id} == map[] then n.activeTabId == 0 else n.activeTabId in n.tabs)
  {
  }

  predicate CanPick(m: Tabs, id: u32, pick: u32) {
    m.tabs - {id} == map[] || pick in m.tabs - {id}
  }

  predicate Idle(m: Tabs, id: u32, threshold: nat, now: nat)
    requires id in m.tabs
  {
    && id != m.activeTabId
    && !m.tabs[id].isSuspended
    && (if now > m.tabs[id].lastActive then (now - m.tabs[id].lastActive) / NANOS else 0) > threshold
  }

  function SuspendInactive(m: Tabs, threshold: nat, now: nat): Tabs {
    m.(tabs := map id | id in m.tabs ::
      if Idle(m, id, threshold, now) then m.tabs[id].(isSuspended := true) else m.tabs[id])
  }

  /** What a suspend pass writes to storage: the saved state, if any, of each tab it suspends. */
  function SavedStates(m: Tabs, threshold: nat, now: nat): map<u32, string> {
    map id | id in m.tabs && Idle(m, id, threshold, now) && m.tabs[id].savedState.Some? :: m.tabs[id].savedState.value
  }

  /** Written are the states, where there are any, of the tabs that the pass puts to sleep. */
  lemma SavedIff(m: Tabs, threshold: nat, now: nat, id: u32)
    requires id in m.tabs
    ensures var n, saved := SuspendInactive(m, threshold, now), SavedStates(m, threshold, now);
      && (id in saved <==> n.tabs[id].isSuspended && !m.tabs[id].isSuspended && m.tabs[id].savedState.Some?)
      && (id in saved ==> saved[id] == m.tabs[id].savedState.value)
  {
  }

  lemma SavedStep(m: Tabs, threshold: nat, now: nat, todo: set<u32>, id: u32)
    requires id in todo && todo <= m.tabs.Keys
    ensures var saved := SavedStates(m, threshold, now);
      saved - (todo - {id}) ==
        if Idle(m, id, threshold, now) && m.tabs[id].savedState.Some? then
          (saved - todo)[id := m.tabs[id].savedState.value]
        else saved - todo
  {
    hide Idle;
  }

  lemma SavedStart(m: Tabs, threshold: nat, now: nat)
    ensures SavedStates(m, threshold, now) - m.tabs.Keys == map[]
    ensures SavedStates(m, threshold, now) - {} == SavedStates(m, threshold, now)
  {
    hide Idle;
  }

  predicate HistoryOk(t: Tab) {
    t.history != [] && t.historyIndex < |t.history|
  }

  function Push(t: Tab, url: string): Tab
    requires HistoryOk(t)
  {
    var kept := t.history[..t.historyIndex + 1];
    if kept[|kept| - 1] == url then t.(history := kept, url := url)
    else t.(history := kept + [url], historyIndex := |kept|, url := url)
  }

  function Moved(t: Tab, index: nat): Tab
    requires index < |t.history|
  {
    t.(historyIndex := index, url := t.history[index])
  }

  predicate CanGoBack(m: Tabs) {
    m.activeTabId in m.tabs && m.tabs[m.activeTabId].historyIndex > 0
  }

  predicate CanGoForward(m: Tabs) {
    m.activeTabId in m.tabs && m.tabs[m.activeTabId].historyIndex + 1 < |m.tabs[m.activeTabId].history|
  }

  function WithActive(m: Tabs, t: Tab): Tabs {
    m.(tabs := m.tabs[m.activeTabId := t])
  }

  function PushHistory(m: Tabs, url: string): Tabs
    requires forall id :: id in m.tabs ==> HistoryOk(m.tabs[id])
  {
    if m.activeTabId in m.tabs then WithActive(m, Push(m.tabs[m.activeTabId], url)) else m
  }

  function GoBack(m: Tabs): Tabs
    requires forall id :: id in m.tabs ==> HistoryOk(m.tabs[id])
  {
    if CanGoBack(m) then
      assert HistoryOk(m.tabs[m.activeTabId]);
      WithActive(m, Moved(m.tabs[m.activeTabId], m.tabs[m.activeTabId].historyIndex - 1))
    else m
  }

  function GoForward(m: Tabs): Tabs
    requires forall id :: id in m.tabs ==> HistoryOk(m.tabs[id])
  {
    if CanGoForward(m) then
      WithActive(m, Moved(m.tabs[m.activeTabId], m.tabs[m.activeTabId].historyIndex + 1))
    else m
  }

  function Info(m: Tabs, id: u32): TabInfo
    requires id in m.tabs
  {
    TabInfo(m.tabs[id].id, m.tabs[id].title, m.tabs[id].url, m.tabs[id].id == m.activeTabId)
  }

  // ---------------------------------------------------------------------------------------------------------------
  // The strip: all tabs, by increasing id
  // ---------------------------------------------------------------------------------------------------------------

  ghost function Least(ids: set<u32>): (r: u32)
    requires ids != {}
    ensures r in ids && forall x :: x in ids ==> r <= x
  {
    LeastExists(ids);
    var r :| r in ids && forall x :: x in ids ==> r <= x;
    r
  }

  lemma {:induction false} LeastOf(ids: set<u32>) returns (r: u32)
    requires ids != {}
    ensures r in ids && forall x :: x in ids ==> r <= x
  {
    r :| r in ids;
    var rest := ids - {r};
    assert forall x :: x in ids ==> x == r || x in rest;
    if rest != {} {
      var s := LeastOf(rest);
      if s < r {
        r := s;
      }
    }
  }

  lemma LeastExists(ids: set<u32>)
    requires ids != {}
    ensures exists r :: r in ids && forall x :: x in ids ==> r <= x
  {
    var r := LeastOf(ids);
  }

  ghost function Strip(m: Tabs, ids: set<u32>): seq<TabInfo>
    requires ids <= m.tabs.Keys
  {
    if ids == {} then [] else [Info(m, Least(ids))] + Strip(m, ids - {Least(ids)})
  }

  ghost function ListTabs(m: Tabs): seq<TabInfo> {
    Strip(m, m.tabs.Keys)
  }

  ghost predicate KeysAreIds(m: Tabs) {
    forall id :: id in m.tabs ==> m.tabs[id].id == id
  }

  ghost predicate ById(v: seq<TabInfo>) {
    v == [] || ((forall t :: t in v[1..] ==> v[0].id < t.id) && ById(v[1..]))
  }

  lemma {:induction false} StripIsSorted(m: Tabs, ids: set<u32>)
    requires KeysAreIds(m) && ids <= m.tabs.Keys
    ensures ById(Strip(m, ids))
    ensures forall t :: t in Strip(m, ids) <==> t.id in ids && t == Info(m, t.id)
  {
    if ids != {} {
      var least := Least(ids);
      StripIsSorted(m, ids - {least});
      assert Strip(m, ids)[1..] == Strip(m, ids - {least});
    }
  }

  /** Two lists by increasing id with the same entries are the same list. */
  lemma {:induction false} ByIdUnique(a: seq<TabInfo>, b: seq<TabInfo>)
    requires ById(a) && ById(b)
    requires forall t :: t in a <==> t in b
    ensures a == b
  {
    assert (a != [] ==> a[0] in a) && (b != [] ==> b[0] in b);
    if a != [] && b != [] {
      assert forall t :: t in a <==> t == a[0] || t in a[1..];
      assert forall t :: t in b <==> t == b[0] || t in b[1..];
      assert a[0] in b && b[0] in a;
      assert a[0] == b[0];
      assert a[0] !in a[1..] && b[0] !in b[1..];
      ByIdUnique(a[1..], b[1..]);
    }
  }

  function Insert(t: TabInfo, v: seq<TabInfo>): (r: seq<TabInfo>)
    ensures forall u :: u in r <==> u == t || u in v
  {
    if v == [] || t.id <= v[0].id then [t] + v
    else
      assert v == [v[0]] + v[1..];
      [v[0]] + Insert(t, v[1..])
  }

  /** `sort_by_key` on the id. */
  function SortById(v: seq<TabInfo>): (r: seq<TabInfo>)
    ensures forall u :: u in r <==> u in v
  {
    if v == [] then []
    else
      assert v == [v[0]] + v[1..];
      Insert(v[0], SortById(v[1..]))
  }

  lemma {:induction false} InsertKeepsOrder(t: TabInfo, v: seq<TabInfo>)
    requires ById(v) && forall u :: u in v ==> u.id != t.id
    ensures ById(Insert(t, v))
  {
    if v == [] || t.id <= v[0].id {
      assert ([t] + v)[1..] == v;
      assert v != [] ==> v[0] in v;
    } else {
      assert v == [v[0]] + v[1..];
      InsertKeepsOrder(t, v[1..]);
      assert Insert(t, v)[1..] == Insert(t, v[1..]);
    }
  }

  ghost predicate DistinctIds(v: seq<TabInfo>) {
    v == [] || ((forall t :: t in v[1..] ==> v[0].id != t.id) && DistinctIds(v[1..]))
  }

  lemma {:induction false} SortedById(v: seq<TabInfo>)
    requires DistinctIds(v)
    ensures ById(SortById(v))
  {
    if v != [] {
      SortedById(v[1..]);
      InsertKeepsOrder(v[0], SortById(v[1..]));
    }
  }

  /** Sorting the entries in whatever order the hash map lists them gives the strip. */
  lemma SortingGivesStrip(m: Tabs, v: seq<TabInfo>)
    requires KeysAreIds(m) && DistinctIds(v)
    requires forall t :: t in v <==> t.id in m.tabs && t == Info(m, t.id)
    ensures SortById(v) == ListTabs(m)
  {
    SortedById(v);
    StripIsSorted(m, m.tabs.Keys);
    ByIdUnique(SortById(v), ListTabs(m));
  }

  // ---------------------------------------------------------------------------------------------------------------
  // The object
  // ---------------------------------------------------------------------------------------------------------------

  class TabManager {
    var tabs: map<u32, Tab>
    var activeTabId: u32
    var nextTabId: u32

    ghost function State(): Tabs
      reads this
    {
      Tabs(tabs, activeTabId, nextTabId)
    }

    ghost predicate HistoriesOk()
      reads this
    {
      forall id :: id in tabs ==> HistoryOk(tabs[id])
    }

    constructor ()
      ensures State() == EMPTY
    {
      tabs := map[];
      activeTabId := 0;
      nextTabId := 0;
    }

    method Add(url: string, title: string, now: nat) returns (id: u32)
      modifies this
      ensures State() == AddTab(old(State()), url, title, now)
      ensures id == old(nextTabId)
    {
      id := nextTabId;
      nextTabId := (nextTabId + 1) % U32;
      tabs := tabs[id := Tab(id, url, title, now, false, None, [url], 0)];
      activeTabId := id;
    }

    method Switch(id: u32, now: nat)
      modifies this
      ensures State() == SwitchToTab(old(State()), id, now)
    {
      if id in tabs {
        activeTabId := id;
        var tab := tabs[id].(lastActive := now);
        tabs := tabs[id := tab.(isSuspended := false)];
      }
    }

    method Close(id: u32)
      modifies this
      ensures exists pick: u32 :: CanPick(old(State()), id, pick) && State() == RemoveTab(old(State()), id, pick)
    {
      ghost var before := State();
      ghost var pick: u32 := 0;
      tabs := tabs - {id};
      if tabs != map[] {
        var first :| first in tabs;
        pick := first;
        if activeTabId == id {
          activeTabId := first;
        }
      } else if activeTabId == id {
        activeTabId := 0;
      }
      assert CanPick(before, id, pick) && State() == RemoveTab(before, id, pick);
    }

    method Suspend(threshold: nat, now: nat) returns (saved: map<u32, string>)
      modifies this`tabs
      ensures State() == SuspendInactive(old(State()), threshold, now)
      ensures saved == SavedStates(old(State()), threshold, now)
    {
      hide Idle, SavedStates;
      SavedStart(State(), threshold, now);
      var todo := tabs.Keys;
      saved := map[];
      while todo != {}
        invariant todo <= tabs.Keys == old(tabs).Keys
        invariant forall id :: id in tabs ==>
          tabs[id] ==
            if id !in todo && Idle(old(State()), id, threshold, now) then old(tabs)[id].(isSuspended := true)
            else old(tabs)[id]
        invariant saved == SavedStates(old(State()), threshold, now) - todo
        decreases todo
      {
        var id :| id in todo;
        var idle := IsIdle(id, threshold, now);
        SavedStep(old(State()), threshold, now, todo, id);
        if idle {
          if tabs[id].savedState.Some? {
            saved := saved[id := tabs[id].savedState.value];
          }
          tabs := tabs[id := tabs[id].(isSuspended := true)];
        }
        todo := todo - {id};
      }
    }

    method IsIdle(id: u32, threshold: nat, now: nat) returns (idle: bool)
      requires id in tabs
      ensures forall m: Tabs :: m.activeTabId == activeTabId && id in m.tabs && m.tabs[id] == tabs[id] ==>
                idle == Idle(m, id, threshold, now)
    {
      var tab := tabs[id];
      idle := id != activeTabId && !tab.isSuspended
              && (if now > tab.lastActive then (now - tab.lastActive) / NANOS else 0) > threshold;
    }

    method PushUrl(url: string)
      requires HistoriesOk()
      modifies this`tabs
      ensures State() == PushHistory(old(State()), url)
    {
      if activeTabId in tabs {
        var tab := tabs[activeTabId];
        if tab.historyIndex < |tab.history| - 1 {
          tab := tab.(history := tab.history[..tab.historyIndex + 1]);
        }
        if tab.history[|tab.history| - 1] != url {
          tab := tab.(history := tab.history + [url]);
          tab := tab.(historyIndex := |tab.history| - 1);
        }
        tabs := tabs[activeTabId := tab.(url := url)];
        var before := old(tabs)[activeTabId];
        assert before.history[..|before.history|] == before.history;
      }
    }

    method Back() returns (url: Option<string>)
      requires HistoriesOk()
      modifies this`tabs
      ensures State() == GoBack(old(State()))
      ensures url == if CanGoBack(old(State())) then Some(State().tabs[activeTabId].url) else None
    {
      if activeTabId in tabs && tabs[activeTabId].historyIndex > 0 {
        var tab := tabs[activeTabId];
        tab := tab.(historyIndex := tab.historyIndex - 1);
        tab := tab.(url := tab.history[tab.historyIndex]);
        tabs := tabs[activeTabId := tab];
        return Some(tab.url);
      }
      return None;
    }

    method Forward() returns (url: Option<string>)
      requires HistoriesOk()
      modifies this`tabs
      ensures State() == GoForward(old(State()))
      ensures url == if CanGoForward(old(State())) then Some(State().tabs[activeTabId].url) else None
    {
      if activeTabId in tabs && tabs[activeTabId].historyIndex < |tabs[activeTabId].history| - 1 {
        var tab := tabs[activeTabId];
        tab := tab.(historyIndex := tab.historyIndex + 1);
        tab := tab.(url := tab.history[tab.historyIndex]);
        tabs := tabs[activeTabId := tab];
        return Some(tab.url);
      }
      return None;
    }

    /** What navigation writes to the active tab, through `get_active_tab_mut`. */
    method Label(url: string, title: string)
      modifies this`tabs
      ensures activeTabId in old(tabs) ==>
                State() == WithActive(old(State()), old(tabs)[activeTabId].(url := url, title := title))
      ensures activeTabId !in old(tabs) ==> State() == old(State())
    {
      if activeTabId in tabs {
        var tab := tabs[activeTabId].(url := url);
        tabs := tabs[activeTabId := tab.(title := title)];
      }
    }

    method List() returns (v: seq<TabInfo>)
      requires KeysAreIds(State())
      ensures v == ListTabs(State())
    {
      v := [];
      var todo := tabs.Keys;
      while todo != {}
        invariant todo <= tabs.Keys
        invariant forall t :: t in v <==> t.id in tabs && t.id !in todo && t == Info(State(), t.id)
        invariant DistinctIds(v)
        decreases todo
      {
        var id :| id in todo;
        var t := TabInfo(tabs[id].id, tabs[id].title, tabs[id].url, tabs[id].id == activeTabId);
        assert ([t] + v)[1..] == v;
        v := [t] + v;
        todo := todo - {id};
      }
      SortingGivesStrip(State(), v);
      v := SortById(v);
    }
  }

  // ---------------------------------------------------------------------------------------------------------------
  // Each tab's history is a zipper
  // ---------------------------------------------------------------------------------------------------------------

  /** What was visited before, the page shown, and what `forward` would revisit. */
  datatype Zipper = Zipper(back: seq<string>, current: string, forward: seq<string>)

  ghost function Zip(t: Tab): Zipper
    requires HistoryOk(t)
  {
    Zipper(t.history[..t.historyIndex], t.history[t.historyIndex], t.history[t.historyIndex + 1..])
  }

  /** Visiting forgets what lay ahead, even when the page visited is the one already shown. */
  function Visit(z: Zipper, url: string): Zipper {
    if z.current == url then Zipper(z.back, url, []) else Zipper(z.back + [z.current], url, [])
  }

  function StepBack(z: Zipper): Zipper
    requires z.back != []
  {
    Zipper(z.back[..|z.back| - 1], z.back[|z.back| - 1], [z.current] + z.forward)
  }

  function StepForward(z: Zipper): Zipper
    requires z.forward != []
  {
    Zipper(z.back + [z.current], z.forward[0], z.forward[1..])
  }

  ghost predicate NoRepeats(h: seq<string>) {
    forall i :: 0 < i < |h| ==> h[i - 1] != h[i]
  }

  /** A tab between commands: its address is the history entry it points at, and no entry repeats its predecessor. */
  ghost predicate TabOk(t: Tab) {
    HistoryOk(t) && t.url == t.history[t.historyIndex] && NoRepeats(t.history)
  }

  lemma PushIsVisit(t: Tab, url: string)
    requires TabOk(t)
    ensures TabOk(Push(t, url)) && Zip(Push(t, url)) == Visit(Zip(t), url)
  {
    var i := t.historyIndex;
    var kept := t.history[..i + 1];
    assert NoRepeats(kept) by {
      forall k | 0 < k < |kept| ensures kept[k - 1] != kept[k] {
        assert t.history[k - 1] != t.history[k];
      }
    }
    if kept[|kept| - 1] == url {
      assert kept[..i] == t.history[..i];
    } else {
      var h := kept + [url];
      assert h[..|kept|] == kept == t.history[..i] + [t.history[i]];
      forall k | 0 < k < |h| ensures h[k - 1] != h[k] {
        if k < |kept| {
          assert kept[k - 1] != kept[k];
        }
      }
    }
  }

  lemma BackIsStepBack(t: Tab)
    requires TabOk(t) && t.historyIndex > 0
    ensures var u := Moved(t, t.historyIndex - 1);
      TabOk(u) && Zip(u) == StepBack(Zip(t))
  {
    var i := t.historyIndex;
    assert t.history[..i][..i - 1] == t.history[..i - 1];
    assert t.history[i..] == [t.history[i]] + t.history[i + 1..];
  }

  lemma ForwardIsStepForward(t: Tab)
    requires TabOk(t) && t.historyIndex + 1 < |t.history|
    ensures var u := Moved(t, t.historyIndex + 1);
      TabOk(u) && Zip(u) == StepForward(Zip(t))
  {
    var i := t.historyIndex;
    assert t.history[..i + 1] == t.history[..i] + [t.history[i]];
    assert t.history[i + 1..][1..] == t.history[i + 2..];
  }

  /** The zipper determines the history and the place in it. */
  lemma ZipIsFaithful(t: Tab, u: Tab)
    requires HistoryOk(t) && HistoryOk(u) && Zip(t) == Zip(u)
    ensures t.history == u.history && t.historyIndex == u.historyIndex
  {
    var i := t.historyIndex;
    assert i == |Zip(t).back| == u.historyIndex;
    assert t.history == Zip(t).back + [Zip(t).current] + Zip(t).forward;
    assert u.history == Zip(u).back + [Zip(u).current] + Zip(u).forward;
  }

  ghost predicate AllOk(m: Tabs) {
    forall id :: id in m.tabs ==> TabOk(m.tabs[id])
  }

  function Backs(m: Tabs, k: nat): (r: Tabs)
    requires forall id :: id in m.tabs ==> HistoryOk(m.tabs[id])
    ensures forall id :: id in r.tabs ==> HistoryOk(r.tabs[id])
  {
    if k == 0 then m else GoBack(Backs(m, k - 1))
  }

  function Forwards(m: Tabs, k: nat): (r: Tabs)
    requires forall id :: id in m.tabs ==> HistoryOk(m.tabs[id])
    ensures forall id :: id in r.tabs ==> HistoryOk(r.tabs[id])
    decreases k
  {
    if k == 0 then m else Forwards(GoForward(m), k - 1)
  }

  /** The tab set with the active tab moved to entry `i` of its history. */
  ghost function At(m: Tabs, i: nat): Tabs
    requires m.activeTabId in m.tabs && i < |m.tabs[m.activeTabId].history|
  {
    WithActive(m, Moved(m.tabs[m.activeTabId], i))
  }

  lemma HereIsAt(m: Tabs)
    requires AllOk(m) && m.activeTabId in m.tabs
    ensures At(m, m.tabs[m.activeTabId].historyIndex) == m
  {
    var t := m.tabs[m.activeTabId];
    assert Moved(t, t.historyIndex) == t;
    assert m.tabs[m.activeTabId := t] == m.tabs;
  }

  lemma {:induction false} BacksMove(m: Tabs, k: nat)
    requires AllOk(m) && m.activeTabId in m.tabs && k <= m.tabs[m.activeTabId].historyIndex
    ensures Backs(m, k) == At(m, m.tabs[m.activeTabId].historyIndex - k)
  {
    if k == 0 {
      HereIsAt(m);
    } else {
      BacksMove(m, k - 1);
    }
  }

  lemma {:induction false} ForwardsMove(m: Tabs, i: nat, k: nat)
    requires AllOk(m) && m.activeTabId in m.tabs && i + k < |m.tabs[m.activeTabId].history|
    ensures Forwards(At(m, i), k) == At(m, i + k)
    decreases k
  {
    if k > 0 {
      assert GoForward(At(m, i)) == At(m, i + 1);
      ForwardsMove(m, i + 1, k - 1);
    }
  }

  /** Going back as far as the history allows and as many times forward again restores the whole tab set. */
  lemma BackAndForward(m: Tabs, k: nat)
    requires AllOk(m) && m.activeTabId in m.tabs && k <= m.tabs[m.activeTabId].historyIndex
    ensures Forwards(Backs(m, k), k) == m
  {
    BacksMove(m, k);
    ForwardsMove(m, m.tabs[m.activeTabId].historyIndex - k, k);
    HereIsAt(m);
  }
}
