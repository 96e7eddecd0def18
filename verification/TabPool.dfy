/**
 The pool of live web views: at most three, evicted least-recently-used first, all sharing one proxy and one
 privacy setting. `Pool` is the abstract state and the functions over it say what each method does to it;
 `TabWebViewPool` is the object that does it in place. Building a view may fail: `built` is that outcome.
 */
module TabPool {
  import opened Words
  import opened Wrappers
  import opened Lists
  import opened Text

  const MAX_CACHED := 3

  datatype PrivacyState = PrivacyState(
    webrtcBlocked: bool, webglDisabled: bool, thirdPartyCookiesBlocked: bool, dnt: bool,
    securityLevel: string, sandboxLabel: string)

  /** A content view: the proxy and privacy it was built with, what it shows, and whether it is visible. */
  datatype View = View(socksPort: Option<u16>, privacy: PrivacyState, lastUrl: string, visible: bool)

  datatype Pool = Pool(
    slots: map<u32, View>, lru: seq<u32>, active: Option<u32>, socksPort: Option<u16>, privacy: PrivacyState)

  // ---------------------------------------------------------------------------------------------------------------
  // What each operation does
  // ---------------------------------------------------------------------------------------------------------------

  function NewPool(initial: View, tab: u32): Pool {
    Pool(map[tab := initial], [tab], Some(tab), initial.socksPort, initial.privacy)
  }

  function Hidden(slots: map<u32, View>): map<u32, View> {
    map id | id in slots :: slots[id].(visible := false)
  }

  function Shown(slots: map<u32, View>, id: u32): map<u32, View> {
    if id in slots then slots[id := slots[id].(visible := true)] else slots
  }

  function Touched(lru: seq<u32>, id: u32): seq<u32> {
    Minus(lru, {id}) + [id]
  }

  /** The oldest entry that is not `keep`. */
  function Victim(lru: seq<u32>, keep: u32): (v: Option<u32>)
    ensures v.Some? ==> v.value in lru && v.value != keep
  {
    var others := Minus(lru, {keep});
    if others == [] then None else Some(others[0])
  }

  function Evicted(slots: map<u32, View>, lru: seq<u32>, keep: u32): (map<u32, View>, seq<u32>)
    decreases |lru|
  {
    if |slots| <= MAX_CACHED then (slots, lru)
    else match Victim(lru, keep)
      case None => (slots, lru)
      case Some(v) =>
        MinusShrinks(lru, v);
        Evicted(slots - {v}, Minus(lru, {v}), keep)
  }

  /** A cached view whose tab moved on while it was hidden is reloaded, if the new address is a web address. */
  function Drifted(v: View, url: string): View {
    if v.lastUrl != url && IsWebUrl(url) then v.(lastUrl := url) else v
  }

  function SwitchTo(p: Pool, tab: u32, url: string, built: bool): Pool {
    if p.active == Some(tab) && tab in p.slots then p.(slots := Shown(p.slots, tab))
    else if tab in p.slots then
      var v := Drifted(p.slots[tab].(visible := true), url);
      p.(slots := Hidden(p.slots)[tab := v], lru := Touched(p.lru, tab), active := Some(tab))
    else if built then
      var added := View(p.socksPort, p.privacy, url, true);
      var (slots, lru) := Evicted(Hidden(p.slots)[tab := added], Touched(p.lru, tab), tab);
      p.(slots := slots, lru := lru, active := Some(tab))
    else p.(slots := Hidden(p.slots))
  }

  predicate SwitchSucceeds(p: Pool, tab: u32, built: bool) {
    tab in p.slots || built
  }

  /** Closing every tab of `gone` at once; one tab is the case of a singleton. */
  function CloseTabs(p: Pool, gone: set<u32>): Pool {
    var slots := p.slots - gone;
    var lru := Minus(p.lru, gone);
    if p.active.Some? && p.active.value in gone then
      if lru == [] then Pool(slots, lru, None, p.socksPort, p.privacy)
      else Pool(Shown(slots, Last(lru)), lru, Some(Last(lru)), p.socksPort, p.privacy)
    else p.(slots := slots, lru := lru)
  }

  function RebuildAll(p: Pool, socks: Option<u16>, privacy: PrivacyState, url: string, tab: u32, built: bool): Pool {
    if built then Pool(map[tab := View(socks, privacy, url, true)], [tab], Some(tab), socks, privacy)
    else Pool(map[], [], p.active, socks, privacy)
  }

  predicate HasActiveView(p: Pool) {
    p.active.Some? && p.active.value in p.slots
  }

  /** What the active view last showed, "about:blank" when there is none. */
  function LastUrl(p: Pool): string {
    if HasActiveView(p) then p.slots[p.active.value].lastUrl else "about:blank"
  }

  predicate UsingTorProxy(p: Pool) {
    HasActiveView(p) && p.slots[p.active.value].socksPort.Some?
  }

  function SetActiveUrl(p: Pool, url: string): Pool {
    if HasActiveView(p) then p.(slots := p.slots[p.active.value := p.slots[p.active.value].(lastUrl := url)]) else p
  }

  // ---------------------------------------------------------------------------------------------------------------
  // The object
  // ---------------------------------------------------------------------------------------------------------------

  class TabWebViewPool {
    var slots: map<u32, View>
    var lru: seq<u32>
    var active: Option<u32>
    var socksPort: Option<u16>
    var privacy: PrivacyState

    ghost function State(): Pool
      reads this
    {
      Pool(slots, lru, active, socksPort, privacy)
    }

    constructor (initial: View, tab: u32)
      ensures State() == NewPool(initial, tab)
    {
      slots := map[tab := initial];
      lru := [tab];
      active := Some(tab);
      socksPort := initial.socksPort;
      privacy := initial.privacy;
    }

    method Touch(id: u32)
      modifies this`lru
      ensures lru == Touched(old(lru), id)
    {
      lru := Minus(lru, {id});
      lru := lru + [id];
    }

    method HideAll()
      modifies this`slots
      ensures slots == Hidden(old(slots))
    {
      var todo := slots.Keys;
      while todo != {}
        invariant todo <= slots.Keys == old(slots).Keys
        invariant forall id :: id in slots ==>
          slots[id] == if id in todo then old(slots)[id] else old(slots)[id].(visible := false)
        decreases todo
      {
        var id :| id in todo;
        slots := slots[id := slots[id].(visible := false)];
        todo := todo - {id};
      }
    }

    method EvictIfNeeded(keep: u32)
      modifies this`slots, this`lru
      ensures (slots, lru) == Evicted(old(slots), old(lru), keep)
    {
      while |slots| > MAX_CACHED
        invariant Evicted(slots, lru, keep) == Evicted(old(slots), old(lru), keep)
        decreases |lru|
      {
        var victim := Victim(lru, keep);
        if victim == None {
          break;
        }
        MinusShrinks(lru, victim.value);
        lru := Minus(lru, {victim.value});
        slots := slots - {victim.value};
      }
    }

    method Switch(tab: u32, url: string, built: bool) returns (ok: bool)
      modifies this
      ensures State() == SwitchTo(old(State()), tab, url, built)
      ensures ok == SwitchSucceeds(old(State()), tab, built)
    {
      if active == Some(tab) && tab in slots {
        slots := slots[tab := slots[tab].(visible := true)];
        return true;
      }
      HideAll();
      if tab !in slots {
        if !built {
          return false;
        }
        slots := slots[tab := View(socksPort, privacy, url, true)];
        Touch(tab);
        EvictIfNeeded(tab);
      } else {
        Touch(tab);
        slots := slots[tab := slots[tab].(visible := true)];
        if slots[tab].lastUrl != url && IsWebUrl(url) {
          slots := slots[tab := slots[tab].(lastUrl := url)];
        }
      }
      active := Some(tab);
      return true;
    }

    method CloseTab(tab: u32)
      modifies this
      ensures State() == CloseTabs(old(State()), {tab})
    {
      slots := slots - {tab};
      lru := Minus(lru, {tab});
      if active == Some(tab) {
        active := if lru == [] then None else Some(lru[|lru| - 1]);
        if active.Some? && active.value in slots {
          slots := slots[active.value := slots[active.value].(visible := true)];
        }
      }
    }

    method Rebuild(socks: Option<u16>, priv: PrivacyState, url: string, tab: u32, built: bool) returns (ok: bool)
      modifies this
      ensures State() == RebuildAll(old(State()), socks, priv, url, tab, built)
      ensures ok == built
    {
      slots := map[];
      lru := [];
      socksPort := socks;
      privacy := priv;
      if !built {
        return false;
      }
      slots := slots[tab := View(socks, priv, url, true)];
      lru := lru + [tab];
      active := Some(tab);
      return true;
    }

    /** Whether the views, all built with the pool's proxy, have another one than the wanted. */
    method NeedsProxy(want: Option<u16>) returns (r: bool)
      ensures r == (State().socksPort != want)
      ensures RepInv(State()) ==> forall id :: id in slots ==> (r <==> slots[id].socksPort != want)
    {
      r := socksPort != want;
    }

    /** `load_url` on the active view; the page it shows is remembered even if the engine then refuses it. */
    method LoadUrlActive(url: string)
      modifies this`slots
      ensures State() == SetActiveUrl(old(State()), url)
    {
      if active.Some? && active.value in slots {
        slots := slots[active.value := slots[active.value].(lastUrl := url)];
      }
    }

    method LastUrlOfActive() returns (r: string)
      ensures r == LastUrl(State())
    {
      r := if active.Some? && active.value in slots then slots[active.value].lastUrl else "about:blank";
    }
  }

  // ---------------------------------------------------------------------------------------------------------------
  // Representation invariant
  // ---------------------------------------------------------------------------------------------------------------

  /** The recency list names each cached view once, and there are at most three. */
  ghost predicate LruInv(slots: map<u32, View>, lru: seq<u32>) {
    && NoDup(lru)
    && (forall id :: id in slots <==> id in lru)
    && |lru| <= MAX_CACHED
  }

  /** Every view has the pool's proxy and privacy, and only the active one may be showing. */
  ghost predicate ViewsInv(p: Pool) {
    && (forall id :: id in p.slots && p.slots[id].visible ==> p.active == Some(id))
    && (forall id :: id in p.slots ==> p.slots[id].socksPort == p.socksPort && p.slots[id].privacy == p.privacy)
  }

  /** Everything that holds of a pool at any moment, whatever built or failed to build before. */
  ghost predicate RepInv(p: Pool) {
    && LruInv(p.slots, p.lru)
    && (p.lru != [] ==> p.active == Some(Last(p.lru)))
    && ViewsInv(p)
  }

  lemma EvictStep(slots: map<u32, View>, lru: seq<u32>, keep: u32)
    requires NoDup(lru) && lru != [] && Last(lru) == keep && |lru| > 3
    requires forall id :: id in slots <==> id in lru
    ensures Evicted(slots, lru, keep) == Evicted(slots - {lru[0]}, lru[1..], keep)
    ensures forall id :: id in slots - {lru[0]} <==> id in lru[1..]
  {
    NoDupCard(lru, slots.Keys);
    var v := lru[0];
    assert v != keep;
    assert Victim(lru, keep) == Some(v) by {
      assert Minus(lru, {keep}) == [v] + Minus(lru[1..], {keep});
    }
    assert Minus(lru, {v}) == lru[1..] by {
      MinusNothing(lru[1..], {v});
    }
  }

  lemma EvictStops(slots: map<u32, View>, lru: seq<u32>, keep: u32)
    requires NoDup(lru) && |lru| <= 3 && forall id :: id in slots <==> id in lru
    ensures Evicted(slots, lru, keep) == (slots, lru)
  {
    NoDupCard(lru, slots.Keys);
  }

  /** However many views there are, the loop drops the oldest and leaves the three most recent, untouched. */
  lemma {:induction false} EvictLeavesThree(slots: map<u32, View>, lru: seq<u32>, keep: u32)
    requires NoDup(lru) && lru != [] && Last(lru) == keep
    requires forall id :: id in slots <==> id in lru
    ensures var (s, l) := Evicted(slots, lru, keep);
      && l == LastN(lru, 3)
      && (forall id :: id in s <==> id in l)
      && (forall id :: id in s ==> id in slots && s[id] == slots[id])
    decreases |lru|
  {
    hide Evicted;
    if |lru| <= 3 {
      EvictStops(slots, lru, keep);
    } else {
      EvictStep(slots, lru, keep);
      EvictLeavesThree(slots - {lru[0]}, lru[1..], keep);
    }
  }

  /** The eviction loop, on what `switch_to` hands it, drops the oldest view when there are four, and nothing else. */
  lemma EvictDropsOldest(slots: map<u32, View>, lru: seq<u32>, keep: u32)
    requires NoDup(lru) && lru != [] && Last(lru) == keep && |lru| <= MAX_CACHED + 1
    requires forall id :: id in slots <==> id in lru
    ensures |lru| <= MAX_CACHED ==> Evicted(slots, lru, keep) == (slots, lru)
    ensures |lru| == MAX_CACHED + 1 ==> Evicted(slots, lru, keep) == (slots - {lru[0]}, lru[1..])
  {
    hide Evicted;
    if |lru| == MAX_CACHED + 1 {
      EvictStep(slots, lru, keep);
      EvictStops(slots - {lru[0]}, lru[1..], keep);
    } else {
      EvictStops(slots, lru, keep);
    }
  }

  lemma TouchedNoDup(lru: seq<u32>, id: u32)
    requires NoDup(lru)
    ensures NoDup(Touched(lru, id))
    ensures |Touched(lru, id)| == |lru| + (if id in lru then 0 else 1)
    ensures forall x :: x in Touched(lru, id) <==> x in lru || x == id
  {
    MinusNoDup(lru, {id});
    NoDupSnoc(Minus(lru, {id}), id);
    var all := set x | x in lru;
    NoDupCard(lru, all);
    NoDupCard(Minus(lru, {id}), all - {id});
  }

  /** Switching to a tab whose view has to be built, and is: the oldest of four views goes. */
  lemma BuildEvictsOldest(p: Pool, tab: u32, url: string)
    requires LruInv(p.slots, p.lru) && tab !in p.slots
    ensures var q, t := SwitchTo(p, tab, url, true), Touched(p.lru, tab);
      var added := Hidden(p.slots)[tab := View(p.socksPort, p.privacy, url, true)];
      && q.lru == (if |t| <= MAX_CACHED then t else t[1..])
      && q.slots == (if |t| <= MAX_CACHED then added else added - {t[0]})
  {
    TouchedNoDup(p.lru, tab);
    EvictDropsOldest(
      Hidden(p.slots)[tab := View(p.socksPort, p.privacy, url, true)], Touched(p.lru, tab), tab);
  }

  lemma AfterEviction(slots: map<u32, View>, lru: seq<u32>, keep: u32)
    requires NoDup(lru) && lru != [] && Last(lru) == keep && |lru| <= MAX_CACHED + 1
    requires forall id :: id in slots <==> id in lru
    ensures var (s, l) := Evicted(slots, lru, keep);
      && LruInv(s, l) && l != [] && Last(l) == keep
      && (forall id :: id in s ==> id in slots && s[id] == slots[id])
  {
    EvictDropsOldest(slots, lru, keep);
    if |lru| == MAX_CACHED + 1 {
      DropFirst(lru);
    }
  }

  lemma BuildKeepsRepInv(p: Pool, tab: u32, url: string)
    requires RepInv(p) && tab !in p.slots
    ensures var q := SwitchTo(p, tab, url, true);
      && RepInv(q) && tab in q.slots && q.slots[tab] == View(p.socksPort, p.privacy, url, true)
      && (forall id :: id in q.slots ==> id in p.slots || id == tab)
  {
    TouchedNoDup(p.lru, tab);
    AfterEviction(
      Hidden(p.slots)[tab := View(p.socksPort, p.privacy, url, true)], Touched(p.lru, tab), tab);
  }

  lemma HitMovesToEnd(p: Pool, tab: u32, url: string, built: bool)
    requires RepInv(p) && tab in p.slots
    ensures SwitchTo(p, tab, url, built).lru == Touched(p.lru, tab)
    ensures SwitchTo(p, tab, url, built).slots.Keys == p.slots.Keys
  {
    if p.active == Some(tab) {
      TouchingLast(p.lru, tab);
    }
  }

  lemma TouchedLruInv(before: map<u32, View>, after: map<u32, View>, lru: seq<u32>, tab: u32)
    requires LruInv(before, lru) && tab in before && after.Keys == before.Keys
    ensures LruInv(after, Touched(lru, tab)) && Last(Touched(lru, tab)) == tab
  {
    TouchedNoDup(lru, tab);
    assert forall id :: id in after <==> id in before;
  }

  lemma HitKeepsRepInv(p: Pool, tab: u32, url: string, built: bool)
    requires RepInv(p) && tab in p.slots
    ensures RepInv(SwitchTo(p, tab, url, built))
  {
    HitMovesToEnd(p, tab, url, built);
    TouchedLruInv(p.slots, SwitchTo(p, tab, url, built).slots, p.lru, tab);
  }

  lemma SwitchKeepsRepInv(p: Pool, tab: u32, url: string, built: bool)
    requires RepInv(p)
    ensures var q := SwitchTo(p, tab, url, built);
      && RepInv(q)
      && (SwitchSucceeds(p, tab, built) ==> q.active == Some(tab) && tab in q.slots && q.slots[tab].visible)
      && (!SwitchSucceeds(p, tab, built) ==>
            q.active == p.active && q.lru == p.lru && forall id :: id in q.slots ==> !q.slots[id].visible)
      && (forall id :: id in q.slots ==> id in p.slots || id == tab)
      && q.socksPort == p.socksPort && q.privacy == p.privacy
  {
    if tab in p.slots {
      HitKeepsRepInv(p, tab, url, built);
      HitMovesToEnd(p, tab, url, built);
    } else if built {
      BuildKeepsRepInv(p, tab, url);
    }
  }

  /**
   A switch brings up the tab's address when its view is built, already shows it, or was hidden and the address is one
   of the web; the view of the tab that was active already stays where it is.
   */
  lemma SwitchShowsIff(p: Pool, tab: u32, url: string, built: bool)
    requires RepInv(p) && SwitchSucceeds(p, tab, built)
    ensures var q := SwitchTo(p, tab, url, built);
      && tab in q.slots
      && (q.slots[tab].lastUrl == url
          <==> tab !in p.slots || p.slots[tab].lastUrl == url || (p.active != Some(tab) && IsWebUrl(url)))
  {
    hide IsWebUrl, RepInv;
    if tab !in p.slots {
      BuildKeepsRepInv(p, tab, url);
    }
  }

  lemma CloseKeepsRepInv(p: Pool, gone: set<u32>)
    requires RepInv(p)
    ensures var q := CloseTabs(p, gone);
      && RepInv(q)
      && (forall id :: id in q.slots <==> id in p.slots && id !in gone)
      && (HasActiveView(p) && p.active.value in gone && q.slots != map[] ==>
            HasActiveView(q) && q.slots[q.active.value].visible)
      && q.socksPort == p.socksPort && q.privacy == p.privacy
  {
    MinusNoDup(p.lru, gone);
    if p.lru != [] && Last(p.lru) !in gone {
      MinusLast(p.lru, gone);
    }
  }

  /** Closing stale tabs one by one, in whatever order the hash map yields them, is closing them all at once. */
  lemma CloseOneMore(p: Pool, gone: set<u32>, x: u32)
    requires RepInv(p)
    ensures CloseTabs(CloseTabs(p, gone), {x}) == CloseTabs(p, gone + {x})
  {
    MinusTwice(p.lru, gone, {x});
    var q := CloseTabs(p, gone);
    var all := gone + {x};
    var left := Minus(p.lru, all);
    assert p.slots - gone - {x} == p.slots - all;
    if p.active.Some? && p.active.value in gone {
      CloseAfterPromotion(p, gone, x);
    } else {
      assert q.lru == Minus(p.lru, gone);
      assert q.slots == p.slots - gone;
    }
  }

  lemma ShownThenClosed(slots: map<u32, View>, gone: set<u32>, id: u32, x: u32)
    ensures Shown(slots - gone, id) - {x} == if id == x then slots - (gone + {x}) else Shown(slots - (gone + {x}), id)
  {
  }

  lemma CloseAfterPromotion(p: Pool, gone: set<u32>, x: u32)
    requires RepInv(p) && p.active.Some? && p.active.value in gone
    requires Minus(Minus(p.lru, gone), {x}) == Minus(p.lru, gone + {x})
    ensures CloseTabs(CloseTabs(p, gone), {x}) == CloseTabs(p, gone + {x})
  {
    var lru := Minus(p.lru, gone);
    if lru == [] {
      assert p.slots - gone - {x} == p.slots - (gone + {x});
    } else if Last(lru) == x {
      ShownThenClosed(p.slots, gone, x, x);
    } else {
      MinusLast(lru, {x});
      ShownThenClosed(p.slots, gone, Last(lru), x);
    }
  }

  lemma RebuildKeepsRepInv(p: Pool, socks: Option<u16>, privacy: PrivacyState, url: string, tab: u32, built: bool)
    ensures var q := RebuildAll(p, socks, privacy, url, tab, built);
      RepInv(q) && q.socksPort == socks && q.privacy == privacy
  {
  }

  // ---------------------------------------------------------------------------------------------------------------
  // Whole runs
  // ---------------------------------------------------------------------------------------------------------------

  datatype Op =
    | Switch(tab: u32, url: string, built: bool)
    | Close(tab: u32)
    | Rebuild(socks: Option<u16>, privacy: PrivacyState, url: string, tab: u32, built: bool)
    | Load(url: string)

  function Apply(p: Pool, op: Op): Pool {
    match op
    case Switch(tab, url, built) => SwitchTo(p, tab, url, built)
    case Close(tab) => CloseTabs(p, {tab})
    case Rebuild(socks, privacy, url, tab, built) => RebuildAll(p, socks, privacy, url, tab, built)
    case Load(url) => SetActiveUrl(p, url)
  }

  function Run(p: Pool, ops: seq<Op>): Pool {
    if ops == [] then p else Apply(Run(p, ops[..|ops| - 1]), ops[|ops| - 1])
  }

  lemma ApplyKeepsRepInv(p: Pool, op: Op)
    requires RepInv(p)
    ensures RepInv(Apply(p, op))
  {
    match op
    case Switch(tab, url, built) => SwitchKeepsRepInv(p, tab, url, built);
    case Close(tab) => CloseKeepsRepInv(p, {tab});
    case Rebuild(socks, privacy, url, tab, built) => RebuildKeepsRepInv(p, socks, privacy, url, tab, built);
    case Load(_) =>
  }

  /** The representation invariant in every reachable state of the pool, after failed builds too. */
  lemma {:induction false} RepInvAlways(initial: View, tab: u32, ops: seq<Op>)
    ensures RepInv(Run(NewPool(initial, tab), ops))
  {
    if ops != [] {
      RepInvAlways(initial, tab, ops[..|ops| - 1]);
      ApplyKeepsRepInv(Run(NewPool(initial, tab), ops[..|ops| - 1]), ops[|ops| - 1]);
    }
  }

  lemma AtMostThreeViews(initial: View, tab: u32, ops: seq<Op>)
    ensures |Run(NewPool(initial, tab), ops).slots| <= 3
  {
    RepInvAlways(initial, tab, ops);
    var p := Run(NewPool(initial, tab), ops);
    NoDupCard(p.lru, p.slots.Keys);
  }

  /** The pool's proxy is not the wanted one exactly when no cached view has that, nor any a switch brings up. */
  lemma NeedsProxyIff(p: Pool, want: Option<u16>, tab: u32, url: string)
    requires RepInv(p)
    ensures var q := SwitchTo(p, tab, url, true);
      tab in q.slots && (p.socksPort != want <==> q.slots[tab].socksPort != want)
    ensures forall id :: id in p.slots ==> (p.socksPort != want <==> p.slots[id].socksPort != want)
  {
    SwitchKeepsRepInv(p, tab, url, true);
  }

  /** The active id names no view exactly when the cache is empty: after a failed rebuild, or once all tabs closed. */
  lemma DanglingExactlyWhenEmpty(p: Pool)
    requires RepInv(p)
    ensures HasActiveView(p) <==> p.slots != map[]
  {
    if p.lru != [] {
      assert Last(p.lru) in p.slots;
    } else {
      assert p.slots == map[];
    }
  }

  /** The list of tabs by recency that a cache of unlimited size would keep. */
  function Recency(r: seq<u32>, p: Pool, op: Op): seq<u32> {
    match op
    case Switch(tab, _, built) => if SwitchSucceeds(p, tab, built) then Touched(r, tab) else r
    case Close(tab) => Minus(r, {tab})
    case Rebuild(_, _, _, tab, built) => if built then [tab] else []
    case Load(_) => r
  }

  function RunRecency(p: Pool, tab: u32, ops: seq<Op>): seq<u32> {
    if ops == [] then [tab]
    else
      var before := ops[..|ops| - 1];
      Recency(RunRecency(p, tab, before), Run(p, before), ops[|ops| - 1])
  }

  lemma TouchedSuffix(a: seq<u32>, b: seq<u32>, id: u32)
    requires IsSuffix(a, b)
    ensures IsSuffix(Touched(a, id), Touched(b, id))
  {
    MinusSuffix(a, b, {id});
    var x, y := Minus(a, {id}), Minus(b, {id});
    assert (y + [id])[|y| - |x|..] == y[|y| - |x|..] + [id];
  }

  lemma SuffixOfSuffix(a: seq<u32>, b: seq<u32>)
    requires a != [] && IsSuffix(a, b)
    ensures IsSuffix(a[1..], b)
  {
  }

  lemma TouchingLast(s: seq<u32>, id: u32)
    requires NoDup(s) && s != [] && Last(s) == id
    ensures Touched(s, id) == s
  {
    var front := s[..|s| - 1];
    assert s == front + [id];
    NoDupSnoc(front, id);
    MinusAppend(front, [id], {id});
    MinusNothing(front, {id});
  }

  lemma SwitchFollowsRecency(p: Pool, r: seq<u32>, tab: u32, url: string, built: bool)
    requires RepInv(p) && NoDup(r) && IsSuffix(p.lru, r) && SwitchSucceeds(p, tab, built)
    ensures NoDup(Touched(r, tab)) && IsSuffix(SwitchTo(p, tab, url, built).lru, Touched(r, tab))
  {
    TouchedNoDup(r, tab);
    TouchedSuffix(p.lru, r, tab);
    if tab in p.slots {
      HitMovesToEnd(p, tab, url, built);
    } else {
      BuildEvictsOldest(p, tab, url);
      SuffixOfSuffix(Touched(p.lru, tab), Touched(r, tab));
    }
  }

  lemma CloseFollowsRecency(p: Pool, r: seq<u32>, tab: u32)
    requires NoDup(r) && IsSuffix(p.lru, r)
    ensures NoDup(Minus(r, {tab})) && IsSuffix(CloseTabs(p, {tab}).lru, Minus(r, {tab}))
  {
    MinusSuffix(p.lru, r, {tab});
    MinusNoDup(r, {tab});
  }

  lemma RebuildFollowsRecency(p: Pool, op: Op)
    requires op.Rebuild?
    ensures NoDup(Recency([], p, op)) && Apply(p, op).lru == Recency([], p, op)
  {
    NoDupSnoc([], op.tab);
    assert [] + [op.tab] == [op.tab];
  }

  lemma StepFollowsRecency(p: Pool, r: seq<u32>, op: Op)
    requires RepInv(p) && NoDup(r) && IsSuffix(p.lru, r)
    ensures NoDup(Recency(r, p, op)) && IsSuffix(Apply(p, op).lru, Recency(r, p, op))
  {
    match op
    case Switch(tab, url, built) =>
      if SwitchSucceeds(p, tab, built) {
        SwitchFollowsRecency(p, r, tab, url, built);
      }
    case Close(tab) => CloseFollowsRecency(p, r, tab);
    case Rebuild(_, _, _, _, _) => RebuildFollowsRecency(p, op);
    case Load(_) =>
  }

  /** In every run the cache holds the most recent end of the unlimited recency list, failed builds included. */
  lemma {:induction false} CacheIsRecentSuffix(initial: View, tab: u32, ops: seq<Op>)
    ensures var p := NewPool(initial, tab);
      NoDup(RunRecency(p, tab, ops)) && IsSuffix(Run(p, ops).lru, RunRecency(p, tab, ops))
  {
    var p := NewPool(initial, tab);
    if ops != [] {
      var before := ops[..|ops| - 1];
      CacheIsRecentSuffix(initial, tab, before);
      RepInvAlways(initial, tab, before);
      StepFollowsRecency(Run(p, before), RunRecency(p, tab, before), ops[|ops| - 1]);
    }
  }

  /** The operation brought up this tab: a switch to it or a rebuild on it that returned a view. */
  predicate BringsUp(p: Pool, op: Op, x: u32) {
    match op
    case Switch(tab, _, built) => tab == x && SwitchSucceeds(p, tab, built)
    case Rebuild(_, _, _, tab, built) => tab == x && built
    case _ => false
  }

  /** The tab is on the recency list with fewer than three others behind it. */
  predicate Recently(r: seq<u32>, x: u32) {
    x in r && Behind(r, x) < 3
  }

  lemma InLastThree(t: seq<u32>, x: u32)
    requires NoDup(t)
    ensures x in LastN(t, 3) <==> Recently(t, x)
  {
    if x in t {
      var k: nat :| k < |t| && t[k] == x;
      BehindAt(t, k);
      InTail(t, k, 3);
    }
  }

  /** A view stays cached over a build exactly while its tab is among the three most recent. */
  lemma BuildKeepsIff(p: Pool, r: seq<u32>, tab: u32, url: string, x: u32)
    requires RepInv(p) && NoDup(r) && IsSuffix(p.lru, r) && tab !in p.slots && x != tab
    ensures x in SwitchTo(p, tab, url, true).slots <==> x in p.slots && Recently(Touched(r, tab), x)
  {
    hide RepInv, SwitchTo, Touched, Recently;
    var t, q := Touched(p.lru, tab), SwitchTo(p, tab, url, true);
    SwitchKeepsRepInv(p, tab, url, true);
    BuiltLru(p, tab, url);
    LruOfRep(p, x);
    LruOfRep(q, x);
    TouchedNoDup(p.lru, tab);
    TouchedNoDup(r, tab);
    TouchedSuffix(p.lru, r, tab);
    InLastThree(t, x);
    if x in t {
      RecentlyInSuffix(t, Touched(r, tab), x);
    }
  }

  lemma RecentlyInSuffix(a: seq<u32>, b: seq<u32>, x: u32)
    requires NoDup(a) && NoDup(b) && IsSuffix(a, b) && x in a
    ensures Recently(a, x) <==> Recently(b, x)
  {
    BehindInSuffix(a, b, x);
  }

  lemma BuiltLru(p: Pool, tab: u32, url: string)
    requires RepInv(p) && tab !in p.slots
    ensures SwitchTo(p, tab, url, true).lru == LastN(Touched(p.lru, tab), 3)
  {
    BuildEvictsOldest(p, tab, url);
    TouchedNoDup(p.lru, tab);
  }

  lemma LruOfRep(p: Pool, x: u32)
    requires RepInv(p)
    ensures x in p.slots <==> x in p.lru
    ensures NoDup(p.lru) && |p.lru| <= 3
  {
  }

  /** What is cached after an operation is recent, on the list that the operation leaves. */
  lemma CachedIsRecent(p: Pool, r: seq<u32>, op: Op, x: u32)
    requires RepInv(p) && NoDup(r) && IsSuffix(p.lru, r)
    ensures x in Apply(p, op).slots ==> Recently(Recency(r, p, op), x)
  {
    hide RepInv, Apply, Recency, Behind;
    var q := Apply(p, op);
    StepFollowsRecency(p, r, op);
    ApplyKeepsRepInv(p, op);
    LruOfRep(q, x);
    if x in q.slots {
      BehindInSuffix(q.lru, Recency(r, p, op), x);
    }
  }

  lemma SwitchCachedIff(p: Pool, r: seq<u32>, tab: u32, url: string, built: bool, x: u32)
    requires RepInv(p) && NoDup(r) && IsSuffix(p.lru, r)
    requires x in SwitchTo(p, tab, url, built).slots ==>
               Recently(if SwitchSucceeds(p, tab, built) then Touched(r, tab) else r, x)
    ensures x in SwitchTo(p, tab, url, built).slots <==>
            || (tab == x && SwitchSucceeds(p, tab, built))
            || (x in p.slots && Recently(if SwitchSucceeds(p, tab, built) then Touched(r, tab) else r, x))
  {
    hide RepInv, SwitchTo, Recently, Touched;
    SwitchKeepsRepInv(p, tab, url, built);
    LruOfRep(p, x);
    LruOfRep(SwitchTo(p, tab, url, built), x);
    if tab in p.slots {
      HitMovesToEnd(p, tab, url, built);
    } else if built && x != tab {
      BuildKeepsIff(p, r, tab, url, x);
    }
  }

  lemma CloseCachedIff(p: Pool, r: seq<u32>, tab: u32, x: u32)
    requires RepInv(p)
    requires x in CloseTabs(p, {tab}).slots ==> Recently(Minus(r, {tab}), x)
    ensures x in CloseTabs(p, {tab}).slots <==> x in p.slots && Recently(Minus(r, {tab}), x)
  {
    hide RepInv, CloseTabs, Behind;
    CloseKeepsRepInv(p, {tab});
  }

  /** One operation: a tab is cached after it if it was brought up, or if it was cached and is still recent. */
  lemma StepCachedIff(p: Pool, r: seq<u32>, op: Op, x: u32)
    requires RepInv(p) && NoDup(r) && IsSuffix(p.lru, r)
    ensures x in Apply(p, op).slots <==> BringsUp(p, op, x) || (x in p.slots && Recently(Recency(r, p, op), x))
  {
    hide RepInv, SwitchTo, CloseTabs, SwitchSucceeds, Behind, Touched;
    CachedIsRecent(p, r, op, x);
    match op
    case Switch(tab, url, built) => SwitchCachedIff(p, r, tab, url, built, x);
    case Close(tab) => CloseCachedIff(p, r, tab, x);
    case _ =>
  }

  /** Brought up by operation `i`, or there from the start when `i` is 0, and among the three most recent ever since. */
  ghost predicate RecentSince(initial: View, tab: u32, ops: seq<Op>, i: nat, x: u32)
    requires i <= |ops|
  {
    var p := NewPool(initial, tab);
    && (if i == 0 then x == tab else BringsUp(Run(p, ops[..i - 1]), ops[i - 1], x))
    && forall j :: i <= j <= |ops| ==> Recently(RunRecency(p, tab, ops[..j]), x)
  }

  lemma RecentSinceSnoc(initial: View, tab: u32, ops: seq<Op>, op: Op, i: nat, x: u32)
    requires i <= |ops|
    ensures RecentSince(initial, tab, ops + [op], i, x) <==>
            RecentSince(initial, tab, ops, i, x)
            && Recently(RunRecency(NewPool(initial, tab), tab, ops + [op]), x)
  {
    var all, p := ops + [op], NewPool(initial, tab);
    hide BringsUp, Recently, RunRecency, Run;
    assert all[..|all|] == all;
    assert forall j :: 0 <= j <= |ops| ==> all[..j] == ops[..j];
    if RecentSince(initial, tab, all, i, x) {
      forall j | i <= j <= |ops| ensures Recently(RunRecency(p, tab, ops[..j]), x) {
        assert Recently(RunRecency(p, tab, all[..j]), x);
      }
      assert Recently(RunRecency(p, tab, all[..|all|]), x);
    }
  }

  lemma CachedAtStart(initial: View, tab: u32, x: u32)
    ensures x in Run(NewPool(initial, tab), []).slots <==> RecentSince(initial, tab, [], 0, x)
  {
    assert [tab] == [x] ==> Recently([tab], x);
  }

  /** With one operation more: brought up by it, or recent since some moment before it and still recent. */
  lemma SomeMomentSnoc(initial: View, tab: u32, ops: seq<Op>, op: Op, x: u32)
    ensures (exists i: nat :: i <= |ops + [op]| && RecentSince(initial, tab, ops + [op], i, x))
            <==> || BringsUp(Run(NewPool(initial, tab), ops), op, x)
                 || (&& (exists i: nat :: i <= |ops| && RecentSince(initial, tab, ops, i, x))
                     && Recently(RunRecency(NewPool(initial, tab), tab, ops + [op]), x))
  {
    hide RecentSince, Recently, BringsUp, Run, RunRecency, NewPool;
    BroughtUpLast(initial, tab, ops, op, x);
    forall i: nat | i <= |ops|
      ensures RecentSince(initial, tab, ops + [op], i, x) <==>
              RecentSince(initial, tab, ops, i, x) && Recently(RunRecency(NewPool(initial, tab), tab, ops + [op]), x)
    {
      RecentSinceSnoc(initial, tab, ops, op, i, x);
    }
  }

  lemma RunSnoc(p: Pool, ops: seq<Op>, op: Op)
    ensures Run(p, ops + [op]) == Apply(Run(p, ops), op)
  {
    hide Apply;
    assert (ops + [op])[..|ops|] == ops;
  }

  /**
   Over any run with closes, rebuilds and failed builds, exactly those tabs have a live view that were brought up at
   some moment and have had fewer than three others behind them on the unlimited recency list at every moment since.
   */
  lemma {:induction false} CachedIffRecentSince(initial: View, tab: u32, ops: seq<Op>, x: u32)
    ensures x in Run(NewPool(initial, tab), ops).slots
            <==> exists i: nat :: i <= |ops| && RecentSince(initial, tab, ops, i, x)
  {
    hide RecentSince, Recently, BringsUp, Run, RunRecency, NewPool, Apply, Recency, RepInv, IsSuffix;
    if ops == [] {
      CachedAtStart(initial, tab, x);
    } else {
      var p, front, op := NewPool(initial, tab), ops[..|ops| - 1], ops[|ops| - 1];
      assert ops == front + [op];
      CachedIffRecentSince(initial, tab, front, x);
      RepInvAlways(initial, tab, front);
      CacheIsRecentSuffix(initial, tab, front);
      StepCachedIff(Run(p, front), RunRecency(p, tab, front), op, x);
      RunSnoc(p, front, op);
      RunRecencySnoc(p, tab, front, op);
      SomeMomentSnoc(initial, tab, front, op, x);
    }
  }

  lemma BringsToTheEnd(p: Pool, r: seq<u32>, op: Op, x: u32)
    requires BringsUp(p, op, x) && NoDup(Recency(r, p, op))
    ensures Recently(Recency(r, p, op), x)
  {
    var s := Recency(r, p, op);
    assert s != [] && s[|s| - 1] == x;
    BehindAt(s, |s| - 1);
  }

  lemma RunRecencySnoc(p: Pool, tab: u32, ops: seq<Op>, op: Op)
    ensures RunRecency(p, tab, ops + [op]) == Recency(RunRecency(p, tab, ops), Run(p, ops), op)
  {
    hide Recency, Run;
    assert (ops + [op])[..|ops|] == ops;
  }

  lemma BroughtUpIsRecent(initial: View, tab: u32, ops: seq<Op>, op: Op, x: u32)
    requires BringsUp(Run(NewPool(initial, tab), ops), op, x)
    ensures Recently(RunRecency(NewPool(initial, tab), tab, ops + [op]), x)
  {
    hide Recently, BringsUp, Run, RunRecency, Recency, NewPool, IsSuffix;
    var p := NewPool(initial, tab);
    CacheIsRecentSuffix(initial, tab, ops + [op]);
    RunRecencySnoc(p, tab, ops, op);
    BringsToTheEnd(Run(p, ops), RunRecency(p, tab, ops), op, x);
  }

  lemma RecentSinceLast(initial: View, tab: u32, ops: seq<Op>, x: u32)
    requires ops != []
    ensures var p := NewPool(initial, tab);
      RecentSince(initial, tab, ops, |ops|, x) <==>
      BringsUp(Run(p, ops[..|ops| - 1]), ops[|ops| - 1], x) && Recently(RunRecency(p, tab, ops), x)
  {
    hide Recently, BringsUp, Run, RunRecency, NewPool;
    assert ops[..|ops|] == ops;
  }

  lemma BroughtUpLast(initial: View, tab: u32, ops: seq<Op>, op: Op, x: u32)
    ensures RecentSince(initial, tab, ops + [op], |ops| + 1, x) <==> BringsUp(Run(NewPool(initial, tab), ops), op, x)
  {
    hide Recently, BringsUp, Run, RunRecency, NewPool, RecentSince;
    var all := ops + [op];
    assert all[..|ops|] == ops && all[|ops|] == op;
    RecentSinceLast(initial, tab, all, x);
    if BringsUp(Run(NewPool(initial, tab), ops), op, x) {
      BroughtUpIsRecent(initial, tab, ops, op, x);
    }
  }

  // ---------------------------------------------------------------------------------------------------------------
  // Switch-only runs: which tabs are cached, in terms of the visits alone
  // ---------------------------------------------------------------------------------------------------------------

  /** The tabs visited after the last visit of `x`. */
  ghost function Since(visits: seq<u32>, x: u32): set<u32> {
    if visits == [] || Last(visits) == x then {}
    else Since(visits[..|visits| - 1], x) + {Last(visits)}
  }

  /** The pool after visiting `visits[1..]` in turn, having started on `visits[0]`; every build succeeds. */
  function Visit(initial: View, visits: seq<u32>, urls: seq<string>): Pool
    requires visits != [] && |urls| == |visits|
    decreases |visits|
  {
    if |visits| == 1 then NewPool(initial, visits[0])
    else
      var n := |visits| - 1;
      SwitchTo(Visit(initial, visits[..n], urls[..n]), visits[n], urls[n], true)
  }

  function Recent(visits: seq<u32>): seq<u32> {
    if visits == [] then [] else Touched(Recent(visits[..|visits| - 1]), Last(visits))
  }

  lemma {:induction false} RecentIsNoDup(visits: seq<u32>)
    ensures NoDup(Recent(visits))
    ensures forall x :: x in Recent(visits) <==> x in visits
  {
    if visits != [] {
      var before := visits[..|visits| - 1];
      RecentIsNoDup(before);
      TouchedNoDup(Recent(before), Last(visits));
      assert visits == before + [Last(visits)];
    }
  }

  /** What stands behind a tab in the recency list is what was visited since. */
  lemma {:induction false} SinceIsBehind(visits: seq<u32>, a: seq<u32>, z: u32, b: seq<u32>)
    requires Recent(visits) == a + [z] + b
    ensures forall y :: y in Since(visits, z) <==> y in b
  {
    var before, x := visits[..|visits| - 1], Last(visits);
    var rest := Minus(Recent(before), {x});
    if b == [] {
      assert a + [z] + b == a + [z];
      SnocSplit(rest, x, a, [z]);
    } else {
      var b' := b[..|b| - 1];
      SnocSplit(rest, x, a + [z], b);
      FrontLast(b);
      assert (a + [z] + b')[|a|] == z;
      assert z in rest;
      var pre, post := MinusSplit(Recent(before), {x}, a, z, b');
      SinceIsBehind(before, pre, z, post);
    }
  }

  lemma SinceCount(visits: seq<u32>, k: nat)
    requires k < |Recent(visits)|
    ensures |Since(visits, Recent(visits)[k])| == |Recent(visits)| - 1 - k
  {
    var r := Recent(visits);
    RecentIsNoDup(visits);
    assert r == r[..k] + [r[k]] + r[k + 1..];
    SinceIsBehind(visits, r[..k], r[k], r[k + 1..]);
    NoDupAppend(r[..k] + [r[k]], r[k + 1..]);
    NoDupCard(r[k + 1..], Since(visits, r[k]));
  }

  lemma {:induction false} VisitKeepsRecentThree(initial: View, visits: seq<u32>, urls: seq<string>)
    requires visits != [] && |urls| == |visits|
    ensures var p, r := Visit(initial, visits, urls), Recent(visits);
      && RepInv(p)
      && p.lru == LastN(r, 3)
    decreases |visits|
  {
    if |visits| == 1 {
      assert visits[..0] == [];
      assert Touched([], visits[0]) == [visits[0]];
    } else {
      var n := |visits| - 1;
      var before := visits[..n];
      var p := Visit(initial, before, urls[..n]);
      VisitKeepsRecentThree(initial, before, urls[..n]);
      SwitchKeepsRepInv(p, visits[n], urls[n], true);
      RecentIsNoDup(before);
      VisitStep(p, Recent(before), visits[n], urls[n]);
    }
  }

  lemma VisitStep(p: Pool, r: seq<u32>, tab: u32, url: string)
    requires RepInv(p) && NoDup(r) && r != []
    requires p.lru == LastN(r, 3)
    ensures SwitchTo(p, tab, url, true).lru == LastN(Touched(r, tab), 3)
  {
    TouchedNoDup(r, tab);
    TouchedNoDup(p.lru, tab);
    SwitchFollowsRecency(p, r, tab, url, true);
    if tab in p.slots {
      HitMovesToEnd(p, tab, url, true);
    } else {
      BuildEvictsOldest(p, tab, url);
    }
    SuffixIsLastN(SwitchTo(p, tab, url, true).lru, Touched(r, tab), 3);
  }

  /**
   When every build succeeds, a tab has a live view exactly when it was visited and fewer than three other tabs were
   visited since. So a further visit builds a view exactly when the tab is new or at least three others intervened.
   */
  lemma CachedIffFewSince(initial: View, visits: seq<u32>, urls: seq<string>, x: u32)
    requires visits != [] && |urls| == |visits|
    ensures x in Visit(initial, visits, urls).slots <==> x in visits && |Since(visits, x)| < 3
  {
    VisitKeepsRecentThree(initial, visits, urls);
    RecentIsNoDup(visits);
    var p, r := Visit(initial, visits, urls), Recent(visits);
    if x in visits {
      var k :| 0 <= k < |r| && r[k] == x;
      SinceCount(visits, k);
      InTail(r, k, 3);
    }
  }
}
