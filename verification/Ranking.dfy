/**
 How Horus ranks: the results of all sources are sorted stably by score, best first, then by title; of neighbours with
 the same address the first is kept; the list is cut at forty.
 */
module Ranking {
  import Utf8

  datatype Badge = Clearnet | Onion | Ipfs | Local

  datatype SearchResult = SearchResult(title: string, url: string, description: string, verified: bool, badge: Badge)

  const CAP := 40

  function Score(r: SearchResult): nat {
    (if r.verified then 2 else 0) + (if r.badge == Onion then 1 else 0) + (if r.badge == Local then 3 else 0)
  }

  /** Order of text by its characters, a proper prefix coming first. */
  predicate TextLess(a: string, b: string) {
    b != "" && (a == "" || a[0] < b[0] || (a[0] == b[0] && TextLess(a[1..], b[1..])))
  }

  /** `a` ranks strictly before `b`. */
  predicate Better(a: SearchResult, b: SearchResult) {
    Score(a) > Score(b) || (Score(a) == Score(b) && TextLess(a.title, b.title))
  }

  predicate Tied(a: SearchResult, b: SearchResult) {
    Score(a) == Score(b) && a.title == b.title
  }

  /** `a` comes first in the dictionary: at the first difference its character is the smaller, or it ends there. */
  ghost predicate FirstInDictionary(a: string, b: string) {
    exists k: nat :: DiffersAt(a, b, k)
  }

  predicate DiffersAt(a: string, b: string, k: nat) {
    && k <= |a| && k <= |b| && a[..k] == b[..k]
    && (if k < |a| then k < |b| && a[k] < b[k] else k < |b|)
  }

  lemma {:induction false} TextLessIff(a: string, b: string)
    ensures TextLess(a, b) <==> FirstInDictionary(a, b)
  {
    if TextLess(a, b) {
      if a == "" || a[0] < b[0] {
        assert DiffersAt(a, b, 0);
      } else {
        TextLessIff(a[1..], b[1..]);
        var k: nat :| DiffersAt(a[1..], b[1..], k);
        assert a[..k + 1] == [a[0]] + a[1..][..k] && b[..k + 1] == [b[0]] + b[1..][..k];
        assert DiffersAt(a, b, k + 1);
      }
    }
    forall k: nat | DiffersAt(a, b, k) ensures TextLess(a, b) {
      if k > 0 {
        assert a[0] == a[..k][0] == b[..k][0] == b[0];
        assert a[1..][..k - 1] == a[..k][1..] && b[1..][..k - 1] == b[..k][1..];
        assert DiffersAt(a[1..], b[1..], k - 1);
        TextLessIff(a[1..], b[1..]);
      }
    }
  }

  /** Comparing titles by their bytes, as the program does, is comparing them by their characters. */
  lemma {:induction false} TextOrderIsByteOrder(a: string, b: string)
    ensures TextLess(a, b) <==> Utf8.BytesLess(Utf8.Encode(a), Utf8.Encode(b))
  {
    if a == "" || b == "" {
      Utf8.EncodeEmpty();
      Utf8.EncodeNoShorter(b);
    } else {
      TextOrderIsByteOrder(a[1..], b[1..]);
      HeadsDecide(a, b);
    }
  }

  lemma HeadsDecide(a: string, b: string)
    requires a != "" && b != ""
    requires TextLess(a[1..], b[1..]) <==> Utf8.BytesLess(Utf8.Encode(a[1..]), Utf8.Encode(b[1..]))
    ensures TextLess(a, b) <==> Utf8.BytesLess(Utf8.Encode(a), Utf8.Encode(b))
  {
    var x, y := Utf8.Encode(a[1..]), Utf8.Encode(b[1..]);
    assert Utf8.Encode(a) == Utf8.EncodeChar(a[0]) + x && Utf8.Encode(b) == Utf8.EncodeChar(b[0]) + y;
    hide Utf8.Encode, Utf8.EncodeChar, Utf8.BytesLess;
    if a[0] < b[0] {
      Utf8.BytesFollowChars(a[0], b[0], x, y);
    } else if b[0] < a[0] {
      Utf8.BytesFollowChars(b[0], a[0], y, x);
    } else {
      Utf8.BytesLessBehind(Utf8.EncodeChar(a[0]), x, y);
    }
  }

  /** Where a kind of result stands: verified local ones first, then other local and verified onion ones together. */
  function Tier(r: SearchResult): nat {
    if r.badge == Local && r.verified then 0
    else if r.badge == Local || (r.badge == Onion && r.verified) then 1
    else if r.verified then 2
    else if r.badge == Onion then 3
    else 4
  }

  lemma TiersRank(a: SearchResult, b: SearchResult)
    ensures Better(a, b) <==> Tier(a) < Tier(b) || (Tier(a) == Tier(b) && TextLess(a.title, b.title))
  {
    hide TextLess;
  }

  lemma {:induction false} TextTotal(a: string, b: string)
    ensures a == b || TextLess(a, b) || TextLess(b, a)
    ensures !(TextLess(a, b) && TextLess(b, a)) && !TextLess(a, a)
  {
    if a != "" && b != "" {
      TextTotal(a[1..], b[1..]);
      TextTotal(a[1..], a[1..]);
      assert a == [a[0]] + a[1..] && b == [b[0]] + b[1..];
    } else if a != "" {
      TextTotal(a[1..], a[1..]);
    }
  }

  lemma {:induction false} TextTransitive(a: string, b: string, c: string)
    requires TextLess(a, b) && TextLess(b, c)
    ensures TextLess(a, c)
  {
    if a != "" && a[0] == b[0] && b[0] == c[0] {
      TextTransitive(a[1..], b[1..], c[1..]);
    }
  }

  lemma BetterTransitive(a: SearchResult, b: SearchResult, c: SearchResult)
    requires Better(a, b) && Better(b, c)
    ensures Better(a, c)
  {
    if Score(a) == Score(b) == Score(c) {
      TextTransitive(a.title, b.title, c.title);
    }
  }

  // ---------------------------------------------------------------------------------------------------------------
  // The stable sort: an order on the places of the input
  // ---------------------------------------------------------------------------------------------------------------

  /** The result at place `i` comes out before the one at place `j`: it is better, or it ties and came in first. */
  predicate Before(xs: seq<SearchResult>, i: nat, j: nat)
    requires i < |xs| && j < |xs|
  {
    Better(xs[i], xs[j]) || (Tied(xs[i], xs[j]) && i < j)
  }

  lemma BeforeTotal(xs: seq<SearchResult>, i: nat, j: nat)
    requires i < |xs| && j < |xs|
    ensures i == j || Before(xs, i, j) || Before(xs, j, i)
    ensures !(Before(xs, i, j) && Before(xs, j, i)) && !Before(xs, i, i)
  {
    TextTotal(xs[i].title, xs[j].title);
    TextTotal(xs[i].title, xs[i].title);
  }

  lemma BeforeTransitive(xs: seq<SearchResult>, i: nat, j: nat, k: nat)
    requires i < |xs| && j < |xs| && k < |xs| && Before(xs, i, j) && Before(xs, j, k)
    ensures Before(xs, i, k)
  {
    if Better(xs[i], xs[j]) && Better(xs[j], xs[k]) {
      BetterTransitive(xs[i], xs[j], xs[k]);
    }
  }

  predicate InRange(xs: seq<SearchResult>, p: seq<nat>) {
    forall k :: 0 <= k < |p| ==> p[k] < |xs|
  }

  ghost predicate Chain(xs: seq<SearchResult>, p: seq<nat>) {
    && InRange(xs, p)
    && (p == [] || ((forall j :: j in p[1..] ==> Before(xs, p[0], j)) && Chain(xs, p[1..])))
  }

  /** `p` lists all places of `xs` in the order in which a stable sort puts them out. */
  ghost predicate StableOrder(xs: seq<SearchResult>, p: seq<nat>) {
    Chain(xs, p) && forall i: nat :: i in p <==> i < |xs|
  }

  function At(xs: seq<SearchResult>, p: seq<nat>): (ys: seq<SearchResult>)
    requires InRange(xs, p)
    ensures |ys| == |p| && forall k :: 0 <= k < |p| ==> ys[k] == xs[p[k]]
  {
    if p == [] then [] else [xs[p[0]]] + At(xs, p[1..])
  }

  /** There is only one stable order, so whatever algorithm sorts stably, the result is the same. */
  lemma {:induction false} ChainUnique(xs: seq<SearchResult>, p: seq<nat>, q: seq<nat>)
    requires Chain(xs, p) && Chain(xs, q) && forall i :: i in p <==> i in q
    ensures p == q
  {
    assert (p != [] ==> p[0] in p) && (q != [] ==> q[0] in q);
    if p != [] && q != [] {
      assert forall i :: i in p <==> i == p[0] || i in p[1..];
      assert forall i :: i in q <==> i == q[0] || i in q[1..];
      BeforeTotal(xs, p[0], q[0]);
      BeforeTotal(xs, p[0], p[0]);
      BeforeTotal(xs, q[0], q[0]);
      assert p[0] == q[0];
      ChainUnique(xs, p[1..], q[1..]);
    }
  }

  function InsertPlace(xs: seq<SearchResult>, i: nat, p: seq<nat>): (r: seq<nat>)
    requires i < |xs| && InRange(xs, p)
    ensures forall j :: j in r <==> j == i || j in p
    ensures InRange(xs, r)
  {
    if p == [] then [i]
    else
      assert forall j :: j in p <==> j == p[0] || j in p[1..];
      if Before(xs, i, p[0]) then [i] + p else [p[0]] + InsertPlace(xs, i, p[1..])
  }

  /** The order of the first `n` places. */
  function SortPlaces(xs: seq<SearchResult>, n: nat): (r: seq<nat>)
    requires n <= |xs|
    ensures forall j: nat :: j in r <==> j < n
    ensures InRange(xs, r)
  {
    if n == 0 then [] else InsertPlace(xs, n - 1, SortPlaces(xs, n - 1))
  }

  lemma {:induction false} InsertKeepsChain(xs: seq<SearchResult>, i: nat, p: seq<nat>)
    requires i < |xs| && Chain(xs, p) && i !in p
    ensures Chain(xs, InsertPlace(xs, i, p))
  {
    if p != [] {
      assert forall j :: j in p <==> j == p[0] || j in p[1..];
      var r := InsertPlace(xs, i, p);
      BeforeTotal(xs, i, p[0]);
      if Before(xs, i, p[0]) {
        assert r[1..] == p;
        forall j | j in p ensures Before(xs, i, j) {
          if j != p[0] {
            BeforeTransitive(xs, i, p[0], j);
          }
        }
      } else {
        assert r[1..] == InsertPlace(xs, i, p[1..]);
        InsertKeepsChain(xs, i, p[1..]);
      }
    }
  }

  lemma {:induction false} SortPlacesIsChain(xs: seq<SearchResult>, n: nat)
    requires n <= |xs|
    ensures Chain(xs, SortPlaces(xs, n))
  {
    if n > 0 {
      SortPlacesIsChain(xs, n - 1);
      InsertKeepsChain(xs, n - 1, SortPlaces(xs, n - 1));
    }
  }

  /** `sort_by` with the ranking comparator. */
  function Sorted(xs: seq<SearchResult>): seq<SearchResult> {
    At(xs, SortPlaces(xs, |xs|))
  }

  ghost predicate StablySorted(xs: seq<SearchResult>, ys: seq<SearchResult>) {
    exists p :: StableOrder(xs, p) && ys == At(xs, p)
  }

  lemma SortedIsTheStableSort(xs: seq<SearchResult>, ys: seq<SearchResult>)
    ensures StablySorted(xs, ys) <==> ys == Sorted(xs)
  {
    var p := SortPlaces(xs, |xs|);
    SortPlacesIsChain(xs, |xs|);
    assert StableOrder(xs, p);
    if StablySorted(xs, ys) {
      var q :| StableOrder(xs, q) && ys == At(xs, q);
      ChainUnique(xs, p, q);
    }
  }

  /** The results with this tier and title, in the order they stand in. */
  function Alike(ys: seq<SearchResult>, tier: nat, title: string): seq<SearchResult> {
    if ys == [] then []
    else AlikeOne(ys[0], tier, title) + Alike(ys[1..], tier, title)
  }

  function AlikeOne(y: SearchResult, tier: nat, title: string): seq<SearchResult> {
    if Tier(y) == tier && y.title == title then [y] else []
  }

  lemma {:induction false} AlikeSnoc(ys: seq<SearchResult>, y: SearchResult, tier: nat, title: string)
    ensures Alike(ys + [y], tier, title) == Alike(ys, tier, title) + AlikeOne(y, tier, title)
  {
    if ys != [] {
      AlikeSnoc(ys[1..], y, tier, title);
      assert (ys + [y])[1..] == ys[1..] + [y];
    }
  }

  lemma {:induction false} NoneAlike(ys: seq<SearchResult>, x: SearchResult, tier: nat, title: string)
    requires forall k :: 0 <= k < |ys| ==> Better(x, ys[k])
    ensures Alike(ys, tier, title) == [] || AlikeOne(x, tier, title) == []
  {
    if ys != [] {
      NoneAlike(ys[1..], x, tier, title);
      TiersRank(x, ys[0]);
      TextTotal(x.title, x.title);
    }
  }

  lemma InsertIsBetter(xs: seq<SearchResult>, i: nat, p: seq<nat>, k: nat)
    requires i < |xs| && Chain(xs, p) && (forall j :: j in p ==> j < i) && k < |p| && Before(xs, i, p[0])
    ensures Better(xs[i], xs[p[k]])
  {
    assert p[k] in p;
    if k > 0 {
      assert p[k] in p[1..];
      BeforeTransitive(xs, i, p[0], p[k]);
    }
  }

  lemma AlikeAt(xs: seq<SearchResult>, i: nat, p: seq<nat>, tier: nat, title: string)
    requires i < |xs| && InRange(xs, p)
    ensures Alike(At(xs, [i] + p), tier, title) == AlikeOne(xs[i], tier, title) + Alike(At(xs, p), tier, title)
  {
    assert ([i] + p)[1..] == p;
    assert ([xs[i]] + At(xs, p))[1..] == At(xs, p);
  }

  lemma InsertUnfolds(xs: seq<SearchResult>, i: nat, p: seq<nat>)
    requires i < |xs| && p != [] && InRange(xs, p)
    ensures InRange(xs, p[1..])
    ensures InsertPlace(xs, i, p) == if Before(xs, i, p[0]) then [i] + p else [p[0]] + InsertPlace(xs, i, p[1..])
  {
    hide Before;
  }

  lemma {:induction false} InsertGoesLast(xs: seq<SearchResult>, i: nat, p: seq<nat>, tier: nat, title: string)
    requires i < |xs| && Chain(xs, p) && forall j :: j in p ==> j < i
    ensures Alike(At(xs, InsertPlace(xs, i, p)), tier, title) ==
            Alike(At(xs, p), tier, title) + AlikeOne(xs[i], tier, title)
  {
    if p == [] {
      InsertGoesFirst(xs, i, tier, title);
    } else if Before(xs, i, p[0]) {
      BetterAreNotAlike(xs, i, p, tier, title);
      InsertInFront(xs, i, p, tier, title);
    } else {
      assert forall j :: j in p[1..] ==> j in p;
      InsertGoesLast(xs, i, p[1..], tier, title);
      InsertBehind(xs, i, p, tier, title);
    }
  }

  lemma InsertGoesFirst(xs: seq<SearchResult>, i: nat, tier: nat, title: string)
    requires i < |xs|
    ensures Alike(At(xs, InsertPlace(xs, i, [])), tier, title) ==
            Alike(At(xs, []), tier, title) + AlikeOne(xs[i], tier, title)
  {
    assert InsertPlace(xs, i, []) == [i] + [];
    AlikeAt(xs, i, [], tier, title);
  }

  lemma InsertInFront(xs: seq<SearchResult>, i: nat, p: seq<nat>, tier: nat, title: string)
    requires i < |xs| && p != [] && InRange(xs, p) && Before(xs, i, p[0])
    requires Alike(At(xs, p), tier, title) == [] || AlikeOne(xs[i], tier, title) == []
    ensures Alike(At(xs, InsertPlace(xs, i, p)), tier, title) ==
            Alike(At(xs, p), tier, title) + AlikeOne(xs[i], tier, title)
  {
    hide Before, AlikeOne, Alike, At, InsertPlace;
    InsertUnfolds(xs, i, p);
    AlikeAt(xs, i, p, tier, title);
  }

  lemma InsertBehind(xs: seq<SearchResult>, i: nat, p: seq<nat>, tier: nat, title: string)
    requires i < |xs| && p != [] && InRange(xs, p) && InRange(xs, p[1..]) && !Before(xs, i, p[0])
    requires Alike(At(xs, InsertPlace(xs, i, p[1..])), tier, title) ==
             Alike(At(xs, p[1..]), tier, title) + AlikeOne(xs[i], tier, title)
    ensures Alike(At(xs, InsertPlace(xs, i, p)), tier, title) ==
            Alike(At(xs, p), tier, title) + AlikeOne(xs[i], tier, title)
  {
    hide Before, AlikeOne, Alike, At, InsertPlace;
    InsertUnfolds(xs, i, p);
    assert p == [p[0]] + p[1..];
    AlikeAt(xs, p[0], p[1..], tier, title);
    AlikeAt(xs, p[0], InsertPlace(xs, i, p[1..]), tier, title);
  }

  lemma BetterAreNotAlike(xs: seq<SearchResult>, i: nat, p: seq<nat>, tier: nat, title: string)
    requires i < |xs| && p != [] && Chain(xs, p) && (forall j :: j in p ==> j < i) && Before(xs, i, p[0])
    ensures Alike(At(xs, p), tier, title) == [] || AlikeOne(xs[i], tier, title) == []
  {
    hide Before, Better, AlikeOne, Alike;
    forall k | 0 <= k < |p| ensures Better(xs[i], At(xs, p)[k]) {
      InsertIsBetter(xs, i, p, k);
    }
    NoneAlike(At(xs, p), xs[i], tier, title);
  }

  lemma {:induction false} PlacesKeepTies(xs: seq<SearchResult>, n: nat, tier: nat, title: string)
    requires n <= |xs|
    ensures Alike(At(xs, SortPlaces(xs, n)), tier, title) == Alike(xs[..n], tier, title)
  {
    hide Chain, AlikeOne;
    if n > 0 {
      PlacesKeepTies(xs, n - 1, tier, title);
      SortPlacesIsChain(xs, n - 1);
      InsertGoesLast(xs, n - 1, SortPlaces(xs, n - 1), tier, title);
      AlikeSnoc(xs[..n - 1], xs[n - 1], tier, title);
      assert xs[..n] == xs[..n - 1] + [xs[n - 1]];
    }
  }

  /** Results that neither the tier nor the title tells apart keep the order in which the sources gave them. */
  lemma TiesKeepTheirOrder(xs: seq<SearchResult>, tier: nat, title: string)
    ensures Alike(Sorted(xs), tier, title) == Alike(xs, tier, title)
  {
    PlacesKeepTies(xs, |xs|, tier, title);
    assert xs[..|xs|] == xs;
  }

  lemma {:induction false} ChainPairs(xs: seq<SearchResult>, p: seq<nat>, i: nat, j: nat)
    requires Chain(xs, p) && i < j < |p|
    ensures p[i] in p && p[j] in p && Before(xs, p[i], p[j])
  {
    if i == 0 {
      assert p[j] == p[1..][j - 1];
    } else {
      ChainPairs(xs, p[1..], i - 1, j - 1);
    }
  }

  // ---------------------------------------------------------------------------------------------------------------
  // Collapsing neighbours
  // ---------------------------------------------------------------------------------------------------------------

  /** An entry is kept unless the one just before it has the same address. */
  predicate Kept(ys: seq<SearchResult>, i: nat)
    requires i < |ys|
  {
    i == 0 || ys[i - 1].url != ys[i].url
  }

  /** `dedup_by` on equal addresses. */
  function Dedup(ys: seq<SearchResult>): seq<SearchResult> {
    if ys == [] then []
    else Dedup(ys[..|ys| - 1]) + if Kept(ys, |ys| - 1) then [ys[|ys| - 1]] else []
  }

  function Ranked(xs: seq<SearchResult>): seq<SearchResult> {
    var all := Dedup(Sorted(xs));
    if |all| <= CAP then all else all[..CAP]
  }

  /** The engine's search, after each source answered or failed; a failed source contributes nothing. */
  method Search(local: seq<SearchResult>, onions: seq<SearchResult>, searx: seq<SearchResult>, peers: seq<SearchResult>)
    returns (all: seq<SearchResult>)
    ensures all == Ranked(local + onions + searx + peers)
  {
    all := local;
    all := all + onions;
    all := all + searx;
    if peers != [] {
      all := all + peers;
    }
    assert local + onions + searx + peers == all;
    all := Sorted(all);
    all := Collapse(all);
    if |all| > CAP {
      all := all[..CAP];
    }
  }

  /** Each entry is compared with the last one retained, as the vector's `dedup_by` does. */
  method Collapse(ys: seq<SearchResult>) returns (kept: seq<SearchResult>)
    ensures kept == Dedup(ys)
  {
    kept := [];
    for i := 0 to |ys|
      invariant kept == Dedup(ys[..i])
      invariant i > 0 ==> kept != [] && kept[|kept| - 1].url == ys[i - 1].url
    {
      assert ys[..i + 1][..i] == ys[..i];
      if kept == [] || kept[|kept| - 1].url != ys[i].url {
        kept := kept + [ys[i]];
      }
    }
    assert ys[..|ys|] == ys;
  }

  // ---------------------------------------------------------------------------------------------------------------
  // What survives
  // ---------------------------------------------------------------------------------------------------------------

  /** The places of the sorted list that are kept, in order. */
  function KeptPlaces(ys: seq<SearchResult>): (r: seq<nat>)
    ensures forall k: nat :: k in r <==> k < |ys| && Kept(ys, k)
    ensures forall k :: 0 <= k < |r| ==> r[k] < |ys|
    ensures forall a, b :: 0 <= a < b < |r| ==> r[a] < r[b]
  {
    if ys == [] then []
    else
      var front := KeptPlaces(ys[..|ys| - 1]);
      assert forall k :: 0 <= k < |ys| - 1 ==> (Kept(ys[..|ys| - 1], k) <==> Kept(ys, k));
      front + if Kept(ys, |ys| - 1) then [|ys| - 1] else []
  }

  lemma {:induction false} DedupIsKept(ys: seq<SearchResult>)
    ensures |Dedup(ys)| == |KeptPlaces(ys)|
    ensures forall k :: 0 <= k < |KeptPlaces(ys)| ==> Dedup(ys)[k] == ys[KeptPlaces(ys)[k]]
  {
    if ys != [] {
      DedupIsKept(ys[..|ys| - 1]);
    }
  }

  /** No two neighbours of the collapsed list share an address. */
  lemma {:induction false} NeighboursDiffer(ys: seq<SearchResult>)
    ensures ys != [] ==> Dedup(ys) != [] && Dedup(ys)[|Dedup(ys)| - 1].url == ys[|ys| - 1].url
    ensures forall k :: 0 < k < |Dedup(ys)| ==> Dedup(ys)[k - 1].url != Dedup(ys)[k].url
  {
    if ys != [] {
      NeighboursDiffer(ys[..|ys| - 1]);
    }
  }

  /** The best-ranked entry of every address survives the collapse. */
  lemma BestOfEachUrlSurvives(ys: seq<SearchResult>, i: nat)
    requires i < |ys| && forall h :: 0 <= h < i ==> ys[h].url != ys[i].url
    ensures ys[i] in Dedup(ys)
  {
    DedupIsKept(ys);
    assert Kept(ys, i);
    assert i in KeptPlaces(ys);
    var k :| 0 <= k < |KeptPlaces(ys)| && KeptPlaces(ys)[k] == i;
    assert Dedup(ys)[k] == ys[i];
  }

  lemma SortedInOrder(xs: seq<SearchResult>, i: nat, j: nat)
    requires i < j < |xs|
    ensures |Sorted(xs)| == |SortPlaces(xs, |xs|)| == |xs|
    ensures !Better(Sorted(xs)[j], Sorted(xs)[i])
  {
    var p := SortPlaces(xs, |xs|);
    SortedLength(xs);
    SortPlacesIsChain(xs, |xs|);
    ChainPairs(xs, p, i, j);
    BeforeTotal(xs, p[i], p[j]);
  }

  lemma {:induction false} InsertLength(xs: seq<SearchResult>, i: nat, p: seq<nat>)
    requires i < |xs| && InRange(xs, p)
    ensures |InsertPlace(xs, i, p)| == |p| + 1
  {
    if p != [] {
      InsertLength(xs, i, p[1..]);
    }
  }

  lemma {:induction false} PlacesLength(xs: seq<SearchResult>, n: nat)
    requires n <= |xs|
    ensures |SortPlaces(xs, n)| == n
  {
    if n > 0 {
      PlacesLength(xs, n - 1);
      InsertLength(xs, n - 1, SortPlaces(xs, n - 1));
    }
  }

  lemma SortedLength(xs: seq<SearchResult>)
    ensures |Sorted(xs)| == |SortPlaces(xs, |xs|)| == |xs|
    ensures forall k :: 0 <= k < |xs| ==> Sorted(xs)[k] == xs[SortPlaces(xs, |xs|)[k]]
  {
    PlacesLength(xs, |xs|);
  }

  /** The collapsed list, cut or not, is in ranking order and holds results of the sources only. */
  lemma CollapsedInOrder(xs: seq<SearchResult>, i: nat, j: nat)
    requires i < |Dedup(Sorted(xs))| && j < |Dedup(Sorted(xs))|
    ensures i < j ==> !Better(Dedup(Sorted(xs))[j], Dedup(Sorted(xs))[i])
    ensures Dedup(Sorted(xs))[i] in xs
  {
    var ys := Sorted(xs);
    DedupIsKept(ys);
    SortedLength(xs);
    var kept := KeptPlaces(ys);
    if i < j {
      SortedInOrder(xs, kept[i], kept[j]);
    }
  }

  /** The final list is in ranking order, holds results of the sources only, and has at most forty entries. */
  lemma RankedIsOrdered(xs: seq<SearchResult>)
    ensures |Ranked(xs)| <= 40
    ensures forall i, j :: 0 <= i < j < |Ranked(xs)| ==> !Better(Ranked(xs)[j], Ranked(xs)[i])
    ensures forall i :: 0 <= i < |Ranked(xs)| ==> Ranked(xs)[i] in xs
  {
    hide Dedup, Sorted, Better;
    forall i, j | 0 <= i < j < |Ranked(xs)| ensures !Better(Ranked(xs)[j], Ranked(xs)[i]) {
      CollapsedInOrder(xs, i, j);
    }
    forall i | 0 <= i < |Ranked(xs)| ensures Ranked(xs)[i] in xs {
      CollapsedInOrder(xs, i, i);
    }
  }

  /** In the list returned tiers never fall back, and titles of one tier stand in the order of the dictionary. */
  lemma RankedLikeADictionary(xs: seq<SearchResult>, m: nat, n: nat)
    requires m < n < |Ranked(xs)|
    ensures Tier(Ranked(xs)[m]) <= Tier(Ranked(xs)[n])
    ensures Tier(Ranked(xs)[m]) == Tier(Ranked(xs)[n]) ==>
      Ranked(xs)[m].title == Ranked(xs)[n].title || FirstInDictionary(Ranked(xs)[m].title, Ranked(xs)[n].title)
  {
    var a, b := Ranked(xs)[m], Ranked(xs)[n];
    RankedIsOrdered(xs);
    TiersRank(b, a);
    TextTotal(a.title, b.title);
    TextLessIff(a.title, b.title);
    hide Ranked, Tier, TextLess, FirstInDictionary, Better;
  }

  /** Of two results returned with one tier and one title, the one shown first came first from the sources. */
  lemma RankedFollowsSources(xs: seq<SearchResult>, m: nat, n: nat)
    requires m < n < |Ranked(xs)|
    requires Tier(Ranked(xs)[m]) == Tier(Ranked(xs)[n]) && Ranked(xs)[m].title == Ranked(xs)[n].title
    ensures exists i, j :: 0 <= i < j < |xs| && xs[i] == Ranked(xs)[m] && xs[j] == Ranked(xs)[n]
  {
    var ys, p := Sorted(xs), SortPlaces(xs, |xs|);
    SortedLength(xs);
    DedupIsKept(ys);
    SortPlacesIsChain(xs, |xs|);
    var a, b := KeptPlaces(ys)[m], KeptPlaces(ys)[n];
    ChainPairs(xs, p, a, b);
    TiersRank(xs[p[a]], xs[p[b]]);
    TextTotal(xs[p[a]].title, xs[p[a]].title);
    assert p[a] < p[b];
    assert xs[p[a]] == Ranked(xs)[m] && xs[p[b]] == Ranked(xs)[n];
  }

  lemma NotBetterTransitive(a: SearchResult, b: SearchResult, c: SearchResult)
    requires !Better(a, b) && !Better(b, c)
    ensures !Better(a, c)
  {
    if Better(a, c) {
      TextTotal(a.title, b.title);
      TextTotal(b.title, c.title);
      if Better(b, a) {
        BetterTransitive(b, a, c);
      }
    }
  }

  /** The best-ranked entry with the address of a result is at least as good as it, and is not collapsed away. */
  lemma BestKept(xs: seq<SearchResult>, x: SearchResult) returns (d: nat)
    requires x in xs
    ensures d < |Dedup(Sorted(xs))| && Dedup(Sorted(xs))[d].url == x.url && !Better(x, Dedup(Sorted(xs))[d])
  {
    hide Better, SortPlaces, Dedup;
    var ys := Sorted(xs);
    SortedLength(xs);
    var a :| 0 <= a < |xs| && xs[a] == x;
    var k := Rank(xs, a);
    hide Sorted;
    var i := FirstOf(ys, k);
    BestOfEachUrlSurvives(ys, i);
    d :| 0 <= d < |Dedup(ys)| && Dedup(ys)[d] == ys[i];
    if i < k {
      SortedInOrder(xs, i, k);
    } else {
      NotBetterItself(x);
    }
  }

  lemma NotBetterItself(x: SearchResult)
    ensures !Better(x, x)
  {
    TextTotal(x.title, x.title);
  }

  lemma {:induction false} FirstOf(ys: seq<SearchResult>, k: nat) returns (i: nat)
    requires k < |ys|
    ensures i <= k && ys[i].url == ys[k].url && forall h :: 0 <= h < i ==> ys[h].url != ys[i].url
    decreases k
  {
    if h: nat :| h < k && ys[h].url == ys[k].url {
      i := FirstOf(ys, h);
    } else {
      i := k;
    }
  }

  /**
   Nothing worth showing is lost: each source's result is represented by one of its address that ranks no worse, unless
   forty results that rank no worse than it fill the list.
   */
  lemma NothingBetterIsLost(xs: seq<SearchResult>, x: SearchResult)
    requires x in xs
    ensures (exists i :: 0 <= i < |Ranked(xs)| && Ranked(xs)[i].url == x.url && !Better(x, Ranked(xs)[i]))
         || (|Ranked(xs)| == 40 && forall i :: 0 <= i < 40 ==> !Better(x, Ranked(xs)[i]))
  {
    hide Better, Dedup, Sorted;
    var all := Dedup(Sorted(xs));
    var d := BestKept(xs, x);
    if d < |Ranked(xs)| {
      assert Ranked(xs)[d] == all[d];
    } else {
      forall i | 0 <= i < 40 ensures !Better(x, Ranked(xs)[i]) {
        CollapsedInOrder(xs, i, d);
        NotBetterTransitive(x, all[d], all[i]);
      }
    }
  }

  ghost predicate DistinctUrls(ys: seq<SearchResult>) {
    forall i, j :: 0 <= i < j < |ys| ==> ys[i].url != ys[j].url
  }

  /** In ranking order, `b` stands between two entries of one address that is not its own. */
  ghost predicate Sandwich(xs: seq<SearchResult>, a: nat, b: nat, c: nat) {
    && a < |xs| && b < |xs| && c < |xs|
    && xs[a].url == xs[c].url != xs[b].url
    && Before(xs, a, b) && Before(xs, b, c)
  }

  /** Where the run of equal addresses around `k` begins. */
  function RunStart(ys: seq<SearchResult>, k: nat): (r: nat)
    requires k < |ys|
    ensures r <= k && Kept(ys, r)
    ensures forall h :: r <= h <= k ==> ys[h].url == ys[k].url
  {
    if Kept(ys, k) then k else RunStart(ys, k - 1)
  }

  /** Where a place of the input comes out. */
  function Position(p: seq<nat>, i: nat): (k: nat)
    requires i in p
    ensures k < |p| && p[k] == i
  {
    if p[0] == i then 0 else Position(p[1..], i) + 1
  }

  lemma {:induction false} PositionOf(xs: seq<SearchResult>, p: seq<nat>, k: nat)
    requires Chain(xs, p) && k < |p|
    ensures p[k] in p && Position(p, p[k]) == k
  {
    if k > 0 {
      assert p[k] == p[1..][k - 1];
      ChainPairs(xs, p, 0, k);
      BeforeTotal(xs, p[0], p[0]);
      PositionOf(xs, p[1..], k - 1);
    }
  }

  /** Where the result at place `i` of the input comes out of the sort. */
  function Rank(xs: seq<SearchResult>, i: nat): (k: nat)
    requires i < |xs|
    ensures k < |SortPlaces(xs, |xs|)| && SortPlaces(xs, |xs|)[k] == i
  {
    Position(SortPlaces(xs, |xs|), i)
  }

  lemma PlacesFollowOrder(xs: seq<SearchResult>, i: nat, j: nat)
    requires |SortPlaces(xs, |xs|)| == |xs| && i < |xs| && j < |xs|
    requires Before(xs, SortPlaces(xs, |xs|)[i], SortPlaces(xs, |xs|)[j])
    ensures i < j
  {
    hide Before, Chain, SortPlaces;
    var p := SortPlaces(xs, |xs|);
    SortPlacesIsChain(xs, |xs|);
    BeforeTotal(xs, p[i], p[j]);
    if j < i {
      ChainPairs(xs, p, j, i);
    }
  }

  /** How many entries of the collapsed list stand before the one that the result at place `c` was collapsed into. */
  function Ahead(xs: seq<SearchResult>, c: nat): nat
    requires c < |xs|
  {
    SortedLength(xs);
    |Dedup(Sorted(xs)[..RunStart(Sorted(xs), Rank(xs, c))])|
  }

  lemma {:induction false} KeptComesOut(ys: seq<SearchResult>, r: nat)
    requires r < |ys| && Kept(ys, r)
    ensures |Dedup(ys[..r])| < |Dedup(ys)| && Dedup(ys)[|Dedup(ys[..r])|] == ys[r]
  {
    var n := |ys| - 1;
    if r < n {
      assert ys[..n][..r] == ys[..r];
      KeptComesOut(ys[..n], r);
    }
  }

  lemma {:induction false} KeptCount(ys: seq<SearchResult>, n: nat)
    requires n < |KeptPlaces(ys)|
    ensures |Dedup(ys[..KeptPlaces(ys)[n]])| == n
  {
    var front := ys[..|ys| - 1];
    DedupIsKept(front);
    if n < |KeptPlaces(front)| {
      KeptCount(front, n);
      assert front[..KeptPlaces(front)[n]] == ys[..KeptPlaces(ys)[n]];
    }
  }

  /** Two runs of one address come out as two entries. */
  lemma RunsComeOut(ys: seq<SearchResult>, i: nat, j: nat, k: nat)
    requires i < j < k < |ys| && ys[i].url == ys[k].url != ys[j].url
    ensures var m, n := |Dedup(ys[..RunStart(ys, i)])|, |Dedup(ys[..RunStart(ys, k)])|;
      m < n < |Dedup(ys)| && Dedup(ys)[m].url == Dedup(ys)[n].url
  {
    hide Kept;
    var first, second := RunStart(ys, i), RunStart(ys, k);
    assert j < second by {
      assert ys[j].url != ys[k].url;
    }
    KeptComesOut(ys, first);
    KeptComesOut(ys, second);
    KeptInFront(ys, first, second);
    KeptComesOut(ys[..second], first);
    assert ys[..second][..first] == ys[..first];
  }

  lemma KeptInFront(ys: seq<SearchResult>, r: nat, n: nat)
    requires r < n <= |ys|
    ensures Kept(ys[..n], r) == Kept(ys, r)
  {
  }

  lemma SandwichRepeats(xs: seq<SearchResult>, a: nat, b: nat, c: nat)
    requires Sandwich(xs, a, b, c) && Ahead(xs, c) < 40
    ensures !DistinctUrls(Ranked(xs))
  {
    hide Sorted, SortPlaces, Before, Chain, Dedup, RunStart, Rank;
    SortedLength(xs);
    var i, j, k := Rank(xs, a), Rank(xs, b), Rank(xs, c);
    PlacesFollowOrder(xs, i, j);
    PlacesFollowOrder(xs, j, k);
    RunsComeOut(Sorted(xs), i, j, k);
    var m, n := |Dedup(Sorted(xs)[..RunStart(Sorted(xs), i)])|, Ahead(xs, c);
    assert Ranked(xs)[m].url == Ranked(xs)[n].url;
  }

  /** Two kept entries of one address have something else between them. */
  lemma KeptApart(ys: seq<SearchResult>, m: nat, n: nat)
    requires m < n < |KeptPlaces(ys)| && ys[KeptPlaces(ys)[m]].url == ys[KeptPlaces(ys)[n]].url
    ensures var i, k := KeptPlaces(ys)[m], KeptPlaces(ys)[n];
      i + 1 < k && ys[k - 1].url != ys[k].url
  {
    assert KeptPlaces(ys)[n] in KeptPlaces(ys);
  }

  lemma SandwichAt(xs: seq<SearchResult>, i: nat, k: nat)
    requires i + 1 < k < |xs| && |Sorted(xs)| == |xs| == |SortPlaces(xs, |xs|)|
    requires Sorted(xs)[i].url == Sorted(xs)[k].url != Sorted(xs)[k - 1].url
    ensures var p := SortPlaces(xs, |xs|);
      Sandwich(xs, p[i], p[k - 1], p[k]) && Rank(xs, p[k]) == k
  {
    hide Sorted, SortPlaces, Before, Chain;
    var p := SortPlaces(xs, |xs|);
    SortedLength(xs);
    SortPlacesIsChain(xs, |xs|);
    ChainPairs(xs, p, i, k - 1);
    ChainPairs(xs, p, k - 1, k);
    PositionOf(xs, p, k);
  }

  lemma KeptIsItsStart(ys: seq<SearchResult>, n: nat)
    requires n < |KeptPlaces(ys)|
    ensures RunStart(ys, KeptPlaces(ys)[n]) == KeptPlaces(ys)[n]
  {
    assert KeptPlaces(ys)[n] in KeptPlaces(ys);
  }

  lemma RepeatIsSandwich(xs: seq<SearchResult>)
    requires !DistinctUrls(Ranked(xs))
    ensures exists a: nat, b: nat, c: nat :: Sandwich(xs, a, b, c) && Ahead(xs, c) < 40
  {
    var ys := Sorted(xs);
    SortedLength(xs);
    DedupIsKept(ys);
    hide Sorted, SortPlaces, Dedup, KeptPlaces, Sandwich, RunStart, Rank;
    var kept, p := KeptPlaces(ys), SortPlaces(xs, |xs|);
    var m, n :| 0 <= m < n < |Ranked(xs)| && Ranked(xs)[m].url == Ranked(xs)[n].url;
    KeptApart(ys, m, n);
    SandwichAt(xs, kept[m], kept[n]);
    KeptCount(ys, n);
    KeptIsItsStart(ys, n);
    assert Sandwich(xs, p[kept[m]], p[kept[n] - 1], p[kept[n]]);
  }

  /**
   The collapse removes neighbours only, so an address can appear twice among the results returned. It does exactly when
   some result of another address ranks between two results of that address, and the second of those is not cut off.
   */
  lemma UrlsDistinctIff(xs: seq<SearchResult>)
    ensures DistinctUrls(Ranked(xs))
            <==> forall a: nat, b: nat, c: nat :: Sandwich(xs, a, b, c) ==> Ahead(xs, c) >= 40
  {
    hide DistinctUrls, Ahead, Ranked;
    if !DistinctUrls(Ranked(xs)) {
      RepeatIsSandwich(xs);
    }
    forall a: nat, b: nat, c: nat | Sandwich(xs, a, b, c) && Ahead(xs, c) < 40 ensures !DistinctUrls(Ranked(xs)) {
      SandwichRepeats(xs, a, b, c);
    }
  }

  /** Three results of one score, the middle title under another address: one address is returned twice. */
  lemma RepeatWitness()
    ensures var a := SearchResult("a", "http://x.example", "", false, Clearnet);
      var b := SearchResult("b", "http://y.example", "", false, Clearnet);
      var c := SearchResult("c", "http://x.example", "", false, Clearnet);
      !DistinctUrls(Ranked([a, b, c]))
  {
    var a := SearchResult("a", "http://x.example", "", false, Clearnet);
    var b := SearchResult("b", "http://y.example", "", false, Clearnet);
    var c := SearchResult("c", "http://x.example", "", false, Clearnet);
    var xs := [a, b, c];
    assert TextLess("a", "b") && TextLess("b", "c");
    assert Sandwich(xs, 0, 1, 2);
    SortedLength(xs);
    DedupNoLonger(Sorted(xs)[..RunStart(Sorted(xs), Rank(xs, 2))]);
    SandwichRepeats(xs, 0, 1, 2);
  }

  lemma {:induction false} DedupNoLonger(ys: seq<SearchResult>)
    ensures |Dedup(ys)| <= |ys|
  {
    if ys != [] {
      DedupNoLonger(ys[..|ys| - 1]);
    }
  }

  /** When results have equal score and title exactly if they have equal addresses, no address appears twice. */
  lemma DistinctWhenTiesAreUrls(xs: seq<SearchResult>)
    requires forall i, j :: 0 <= i < |xs| && 0 <= j < |xs| ==> (Tied(xs[i], xs[j]) <==> xs[i].url == xs[j].url)
    ensures DistinctUrls(Ranked(xs))
  {
    forall a: nat, b: nat, c: nat ensures !Sandwich(xs, a, b, c) {
      if Sandwich(xs, a, b, c) {
        TextTotal(xs[a].title, xs[b].title);
      }
    }
    UrlsDistinctIff(xs);
  }
}
