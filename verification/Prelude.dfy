/** Fixed-width words, options, order-preserving removal from lists, and the string tests the browser uses. */

module Words {
  const U32: int := 0x1_0000_0000
  const U64: int := 0x1_0000_0000_0000_0000

  type u16 = n: int | 0 <= n < 0x1_0000
  type u32 = n: int | 0 <= n < U32
  type u64 = n: int | 0 <= n < U64
  type byte = n: int | 0 <= n < 256
}

module Wrappers {
  datatype Option<+T> = None | Some(value: T)

  datatype Result<+T> = Ok(value: T) | Err
}

module Lists {
  /** `s` without the elements of `drop`, in order (what `retain` leaves). */
  function Minus<T(==,!new)>(s: seq<T>, drop: set<T>): (r: seq<T>)
    ensures forall x :: x in r <==> x in s && x !in drop
    ensures |r| <= |s|
  {
    if s == [] then []
    else if s[0] in drop then Minus(s[1..], drop)
    else [s[0]] + Minus(s[1..], drop)
  }

  ghost predicate NoDup<T>(s: seq<T>) {
    s == [] || (s[0] !in s[1..] && NoDup(s[1..]))
  }

  ghost predicate IsSuffix<T>(a: seq<T>, b: seq<T>) {
    |a| <= |b| && b[|b| - |a|..] == a
  }

  function Last<T>(s: seq<T>): T
    requires s != []
  {
    s[|s| - 1]
  }

  /** The last `n` elements, or all when there are fewer. */
  function LastN<T>(s: seq<T>, n: nat): seq<T> {
    if |s| <= n then s else s[|s| - n..]
  }

  lemma SuffixIsLastN<T>(a: seq<T>, b: seq<T>, n: nat)
    requires IsSuffix(a, b)
    requires |a| == if |b| <= n then |b| else n
    ensures a == LastN(b, n)
  {
  }

  lemma {:induction false} MinusAppend<T(!new)>(a: seq<T>, b: seq<T>, drop: set<T>)
    ensures Minus(a + b, drop) == Minus(a, drop) + Minus(b, drop)
  {
    if a == [] {
      assert a + b == b;
    } else {
      assert (a + b)[1..] == a[1..] + b;
      MinusAppend(a[1..], b, drop);
    }
  }

  lemma {:induction false} MinusTwice<T(!new)>(s: seq<T>, a: set<T>, b: set<T>)
    ensures Minus(Minus(s, a), b) == Minus(s, a + b)
  {
    if s != [] {
      MinusTwice(s[1..], a, b);
      if s[0] !in a {
        var rest := Minus(s[1..], a);
        assert ([s[0]] + rest)[1..] == rest;
      }
    }
  }

  lemma {:induction false} MinusNothing<T(!new)>(s: seq<T>, drop: set<T>)
    requires forall x :: x in drop ==> x !in s
    ensures Minus(s, drop) == s
  {
    if s != [] {
      assert s[0] in s;
      MinusNothing(s[1..], drop);
    }
  }

  lemma {:induction false} MinusNoDup<T(!new)>(s: seq<T>, drop: set<T>)
    requires NoDup(s)
    ensures NoDup(Minus(s, drop))
  {
    if s != [] {
      MinusNoDup(s[1..], drop);
      var rest := Minus(s[1..], drop);
      assert ([s[0]] + rest)[1..] == rest;
    }
  }

  lemma {:induction false} NoDupAppend<T(!new)>(a: seq<T>, b: seq<T>)
    ensures NoDup(a + b) <==> NoDup(a) && NoDup(b) && forall x :: x in a ==> x !in b
  {
    if a == [] {
      assert a + b == b;
    } else {
      NoDupAppend(a[1..], b);
      assert (a + b)[1..] == a[1..] + b;
      assert a == [a[0]] + a[1..];
    }
  }

  lemma NoDupSnoc<T(!new)>(a: seq<T>, x: T)
    ensures NoDup(a + [x]) <==> NoDup(a) && x !in a
  {
    NoDupAppend(a, [x]);
    assert [x][1..] == [];
  }

  lemma MinusSuffix<T(!new)>(a: seq<T>, b: seq<T>, drop: set<T>)
    requires IsSuffix(a, b)
    ensures IsSuffix(Minus(a, drop), Minus(b, drop))
  {
    var front := b[..|b| - |a|];
    assert b == front + a;
    MinusAppend(front, a, drop);
  }

  /** The last element survives removal of others, and stays last. */
  lemma MinusLast<T(!new)>(s: seq<T>, drop: set<T>)
    requires s != [] && Last(s) !in drop
    ensures Minus(s, drop) != [] && Last(Minus(s, drop)) == Last(s)
  {
    var front := s[..|s| - 1];
    assert s == front + [Last(s)];
    MinusAppend(front, [Last(s)], drop);
  }

  lemma {:induction false} MinusShrinks<T(!new)>(s: seq<T>, x: T)
    requires x in s
    ensures |Minus(s, {x})| < |s|
  {
    if s[0] != x {
      assert s == [s[0]] + s[1..];
      MinusShrinks(s[1..], x);
    }
  }

  /** A split of what is left after removal comes from a split of the original. */
  lemma {:induction false} MinusSplit<T(!new)>(s: seq<T>, drop: set<T>, a: seq<T>, z: T, b: seq<T>)
    returns (before: seq<T>, after: seq<T>)
    requires Minus(s, drop) == a + [z] + b
    ensures s == before + [z] + after && Minus(after, drop) == b
  {
    var rest := Minus(s[1..], drop);
    if s[0] in drop {
      before, after := MinusSplit(s[1..], drop, a, z, b);
      before := [s[0]] + before;
    } else if a == [] {
      before, after := [], s[1..];
      assert rest == ([s[0]] + rest)[1..] == ([z] + b)[1..] == b;
    } else {
      assert rest == ([s[0]] + rest)[1..] == (a + [z] + b)[1..] == a[1..] + [z] + b;
      before, after := MinusSplit(s[1..], drop, a[1..], z, b);
      before := [s[0]] + before;
    }
  }

  lemma DropFirst<T(!new)>(s: seq<T>)
    requires NoDup(s) && s != []
    ensures forall x :: x in s[1..] <==> x in s && x != s[0]
    ensures |s| > 1 ==> Last(s[1..]) == Last(s)
  {
    assert s == [s[0]] + s[1..];
  }

  lemma FrontLast<T(!new)>(s: seq<T>)
    requires s != []
    ensures s == s[..|s| - 1] + [Last(s)]
    ensures forall x :: x in s <==> x in s[..|s| - 1] || x == Last(s)
  {
    var front := s[..|s| - 1];
    assert s == front + [Last(s)];
  }

  lemma SnocSplit<T>(rest: seq<T>, x: T, a: seq<T>, b: seq<T>)
    requires rest + [x] == a + b && b != []
    ensures x == Last(b) && rest == a + b[..|b| - 1]
  {
    assert (rest + [x])[|rest|] == (a + b)[|rest|];
    assert rest == (rest + [x])[..|rest|];
  }

  lemma {:induction false} NoDupCard<T(!new)>(s: seq<T>, elements: set<T>)
    requires NoDup(s)
    requires forall x :: x in elements <==> x in s
    ensures |elements| == |s|
  {
    if s == [] {
      assert elements == {};
    } else {
      DropFirst(s);
      NoDupCard(s[1..], elements - {s[0]});
    }
  }

  /** An element of a list without duplicates is among the last `n` exactly when its place is. */
  lemma InTail<T(!new)>(s: seq<T>, k: nat, n: nat)
    requires NoDup(s) && k < |s|
    ensures s[k] in LastN(s, n) <==> |s| - n <= k
  {
    if n < |s| {
      var front, tail := s[..|s| - n], s[|s| - n..];
      assert s == front + tail;
      NoDupAppend(front, tail);
      if |s| - n <= k {
        assert tail[k - (|s| - n)] == s[k];
      } else {
        assert front[k] == s[k];
      }
    }
  }

  /** How many elements stand behind the first `x`. */
  function Behind<T(==)>(s: seq<T>, x: T): nat {
    if s == [] then 0
    else if s[0] == x then |s| - 1
    else Behind(s[1..], x)
  }

  lemma {:induction false} BehindAt<T(!new)>(s: seq<T>, k: nat)
    requires NoDup(s) && k < |s|
    ensures Behind(s, s[k]) == |s| - 1 - k
  {
    if k > 0 {
      assert s[k] == s[1..][k - 1];
      NoDupIndex(s, 0, k);
      BehindAt(s[1..], k - 1);
    }
  }

  /** Behind an element of a suffix stands what stands behind it in the whole list. */
  lemma BehindInSuffix<T(!new)>(a: seq<T>, b: seq<T>, x: T)
    requires NoDup(a) && NoDup(b) && IsSuffix(a, b) && x in a
    ensures x in b && Behind(a, x) == Behind(b, x) < |a|
  {
    var k: nat :| k < |a| && a[k] == x;
    assert b[|b| - |a| + k] == x;
    BehindAt(a, k);
    BehindAt(b, |b| - |a| + k);
  }

  lemma {:induction false} NoDupIndex<T(!new)>(s: seq<T>, i: nat, j: nat)
    requires NoDup(s) && i < j < |s|
    ensures s[i] != s[j]
  {
    if i == 0 {
      assert s[j] == s[1..][j - 1];
    } else {
      NoDupIndex(s[1..], i - 1, j - 1);
    }
  }
}

module Text {
  import opened Wrappers

  predicate StartsWith(s: string, p: string) {
    |p| <= |s| && s[..|p|] == p
  }

  predicate EndsWith(s: string, p: string) {
    |p| <= |s| && s[|s| - |p|..] == p
  }

  predicate IsWebUrl(url: string) {
    StartsWith(url, "http://") || StartsWith(url, "https://")
  }

  predicate Contains(s: string, p: string) {
    StartsWith(s, p) || (s != [] && Contains(s[1..], p))
  }

  lemma {:induction false} NotContained(s: string, p: string)
    requires p != "" && p[0] !in s
    ensures !Contains(s, p)
  {
    if s != "" {
      NotContained(s[1..], p);
    }
  }

  /** Unicode White_Space, as `str::trim` uses it. */
  predicate IsSpace(c: char) {
    '\U{9}' <= c <= '\U{D}' || c == ' ' || c == '\U{85}' || c == '\U{A0}' || c == '\U{1680}'
    || '\U{2000}' <= c <= '\U{200A}' || c == '\U{2028}' || c == '\U{2029}' || c == '\U{202F}'
    || c == '\U{205F}' || c == '\U{3000}'
  }

  function TrimStart(s: string): string {
    if s != [] && IsSpace(s[0]) then TrimStart(s[1..]) else s
  }

  function TrimEnd(s: string): string {
    if s != [] && IsSpace(s[|s| - 1]) then TrimEnd(s[..|s| - 1]) else s
  }

  function Trim(s: string): string {
    TrimEnd(TrimStart(s))
  }

  /** Position of the first occurrence of `p` in `s`. */
  function Find(s: string, p: string): (r: Option<nat>)
    ensures r.Some? ==> r.value + |p| <= |s| && s[r.value..r.value + |p|] == p
    ensures r.Some? <==> Contains(s, p)
  {
    if StartsWith(s, p) then Some(0)
    else if s == [] then None
    else match Find(s[1..], p)
      case None => None
      case Some(i) =>
        assert s[1..][i..i + |p|] == s[i + 1..i + 1 + |p|];
        Some(i + 1)
  }

  /** `s.split(p)` for a non-empty separator: the pieces between occurrences, never an empty list. */
  function Split(s: string, p: string): (r: seq<string>)
    requires p != []
    ensures r != []
    decreases |s|
  {
    match Find(s, p)
    case None => [s]
    case Some(i) => [s[..i]] + Split(s[i + |p|..], p)
  }

  /** `s.split(p).nth(1).unwrap_or(d)`. */
  function SecondPart(s: string, p: string, d: string): string
    requires p != []
  {
    var parts := Split(s, p);
    if |parts| > 1 then parts[1] else d
  }

  // ---------------------------------------------------------------------------------------------------------------
  // What the string tests mean
  // ---------------------------------------------------------------------------------------------------------------

  predicate OccursAt(s: string, p: string, i: nat) {
    i + |p| <= |s| && s[i..i + |p|] == p
  }

  lemma OccursLater(s: string, p: string, i: nat)
    requires s != ""
    ensures OccursAt(s[1..], p, i) <==> OccursAt(s, p, i + 1)
  {
    if i + 1 + |p| <= |s| {
      assert s[1..][i..i + |p|] == s[i + 1..i + 1 + |p|];
    }
  }

  lemma {:induction false} ContainsIff(s: string, p: string)
    ensures Contains(s, p) <==> exists i: nat :: OccursAt(s, p, i)
  {
    assert StartsWith(s, p) <==> OccursAt(s, p, 0);
    if s != "" {
      ContainsIff(s[1..], p);
      hide OccursAt;
      if Contains(s[1..], p) {
        var i: nat :| OccursAt(s[1..], p, i);
        OccursLater(s, p, i);
      }
      forall i: nat | OccursAt(s, p, i) ensures Contains(s, p) {
        if i > 0 {
          OccursLater(s, p, i - 1);
        }
      }
    }
  }

  /** The search finds the first occurrence. */
  lemma {:induction false} FindIsFirst(s: string, p: string, i: nat)
    requires OccursAt(s, p, i)
    ensures Find(s, p).Some? && OccursAt(s, p, Find(s, p).value) && Find(s, p).value <= i
  {
    if !StartsWith(s, p) {
      OccursLater(s, p, i - 1);
      FindIsFirst(s[1..], p, i - 1);
    }
  }

  function Join(parts: seq<string>, p: string): string
    requires parts != []
  {
    if |parts| == 1 then parts[0] else parts[0] + p + Join(parts[1..], p)
  }

  /** Splitting takes out the separators and nothing else. */
  lemma {:induction false} SplitJoins(s: string, p: string)
    requires p != ""
    ensures Join(Split(s, p), p) == s
    decreases |s|
  {
    match Find(s, p)
    case None =>
    case Some(i) =>
      SplitJoins(s[i + |p|..], p);
      assert ([s[..i]] + Split(s[i + |p|..], p))[1..] == Split(s[i + |p|..], p);
      assert s == s[..i] + s[i..i + |p|] + s[i + |p|..];
  }

  /** A separator that begins with a character absent from the front is found right behind it. */
  lemma {:induction false} FindBehind(front: string, p: string, rest: string)
    requires p != "" && p[0] !in front
    ensures Find(front + p + rest, p) == Some(|front|)
  {
    var s := front + p + rest;
    if front == "" {
      assert s[..|p|] == p;
    } else {
      assert s[0] == front[0];
      assert s[1..] == front[1..] + p + rest;
      FindBehind(front[1..], p, rest);
    }
  }

  lemma SplitOnce(front: string, p: string, rest: string)
    requires p != "" && p[0] !in front && p[0] !in rest
    ensures SecondPart(front + p + rest, p, "") == rest
  {
    var s := front + p + rest;
    hide Contains;
    FindBehind(front, p, rest);
    NotContained(rest, p);
    assert s[|front| + |p|..] == rest;
    assert Split(rest, p) == [rest];
  }

  lemma SplitBehind(front: string, p: string, rest: string)
    requires p != "" && p[0] !in front
    ensures Split(front + p + rest, p) == [front] + Split(rest, p)
  {
    var s := front + p + rest;
    FindBehind(front, p, rest);
    assert s[|front| + |p|..] == rest && s[..|front|] == front;
  }

  /** The second part ends at the next separator. */
  lemma SecondOfThree(front: string, p: string, middle: string, rest: string)
    requires p != "" && p[0] !in front && p[0] !in middle
    ensures SecondPart(front + p + (middle + p + rest), p, "") == middle
  {
    hide Split;
    SplitBehind(front, p, middle + p + rest);
    SplitBehind(middle, p, rest);
  }

  /** Without a separator there is no second part. */
  lemma SecondOfOne(s: string, p: string, d: string)
    requires p != "" && !Contains(s, p)
    ensures SecondPart(s, p, d) == d
  {
  }

  /** Parts free of the separator's first character are what a joined text splits into. */
  lemma {:induction false} SplitJoined(parts: seq<string>, p: string)
    requires parts != [] && p != "" && forall k :: 0 <= k < |parts| ==> p[0] !in parts[k]
    ensures Split(Join(parts, p), p) == parts
  {
    if |parts| == 1 {
      NotContained(parts[0], p);
    } else {
      var rest := Join(parts[1..], p);
      var s := parts[0] + p + rest;
      FindBehind(parts[0], p, rest);
      SplitJoined(parts[1..], p);
      assert s[|parts[0]| + |p|..] == rest && s[..|parts[0]|] == parts[0];
    }
  }

  ghost predicate AllSpaces(s: string) {
    forall i :: 0 <= i < |s| ==> IsSpace(s[i])
  }

  lemma {:induction false} TrimStartCuts(s: string) returns (a: string)
    ensures s == a + TrimStart(s) && AllSpaces(a)
    ensures TrimStart(s) != "" ==> !IsSpace(TrimStart(s)[0])
  {
    hide IsSpace;
    if s != "" && IsSpace(s[0]) {
      a := TrimStartCuts(s[1..]);
      a := [s[0]] + a;
    } else {
      a := "";
    }
  }

  lemma {:induction false} TrimEndCuts(s: string) returns (b: string)
    ensures s == TrimEnd(s) + b && AllSpaces(b)
    ensures TrimEnd(s) != "" ==> !IsSpace(TrimEnd(s)[|TrimEnd(s)| - 1])
  {
    hide IsSpace;
    if s != "" && IsSpace(s[|s| - 1]) {
      b := TrimEndCuts(s[..|s| - 1]);
      b := b + [s[|s| - 1]];
    } else {
      b := "";
    }
  }

  /** Trimming takes off the spaces at both ends, all of them, and nothing else. */
  lemma TrimCuts(s: string) returns (a: string, b: string)
    ensures s == a + Trim(s) + b && AllSpaces(a) && AllSpaces(b)
    ensures Trim(s) != "" ==> !IsSpace(Trim(s)[0]) && !IsSpace(Trim(s)[|Trim(s)| - 1])
  {
    hide IsSpace, AllSpaces, TrimStart, TrimEnd;
    a := TrimStartCuts(s);
    b := TrimEndCuts(TrimStart(s));
    assert Trim(s) != "" ==> Trim(s)[0] == TrimStart(s)[0];
  }

  lemma StartsWithIff(s: string, p: string)
    ensures StartsWith(s, p) <==> exists r :: s == p + r
  {
    if StartsWith(s, p) {
      assert s == p + s[|p|..];
    }
  }

  lemma EndsWithIff(s: string, p: string)
    ensures EndsWith(s, p) <==> exists r :: s == r + p
  {
    if EndsWith(s, p) {
      assert s == s[..|s| - |p|] + p;
    }
  }

  lemma WebUrlIff(url: string)
    ensures IsWebUrl(url) <==> exists r :: url == "http://" + r || url == "https://" + r
  {
    if StartsWith(url, "http://") {
      assert url == "http://" + url[7..];
    }
    if StartsWith(url, "https://") {
      assert url == "https://" + url[8..];
    }
  }

  /** The 25 characters that Unicode lists as White_Space. */
  lemma SpacesAre(c: char)
    ensures IsSpace(c) <==>
      c as int in {0x9, 0xA, 0xB, 0xC, 0xD, 0x20, 0x85, 0xA0, 0x1680, 0x2000, 0x2001, 0x2002, 0x2003, 0x2004, 0x2005,
                   0x2006, 0x2007, 0x2008, 0x2009, 0x200A, 0x2028, 0x2029, 0x202F, 0x205F, 0x3000}
  {
  }

  // ---------------------------------------------------------------------------------------------------------------
  // Decimal text
  // ---------------------------------------------------------------------------------------------------------------

  function Decimal(n: nat): string {
    if n < 10 then ['0' + n as char] else Decimal(n / 10) + ['0' + (n % 10) as char]
  }
}
