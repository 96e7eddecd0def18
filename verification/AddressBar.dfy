/** The address bar: what a typed text becomes, and what the internal pages make of that. */
module AddressBar {
  import opened Wrappers
  import opened Text
  import opened Messages
  import opened Percent
  import opened Dispatcher
  import opened Pages

  function TrimBars(s: string): string
    decreases |s|
  {
    if s != "" && s[0] == '|' then TrimBars(s[1..])
    else if s != "" && s[|s| - 1] == '|' then TrimBars(s[..|s| - 1])
    else s
  }

  function Typed(raw: string): string {
    TrimBars(Trim(raw))
  }

  predicate HasScheme(s: string) {
    StartsWith(s, "http://") || StartsWith(s, "https://") || StartsWith(s, "sentinel://")
  }

  const SEARCH := "sentinel://search"
  const MARK := "?q="

  function ResolveInput(raw: string): string {
    var typed := Typed(raw);
    if HasScheme(typed) then typed
    else if Contains(typed, ".") && !Contains(typed, " ") then "https://" + typed
    else SEARCH + MARK + Encoded(typed)
  }

  predicate IsSearch(raw: string) {
    !HasScheme(Typed(raw)) && (!Contains(Typed(raw), ".") || Contains(Typed(raw), " "))
  }

  /** Text put behind a separator of a fixed address comes out whole, once it is encoded. */
  lemma EncodedComesOutWhole(front: string, mark: string, text: string)
    requires mark != "" && mark[0] == '?' && '?' !in front
    ensures SecondPart(front + mark + Encoded(text), mark, "") == Encoded(text)
  {
    hide SecondPart, WellEncoded, EncodeBytes;
    EncoderAlphabet(Utf8.Encode(text));
    WellEncodedHasNoMark(Encoded(text));
    SplitOnce(front, mark, Encoded(text));
  }

  lemma SearchIsNotFixed(u: string)
    requires |u| > 13 && u[11] == 's' && u[12] == 'e' && u[13] == 'a'
    ensures FixedPage(u) == None
  {
  }

  lemma SearchRoute(text: string)
    ensures RouteOf(SEARCH + MARK + text) == DoSearch
  {
    var u := SEARCH + (MARK + text);
    assert u == SEARCH + MARK + text;
    SearchIsNotFixed(u);
    hide FixedPage, LateRoute;
    assert u[..|SEARCH|] == SEARCH;
    NotPrefix(u, "sentinel://allow_site", 11);
    NotPrefix(u, "sentinel://vote", 11);
  }

  /** A typed search reaches the search arm, which searches for the whole of the encoded text and shows the results. */
  lemma SearchIsRouted(raw: string, w: World)
    requires IsSearch(raw)
    ensures var text := Encoded(Typed(raw));
      Shows(ResolveInput(raw), w, [RunSearch(text)], SearchResults(text))
  {
    hide SecondPart, Encoded, Contains, HasScheme, RouteOf, Serve;
    var text, u := Encoded(Typed(raw)), ResolveInput(raw);
    EncodedComesOutWhole(SEARCH, MARK, Typed(raw));
    SearchRoute(text);
    DoOne(RunSearch(text));
    ShownAtOnce(u, w);
  }

  /**
   The search arm does not decode what it is sent: it searches for what was typed exactly when no character of that
   needed encoding.
   */
  lemma SearchGetsTypedIff(raw: string, w: World)
    requires IsSearch(raw)
    ensures RunSearch(Typed(raw)) in Serve(ResolveInput(raw), w, 0, None).ops <==> AllUnreserved(Typed(raw))
  {
    hide Encoded, AllUnreserved, ResolveInput, IsSearch, Serve;
    SearchIsRouted(raw, w);
    EncodedIsIdentityIff(Typed(raw));
  }

  /** Two words typed are searched for with a plus sign between them. */
  lemma SearchWitness(w: World)
    ensures Serve(ResolveInput("a b"), w, 0, None).ops == [RunSearch("a+b")]
  {
    hide Serve, EncodeBytes, Utf8.Encode;
    TypedPlainly("a b");
    NotContained("a b", ".");
    assert IsSearch("a b");
    SearchIsRouted("a b", w);
    WordsEncoded();
  }

  lemma TypedPlainly(s: string)
    requires s != "" && !IsSpace(s[0]) && !IsSpace(s[|s| - 1]) && s[0] != '|' && s[|s| - 1] != '|'
    ensures Typed(s) == s
  {
  }

  lemma WordsEncoded()
    ensures Encoded("a b") == "a+b"
  {
    hide EncodeBytes, Utf8.Encode;
    assert "a b"[1..] == " b" && " b"[1..] == "b" && "b"[1..] == "";
    EncodedCons("a b");
    EncodedCons(" b");
    EncodedCons("b");
    EncodeNothing();
    assert Utf8.Encode("") == [] by {
      Utf8.EncodeEmpty();
    }
  }

  // ---------------------------------------------------------------------------------------------------------------
  // What else is typed
  // ---------------------------------------------------------------------------------------------------------------

  /** What is typed loses the spaces around it, then the bars around that, and nothing else. */
  lemma TypedCuts(raw: string) returns (a: string, x: string, y: string, b: string)
    ensures raw == a + (x + Typed(raw) + y) + b && AllSpaces(a) && AllSpaces(b)
    ensures (forall i :: 0 <= i < |x| ==> x[i] == '|') && (forall i :: 0 <= i < |y| ==> y[i] == '|')
    ensures Typed(raw) != "" ==> Typed(raw)[0] != '|' && Typed(raw)[|Typed(raw)| - 1] != '|'
  {
    hide AllSpaces, Trim, TrimBars;
    a, b := TrimCuts(raw);
    x, y := BarsCut(Trim(raw));
  }

  lemma {:induction false} BarsCut(s: string) returns (x: string, y: string)
    ensures s == x + TrimBars(s) + y
    ensures (forall i :: 0 <= i < |x| ==> x[i] == '|') && (forall i :: 0 <= i < |y| ==> y[i] == '|')
    ensures TrimBars(s) != "" ==> TrimBars(s)[0] != '|' && TrimBars(s)[|TrimBars(s)| - 1] != '|'
    decreases |s|
  {
    if s != "" && s[0] == '|' {
      x, y := BarsCut(s[1..]);
      x := ['|'] + x;
    } else if s != "" && s[|s| - 1] == '|' {
      x, y := BarsCut(s[..|s| - 1]);
      y := y + ['|'];
    } else {
      x, y := "", "";
    }
  }

  predicate IsHost(s: string) {
    '.' in s && ' ' !in s
  }

  lemma HostIff(s: string)
    ensures IsHost(s) <==> Contains(s, ".") && !Contains(s, " ")
  {
    OneCharacter(s, '.');
    OneCharacter(s, ' ');
  }

  lemma {:induction false} OneCharacter(s: string, c: char)
    ensures Contains(s, [c]) <==> c in s
  {
    if s != "" {
      OneCharacter(s[1..], c);
      assert s[..1] == [s[0]];
    }
  }

  /** An address with a scheme the browser knows is kept; a host is reached over https; the rest is a search. */
  lemma WhatIsTyped(raw: string)
    ensures var typed, address := Typed(raw), ResolveInput(raw);
      && (address == typed <==> IsWebUrl(typed) || StartsWith(typed, "sentinel://"))
      && (address != typed && IsHost(typed) ==>
            StartsWith(address, "https://") && EndsWith(address, typed) && |address| == |typed| + 8)
      && (address != typed && !IsHost(typed) ==> IsSearch(raw) && StartsWith(address, "sentinel://search?q="))
  {
    var typed, address := Typed(raw), ResolveInput(raw);
    HostIff(typed);
    hide Contains, Encoded, Typed, IsHost;
    if IsSearch(raw) {
      var text := Encoded(typed);
      assert address == "sentinel://search?q=" + text;
      assert address[..20] == "sentinel://search?q=" && address[..11] == "sentinel://";
    } else if !HasScheme(typed) {
      assert address == "https://" + typed;
    }
    if address == typed {
      assert |typed| == |address|;
    }
  }
}
