/**
 Escaping by whole-text replaces, as the pages do it: four in a row with quotes, three without. The order matters: the
 ampersand goes first, or the later replacements would be escaped again.
 */
module Html {
  import opened Text

  /** `replace` of one character. */
  function Replace(s: string, c: char, entity: string): string {
    if s == "" then "" else (if s[0] == c then entity else [s[0]]) + Replace(s[1..], c, entity)
  }

  /** The chains of replaces: with the one for quotes, or without. */
  function Escape(s: string, quotes: bool): string {
    var three := Replace(Replace(Replace(s, '&', "&amp;"), '<', "&lt;"), '>', "&gt;");
    if quotes then Replace(three, '"', "&quot;") else three
  }

  /** One pass that treats each character on its own. */
  function Entity(c: char, quotes: bool): string {
    if c == '&' then "&amp;"
    else if c == '<' then "&lt;"
    else if c == '>' then "&gt;"
    else if c == '"' && quotes then "&quot;"
    else [c]
  }

  function CharWise(s: string, quotes: bool): string {
    if s == "" then "" else Entity(s[0], quotes) + CharWise(s[1..], quotes)
  }

  lemma {:induction false} ReplaceAppend(a: string, b: string, c: char, entity: string)
    ensures Replace(a + b, c, entity) == Replace(a, c, entity) + Replace(b, c, entity)
  {
    if a == "" {
      assert a + b == b;
    } else {
      assert (a + b)[1..] == a[1..] + b;
      ReplaceAppend(a[1..], b, c, entity);
    }
  }

  lemma {:induction false} ReplaceAbsent(s: string, c: char, entity: string)
    requires c !in s
    ensures Replace(s, c, entity) == s
  {
    if s != "" {
      assert s == [s[0]] + s[1..];
      ReplaceAbsent(s[1..], c, entity);
    }
  }

  lemma ReplaceOne(x: char, c: char, entity: string)
    ensures Replace([x], c, entity) == if x == c then entity else [x]
  {
    assert [x][1..] == "";
  }

  lemma EscapeAppend(a: string, b: string, quotes: bool)
    ensures Escape(a + b, quotes) == Escape(a, quotes) + Escape(b, quotes)
  {
    hide Replace;
    ReplaceAppend(a, b, '&', "&amp;");
    var a1, b1 := Replace(a, '&', "&amp;"), Replace(b, '&', "&amp;");
    ReplaceAppend(a1, b1, '<', "&lt;");
    var a2, b2 := Replace(a1, '<', "&lt;"), Replace(b1, '<', "&lt;");
    ReplaceAppend(a2, b2, '>', "&gt;");
    ReplaceAppend(Replace(a2, '>', "&gt;"), Replace(b2, '>', "&gt;"), '"', "&quot;");
  }

  /** Through the chain, a character becomes its entity: no pass touches what an earlier one put in. */
  lemma EscapeOne(x: char, quotes: bool)
    ensures Escape([x], quotes) == Entity(x, quotes)
  {
    hide Replace;
    ReplaceOne(x, '&', "&amp;");
    ReplaceOne(x, '<', "&lt;");
    ReplaceOne(x, '>', "&gt;");
    ReplaceOne(x, '"', "&quot;");
    if x == '&' {
      ReplaceAbsent("&amp;", '<', "&lt;");
      ReplaceAbsent("&amp;", '>', "&gt;");
      ReplaceAbsent("&amp;", '"', "&quot;");
    } else if x == '<' {
      ReplaceAbsent("&lt;", '>', "&gt;");
      ReplaceAbsent("&lt;", '"', "&quot;");
    } else if x == '>' {
      ReplaceAbsent("&gt;", '"', "&quot;");
    }
  }

  lemma {:induction false} EscapeIsCharWise(s: string, quotes: bool)
    ensures Escape(s, quotes) == CharWise(s, quotes)
  {
    if s != "" {
      hide Escape, Entity;
      assert s == [s[0]] + s[1..];
      EscapeAppend([s[0]], s[1..], quotes);
      EscapeOne(s[0], quotes);
      EscapeIsCharWise(s[1..], quotes);
    }
  }

  lemma {:induction false} CharWiseHasNoRaw(s: string, quotes: bool)
    ensures '<' !in CharWise(s, quotes) && '>' !in CharWise(s, quotes)
    ensures '"' in CharWise(s, quotes) <==> !quotes && '"' in s
  {
    if s != "" {
      CharWiseHasNoRaw(s[1..], quotes);
      assert s == [s[0]] + s[1..];
    }
  }

  /** No angle bracket survives, and a quote only where the chain has no replace for it. */
  lemma NoRaw(s: string, quotes: bool)
    ensures '<' !in Escape(s, quotes) && '>' !in Escape(s, quotes)
    ensures '"' in Escape(s, quotes) <==> !quotes && '"' in s
  {
    EscapeIsCharWise(s, quotes);
    CharWiseHasNoRaw(s, quotes);
  }

  /** A reader that replaces each entity it meets, left to right, and copies everything else. */
  function Unescape(s: string): string
    decreases |s|
  {
    if s == "" then ""
    else if StartsWith(s, "&amp;") then "&" + Unescape(s[5..])
    else if StartsWith(s, "&lt;") then "<" + Unescape(s[4..])
    else if StartsWith(s, "&gt;") then ">" + Unescape(s[4..])
    else if StartsWith(s, "&quot;") then "\"" + Unescape(s[6..])
    else [s[0]] + Unescape(s[1..])
  }

  lemma Behind(p: string, rest: string)
    ensures StartsWith(p + rest, p) && (p + rest)[|p|..] == rest
  {
  }

  lemma NotPrefix(p: string, rest: string, q: string, i: nat)
    requires i < |p| && i < |q| && p[i] != q[i]
    ensures !StartsWith(p + rest, q)
  {
    assert (p + rest)[i] == p[i];
  }

  lemma UnescapeEntity(c: char, quotes: bool, rest: string)
    ensures Unescape(Entity(c, quotes) + rest) == [c] + Unescape(rest)
  {
    hide StartsWith;
    var e := Entity(c, quotes);
    Behind(e, rest);
    if c == '<' {
      NotPrefix(e, rest, "&amp;", 1);
    } else if c == '>' {
      NotPrefix(e, rest, "&amp;", 1);
      NotPrefix(e, rest, "&lt;", 1);
    } else if c == '"' && quotes {
      NotPrefix(e, rest, "&amp;", 1);
      NotPrefix(e, rest, "&lt;", 1);
      NotPrefix(e, rest, "&gt;", 1);
    } else if c != '&' {
      NotPrefix(e, rest, "&amp;", 0);
      NotPrefix(e, rest, "&lt;", 0);
      NotPrefix(e, rest, "&gt;", 0);
      NotPrefix(e, rest, "&quot;", 0);
    }
  }

  /** Reading the escaped text gives the text back, quotes escaped or not. */
  lemma {:induction false} UnescapeEscape(s: string, quotes: bool)
    ensures Unescape(Escape(s, quotes)) == s
  {
    EscapeIsCharWise(s, quotes);
    UnescapeCharWise(s, quotes);
  }

  lemma {:induction false} UnescapeCharWise(s: string, quotes: bool)
    ensures Unescape(CharWise(s, quotes)) == s
  {
    if s != "" {
      hide Unescape, Entity;
      UnescapeCharWise(s[1..], quotes);
      UnescapeEntity(s[0], quotes, CharWise(s[1..], quotes));
      assert s == [s[0]] + s[1..];
    } else {
      assert Unescape("") == "";
    }
  }

  /** So different texts never look the same on a page. */
  lemma EscapeInjective(a: string, b: string, quotes: bool)
    requires Escape(a, quotes) == Escape(b, quotes)
    ensures a == b
  {
    UnescapeEscape(a, quotes);
    UnescapeEscape(b, quotes);
  }
}
