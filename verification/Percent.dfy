/**
 Percent-encoding as section 2.1 of RFC 3986 has it, with '+' for a space: the encoder of the address bar and the
 decoder of the internal pages.
 */
module Percent {
  import opened Words
  import opened Wrappers
  import Utf8

  /** The unreserved characters of section 2.3 of RFC 3986. */
  predicate Unreserved(b: int) {
    || 'A' as int <= b <= 'Z' as int || 'a' as int <= b <= 'z' as int || '0' as int <= b <= '9' as int
    || b == '-' as int || b == '_' as int || b == '.' as int || b == '~' as int
  }

  function UpperDigit(n: nat): char
    requires n < 16
  {
    if n < 10 then '0' + n as char else 'A' + (n - 10) as char
  }

  function EncodeByte(b: byte): string {
    if Unreserved(b) then [b as char]
    else if b == ' ' as int then "+"
    else ['%', UpperDigit(b / 16), UpperDigit(b % 16)]
  }

  function EncodeBytes(b: seq<byte>): string {
    if b == [] then "" else EncodeByte(b[0]) + EncodeBytes(b[1..])
  }

  /** `urlencoding_lite`: a loop over the bytes of the text. */
  method UrlencodingLite(s: string) returns (out: string)
    ensures out == Encoded(s)
  {
    hide EncodeBytes, Utf8.Encode;
    var bytes := Utf8.Encode(s);
    out := "";
    assert bytes[0..] == bytes;
    for i := 0 to |bytes|
      invariant out + EncodeBytes(bytes[i..]) == EncodeBytes(bytes)
    {
      EncodeStep(bytes, i);
      var b := bytes[i];
      if Unreserved(b) {
        out := out + [b as char];
      } else if b == ' ' as int {
        out := out + "+";
      } else {
        out := out + ['%', UpperDigit(b / 16), UpperDigit(b % 16)];
      }
    }
    EncodeNothing();
    assert bytes[|bytes|..] == [];
  }

  lemma EncodeStep(bytes: seq<byte>, i: nat)
    requires i < |bytes|
    ensures EncodeBytes(bytes[i..]) == EncodeByte(bytes[i]) + EncodeBytes(bytes[i + 1..])
  {
    hide EncodeByte;
    assert bytes[i..][1..] == bytes[i + 1..];
  }

  lemma EncodeNothing()
    ensures EncodeBytes([]) == ""
  {
  }

  function Encoded(s: string): string {
    EncodeBytes(Utf8.Encode(s))
  }

  function Nibble(b: byte): (r: Option<nat>)
    ensures r.Some? ==> r.value < 16
  {
    if '0' as int <= b <= '9' as int then Some(b - '0' as int)
    else if 'a' as int <= b <= 'f' as int then Some(b - 'a' as int + 10)
    else if 'A' as int <= b <= 'F' as int then Some(b - 'A' as int + 10)
    else None
  }

  const PLUS: byte := '+' as int
  const SPACE: byte := ' ' as int
  const PERCENT: byte := '%' as int

  /** A '%' and two hexadecimal digits, in either case. */
  predicate IsEscape(b: seq<byte>) {
    |b| > 2 && b[0] == PERCENT && Nibble(b[1]).Some? && Nibble(b[2]).Some?
  }

  /** What the decoder reads off the front of `b`: one byte, and how far it moves on. */
  function First(b: seq<byte>): byte
    requires b != []
  {
    if b[0] == PLUS then SPACE
    else if IsEscape(b) then 16 * Nibble(b[1]).value + Nibble(b[2]).value
    else b[0]
  }

  function Width(b: seq<byte>): nat {
    if IsEscape(b) then 3 else 1
  }

  function DecodeBytes(b: seq<byte>): (r: seq<byte>)
    ensures |r| <= |b|
    decreases |b|
  {
    if b == [] then [] else [First(b)] + DecodeBytes(b[Width(b)..])
  }

  lemma DecodeStep(bytes: seq<byte>, i: nat)
    requires i < |bytes|
    ensures i + Width(bytes[i..]) <= |bytes|
    ensures DecodeBytes(bytes[i..]) == [First(bytes[i..])] + DecodeBytes(bytes[i + Width(bytes[i..])..])
  {
    var b := bytes[i..];
    assert b[Width(b)..] == bytes[i + Width(b)..];
  }

  /** What the decoder makes of a text; bytes that are no text become replacement characters. */
  function Decoded(s: string): string {
    Utf8.Lossy(DecodeBytes(Utf8.Encode(s)))
  }

  /** `urlencoding_decode`: an index runs over the bytes. */
  method UrlencodingDecode(s: string) returns (text: string)
    ensures text == Decoded(s)
  {
    hide DecodeBytes, Utf8.Encode, First, IsEscape, Nibble;
    var bytes := Utf8.Encode(s);
    var out := [];
    var i := 0;
    assert bytes[0..] == bytes;
    while i < |bytes|
      invariant 0 <= i <= |bytes|
      invariant out + DecodeBytes(bytes[i..]) == DecodeBytes(bytes)
    {
      DecodeStep(bytes, i);
      DecodeHead(bytes, i);
      if bytes[i] == PLUS {
        out, i := out + [SPACE], i + 1;
      } else if bytes[i] == PERCENT && i + 2 < |bytes| {
        match (Nibble(bytes[i + 1]), Nibble(bytes[i + 2])) {
          case (Some(a), Some(b)) => out, i := out + [16 * a + b], i + 3;
          case _ => out, i := out + [bytes[i]], i + 1;
        }
      } else {
        out, i := out + [bytes[i]], i + 1;
      }
    }
    DecodeNothing();
    assert bytes[i..] == [] && out + [] == out;
    return Utf8.Lossy(out);
  }

  lemma DecodeNothing()
    ensures DecodeBytes([]) == []
  {
  }

  /** The decoder's branches, by index. */
  lemma DecodeHead(bytes: seq<byte>, i: nat)
    requires i < |bytes|
    ensures IsEscape(bytes[i..]) <==>
            bytes[i] == PERCENT && i + 2 < |bytes| && Nibble(bytes[i + 1]).Some? && Nibble(bytes[i + 2]).Some?
    ensures First(bytes[i..]) ==
            if bytes[i] == PLUS then SPACE
            else if IsEscape(bytes[i..]) then 16 * Nibble(bytes[i + 1]).value + Nibble(bytes[i + 2]).value
            else bytes[i]
  {
    hide Nibble;
  }

  // ---------------------------------------------------------------------------------------------------------------
  // The round trip
  // ---------------------------------------------------------------------------------------------------------------

  /** The bytes of an ASCII text are its characters. */
  predicate Ascii(s: string) {
    forall i :: 0 <= i < |s| ==> s[i] < '\U{80}'
  }

  lemma {:induction false} AsciiBytes(s: string)
    requires Ascii(s)
    ensures |Utf8.Encode(s)| == |s|
    ensures forall i :: 0 <= i < |s| ==> Utf8.Encode(s)[i] == s[i] as int
  {
    if s != "" {
      AsciiBytes(s[1..]);
      var rest := Utf8.Encode(s[1..]);
      assert Utf8.Encode(s) == [s[0] as int] + rest;
    }
  }

  /** What a digit of an escape is worth: its place among the sixteen, in either case. */
  lemma NibbleWorth(b: byte, n: nat)
    requires n < 16
    ensures Nibble(b) == Some(n) <==> b == "0123456789abcdef"[n] as int || b == "0123456789ABCDEF"[n] as int
  {
  }

  /** An escape decodes alike in either case, the first digit counting sixteen times; what is none stays as it is. */
  lemma EscapeIsRead(high: byte, low: byte, m: nat, n: nat, rest: seq<byte>)
    requires m < 16 && n < 16
    requires high == "0123456789abcdef"[m] as int || high == "0123456789ABCDEF"[m] as int
    requires low == "0123456789abcdef"[n] as int || low == "0123456789ABCDEF"[n] as int
    ensures DecodeBytes(['%' as int, high, low] + rest) == [16 * m + n] + DecodeBytes(rest)
  {
    NibbleWorth(high, m);
    NibbleWorth(low, n);
    EscapeOf(high, low, m, n, rest);
  }

  lemma EscapeOf(high: byte, low: byte, m: nat, n: nat, rest: seq<byte>)
    requires m < 16 && n < 16 && Nibble(high) == Some(m) && Nibble(low) == Some(n)
    ensures DecodeBytes(['%' as int, high, low] + rest) == [16 * m + n] + DecodeBytes(rest)
  {
    hide Nibble;
    var b := ['%' as int, high, low] + rest;
    assert b[3..] == rest && b[0..] == b;
    DecodeStep(b, 0);
  }

  /** The 66 characters of section 2.3 of RFC 3986, and no other byte. */
  lemma UnreservedAre(b: byte)
    ensures Unreserved(b) <==>
      b < 128 && b as char in "ABCDEFGHIJKLMNOPQRSTUVWXYZ" + "abcdefghijklmnopqrstuvwxyz" + "0123456789" + "-._~"
  {
    Uppers(b);
    Lowers(b);
    Numerals(b);
  }

  lemma Uppers(b: byte)
    ensures b < 128 && b as char in "ABCDEFGHIJKLMNOPQRSTUVWXYZ" <==> 'A' as int <= b <= 'Z' as int
  {
    var all := "ABCDEFGHIJKLMNOPQRSTUVWXYZ";
    assert forall i :: 0 <= i < 26 ==> all[i] as int == 'A' as int + i;
    if 'A' as int <= b <= 'Z' as int {
      assert all[b - 'A' as int] == b as char;
    }
  }

  lemma Lowers(b: byte)
    ensures b < 128 && b as char in "abcdefghijklmnopqrstuvwxyz" <==> 'a' as int <= b <= 'z' as int
  {
    var all := "abcdefghijklmnopqrstuvwxyz";
    assert forall i :: 0 <= i < 26 ==> all[i] as int == 'a' as int + i;
    if 'a' as int <= b <= 'z' as int {
      assert all[b - 'a' as int] == b as char;
    }
  }

  lemma Numerals(b: byte)
    ensures b < 128 && b as char in "0123456789" <==> '0' as int <= b <= '9' as int
  {
    var all := "0123456789";
    assert forall i :: 0 <= i < 10 ==> all[i] as int == '0' as int + i;
    if '0' as int <= b <= '9' as int {
      assert all[b - '0' as int] == b as char;
    }
  }

  lemma UpperDigitNibble(n: nat)
    requires n < 16
    ensures UpperDigit(n) < '\U{80}' && Nibble(UpperDigit(n) as int) == Some(n)
  {
  }

  /** An encoded byte followed by anything decodes to that byte and leaves the rest. */
  lemma DecodeEncodedByte(b: byte, rest: seq<byte>)
    ensures Ascii(EncodeByte(b))
    ensures DecodeBytes(Utf8.Encode(EncodeByte(b)) + rest) == [b] + DecodeBytes(rest)
  {
    hide DecodeBytes, Utf8.Encode, Utf8.EncodeChar;
    UpperDigitNibble(b / 16);
    UpperDigitNibble(b % 16);
    AsciiBytes(EncodeByte(b));
    var e := Utf8.Encode(EncodeByte(b));
    var all := e + rest;
    assert First(all) == b && Width(all) == |e|;
    assert all[0..] == all && all[|e|..] == rest;
    DecodeStep(all, 0);
  }

  lemma {:induction false} DecodeEncodeBytes(b: seq<byte>)
    ensures DecodeBytes(Utf8.Encode(EncodeBytes(b))) == b
  {
    if b != [] {
      hide DecodeBytes, Utf8.Encode, EncodeByte;
      DecodeEncodeBytes(b[1..]);
      Utf8.EncodeAppend(EncodeByte(b[0]), EncodeBytes(b[1..]));
      DecodeEncodedByte(b[0], Utf8.Encode(EncodeBytes(b[1..])));
      assert b == [b[0]] + b[1..];
    } else {
      assert Utf8.Encode("") == [] && DecodeBytes([]) == [];
    }
  }

  /** Decoding gives every text back, and gives it back as text. */
  lemma RoundTrip(s: string)
    ensures DecodeBytes(Utf8.Encode(Encoded(s))) == Utf8.Encode(s)
    ensures Decoded(Encoded(s)) == s
  {
    DecodeEncodeBytes(Utf8.Encode(s));
    Utf8.DecodeEncode(s);
    Utf8.LossyKeepsText(Utf8.Encode(s));
  }

  // ---------------------------------------------------------------------------------------------------------------
  // The handlers' own pass over '+'
  // ---------------------------------------------------------------------------------------------------------------

  /** `replace("+", " ")`. */
  function SpacesForPluses(s: string): string {
    if s == "" then "" else [if s[0] == '+' then ' ' else s[0]] + SpacesForPluses(s[1..])
  }

  function ByteSpaces(b: seq<byte>): (r: seq<byte>)
    ensures |r| == |b| && forall i :: 0 <= i < |b| ==> r[i] == if b[i] == PLUS then SPACE else b[i]
  {
    if b == [] then [] else [if b[0] == PLUS then SPACE else b[0]] + ByteSpaces(b[1..])
  }

  lemma {:induction false} ByteSpacesAppend(a: seq<byte>, b: seq<byte>)
    ensures ByteSpaces(a + b) == ByteSpaces(a) + ByteSpaces(b)
  {
  }

  lemma {:induction false} SpacesAreBytes(s: string)
    ensures Utf8.Encode(SpacesForPluses(s)) == ByteSpaces(Utf8.Encode(s))
  {
    if s != "" {
      hide ByteSpaces;
      SpacesAreBytes(s[1..]);
      ByteSpacesAppend(Utf8.EncodeChar(s[0]), Utf8.Encode(s[1..]));
      var c := if s[0] == '+' then ' ' else s[0];
      Utf8.EncodeCons(c, SpacesForPluses(s[1..]));
      CharSpaces(s[0]);
    }
  }

  lemma CharSpaces(c: char)
    ensures Utf8.EncodeChar(if c == '+' then ' ' else c) == ByteSpaces(Utf8.EncodeChar(c))
  {
  }

  lemma FirstAfterSpaces(b: seq<byte>)
    requires b != []
    ensures First(ByteSpaces(b)) == First(b) && Width(ByteSpaces(b)) == Width(b)
  {
  }

  lemma {:induction false} DecodeAfterSpaces(b: seq<byte>)
    ensures DecodeBytes(ByteSpaces(b)) == DecodeBytes(b)
    decreases |b|
  {
    if b != [] {
      hide First, Width, IsEscape;
      FirstAfterSpaces(b);
      DecodeStep(b, 0);
      assert b[0..] == b;
      DecodeAfterSpaces(b[Width(b)..]);
      assert ByteSpaces(b)[Width(b)..] == ByteSpaces(b[Width(b)..]);
    }
  }

  /** Replacing '+' beforehand changes no decoding, of any text; so the round trip holds after it too. */
  lemma PrePassChangesNothing(s: string)
    ensures Decoded(SpacesForPluses(s)) == Decoded(s)
  {
    SpacesAreBytes(s);
    DecodeAfterSpaces(Utf8.Encode(s));
  }

  // ---------------------------------------------------------------------------------------------------------------
  // The decoder never lengthens
  // ---------------------------------------------------------------------------------------------------------------

  /** What the decoder sees in a text: characters as they stand, and escaped bytes. */
  datatype Token = Raw(c: char) | Escaped(b: byte)

  predicate EscapeAhead(s: string) {
    |s| > 2 && s[0] == '%' && IsHex(s[1]) && IsHex(s[2])
  }

  predicate IsHex(c: char) {
    c < '\U{80}' && Nibble(c as int).Some?
  }

  function Tokens(s: string): seq<Token> {
    if s == "" then []
    else if EscapeAhead(s) then
      [Escaped(16 * Nibble(s[1] as int).value + Nibble(s[2] as int).value)] + Tokens(s[3..])
    else [Raw(if s[0] == '+' then ' ' else s[0])] + Tokens(s[1..])
  }

  function TokenBytes(t: Token): (b: seq<byte>)
    ensures b != []
  {
    match t
    case Raw(c) => Utf8.EncodeChar(c)
    case Escaped(b) => [b]
  }

  function AllBytes(ts: seq<Token>): seq<byte> {
    if ts == [] then [] else TokenBytes(ts[0]) + AllBytes(ts[1..])
  }

  /** The bytes of the input behind the tokens. */
  function Weight(ts: seq<Token>): nat {
    if ts == [] then 0
    else (if ts[0].Escaped? then 3 else |TokenBytes(ts[0])|) + Weight(ts[1..])
  }

  /** Bytes that are neither '%' nor '+' pass the decoder unchanged. */
  lemma {:induction false} PlainBytes(a: seq<byte>, rest: seq<byte>)
    requires forall k :: 0 <= k < |a| ==> a[k] != PERCENT && a[k] != PLUS
    ensures DecodeBytes(a + rest) == a + DecodeBytes(rest)
  {
    if a == [] {
      assert a + rest == rest;
    } else {
      assert (a + rest)[1..] == a[1..] + rest;
      PlainBytes(a[1..], rest);
    }
  }

  lemma EscapeBytes(s: string)
    requires EscapeAhead(s)
    ensures Utf8.Encode(s) == [PERCENT, s[1] as int, s[2] as int] + Utf8.Encode(s[3..])
  {
    var head := s[..3];
    assert s == head + s[3..];
    Utf8.EncodeAppend(head, s[3..]);
    AsciiBytes(head);
    assert Utf8.Encode(head) == [PERCENT, s[1] as int, s[2] as int];
  }

  lemma DecodeAt(b: seq<byte>)
    requires b != []
    ensures Width(b) <= |b| && DecodeBytes(b) == [First(b)] + DecodeBytes(b[Width(b)..])
  {
  }

  lemma EscapeDecodes(s: string)
    requires EscapeAhead(s)
    ensures DecodeBytes(Utf8.Encode(s))
            == [16 * Nibble(s[1] as int).value + Nibble(s[2] as int).value] + DecodeBytes(Utf8.Encode(s[3..]))
    ensures |Utf8.Encode(s)| == 3 + |Utf8.Encode(s[3..])|
  {
    hide DecodeBytes, Utf8.Encode, Nibble;
    EscapeBytes(s);
    var b := Utf8.Encode(s);
    assert b[3..] == Utf8.Encode(s[3..]);
    DecodeAt(b);
  }

  /** The first bytes of a text are its first characters, as long as they are ASCII. */
  lemma AsciiAhead(s: string, k: nat)
    requires k < |Utf8.Encode(s)| && forall i :: 0 <= i < k ==> Utf8.Encode(s)[i] < 0x80
    ensures k < |s| && (Utf8.Encode(s)[k] < 0x80 ==> s[k] as int == Utf8.Encode(s)[k])
    ensures forall i :: 0 <= i < k ==> s[i] as int == Utf8.Encode(s)[i]
    decreases k
  {
    var rest := Utf8.Encode(s[1..]);
    assert Utf8.Encode(s) == Utf8.EncodeChar(s[0]) + rest;
    if k > 0 {
      assert Utf8.Encode(s)[0] < 0x80;
      assert forall i :: 0 <= i < |rest| ==> Utf8.Encode(s)[i + 1] == rest[i];
      AsciiAhead(s[1..], k - 1);
    }
  }

  lemma NoEscapeAhead(s: string)
    requires s != "" && !EscapeAhead(s)
    ensures !IsEscape(Utf8.Encode(s))
  {
    var b := Utf8.Encode(s);
    hide Utf8.Encode;
    if IsEscape(b) {
      AsciiAhead(s, 2);
    }
  }

  lemma RawDecodes(s: string)
    requires s != "" && !EscapeAhead(s)
    ensures DecodeBytes(Utf8.Encode(s))
            == Utf8.EncodeChar(if s[0] == '+' then ' ' else s[0]) + DecodeBytes(Utf8.Encode(s[1..]))
    ensures |Utf8.Encode(s)| == |Utf8.EncodeChar(if s[0] == '+' then ' ' else s[0])| + |Utf8.Encode(s[1..])|
  {
    NoEscapeAhead(s);
    Utf8.EncodeCons(s[0], s[1..]);
    assert s == [s[0]] + s[1..];
    hide Utf8.Encode, IsEscape, DecodeBytes;
    var b, rest := Utf8.Encode(s), Utf8.Encode(s[1..]);
    if s[0] < '\U{80}' {
      assert b[1..] == rest;
      DecodeAt(b);
    } else {
      PlainBytes(Utf8.EncodeChar(s[0]), rest);
    }
  }

  lemma {:induction false} TokensDecode(s: string)
    ensures DecodeBytes(Utf8.Encode(s)) == AllBytes(Tokens(s)) && |Utf8.Encode(s)| == Weight(Tokens(s))
    decreases |s|
  {
    if s == "" {
      assert Utf8.Encode(s) == [] && DecodeBytes([]) == [];
    } else {
      hide DecodeBytes, Utf8.Encode, Utf8.EncodeChar, EscapeAhead, Nibble;
      if EscapeAhead(s) {
        EscapeIsLong(s);
        EscapeDecodes(s);
        TokensDecode(s[3..]);
        assert Tokens(s)[1..] == Tokens(s[3..]);
      } else {
        RawDecodes(s);
        TokensDecode(s[1..]);
        assert Tokens(s)[1..] == Tokens(s[1..]);
      }
    }
  }

  lemma EscapeIsLong(s: string)
    requires EscapeAhead(s)
    ensures |s| > 2 && IsHex(s[1]) && IsHex(s[2])
    ensures Nibble(s[1] as int).Some? && Nibble(s[2] as int).Some?
  {
  }

  lemma StartsFresh(c: char)
    ensures !Utf8.Continues(Utf8.EncodeChar(c)[0])
  {
  }

  /** Continuation bytes at the front are all escaped: a character as it stands does not begin with one. */
  lemma {:induction false} EscapesAhead(ts: seq<Token>, n: nat)
    requires n <= |AllBytes(ts)| && forall k :: 0 <= k < n ==> Utf8.Continues(AllBytes(ts)[k])
    ensures n <= |ts| && AllBytes(ts)[n..] == AllBytes(ts[n..]) && Weight(ts) == 3 * n + Weight(ts[n..])
  {
    if n == 0 {
      assert ts[0..] == ts;
    } else {
      hide TokenBytes;
      var rest := AllBytes(ts[1..]);
      FirstIsEscaped(ts);
      assert AllBytes(ts) == [ts[0].b] + rest;
      assert forall k :: 0 <= k < n - 1 ==> rest[k] == AllBytes(ts)[k + 1];
      EscapesAhead(ts[1..], n - 1);
      assert ts[1..][n - 1..] == ts[n..];
      assert AllBytes(ts)[n..] == rest[n - 1..];
    }
  }

  lemma FirstIsEscaped(ts: seq<Token>)
    requires AllBytes(ts) != [] && Utf8.Continues(AllBytes(ts)[0])
    ensures ts != [] && ts[0].Escaped? && TokenBytes(ts[0]) == [ts[0].b]
  {
    hide Utf8.EncodeChar;
    assert AllBytes(ts)[0] == TokenBytes(ts[0])[0];
    if ts[0].Raw? {
      StartsFresh(ts[0].c);
    }
  }

  /** A piece of `n` bytes that begins with an escaped byte, the others continuing it, is made of escaped bytes only. */
  lemma PieceIsEscaped(ts: seq<Token>, n: nat)
    requires ts != [] && ts[0].Escaped? && 1 <= n <= |AllBytes(ts)|
    requires forall k :: 1 <= k < n ==> Utf8.Continues(AllBytes(ts)[k])
    ensures n <= |ts| && AllBytes(ts)[n..] == AllBytes(ts[n..]) && Weight(ts) == 3 * n + Weight(ts[n..])
  {
    var rest := AllBytes(ts[1..]);
    assert AllBytes(ts) == [ts[0].b] + rest;
    assert forall k :: 0 <= k < n - 1 ==> rest[k] == AllBytes(ts)[k + 1];
    EscapesAhead(ts[1..], n - 1);
    assert ts[1..][n - 1..] == ts[n..];
    assert AllBytes(ts)[n..] == rest[n - 1..];
  }

  lemma ReplacementIsThree()
    ensures |Utf8.EncodeChar('\U{FFFD}')| == 3
  {
  }

  lemma {:induction false} LossyFits(ts: seq<Token>)
    ensures |Utf8.Encode(Utf8.Lossy(AllBytes(ts)))| <= Weight(ts)
    decreases |ts|
  {
    if ts == [] {
      assert Utf8.Encode("") == [];
    } else {
      hide Utf8.DecodeChar, Utf8.BadLength, Utf8.EncodeChar, Utf8.Encode, TokenBytes, AllBytes, Weight, Utf8.Lossy;
      if ts[0].Raw? {
        RawFits(ts);
        LossyFits(ts[1..]);
      } else {
        var n := PieceFits(ts);
        LossyFits(ts[n..]);
      }
    }
  }

  lemma RawFits(ts: seq<Token>)
    requires ts != [] && ts[0].Raw?
    ensures |Utf8.Encode(Utf8.Lossy(AllBytes(ts)))| - Weight(ts)
            == |Utf8.Encode(Utf8.Lossy(AllBytes(ts[1..])))| - Weight(ts[1..])
  {
    hide Utf8.DecodeChar, Utf8.EncodeChar, Utf8.Encode;
    var e, rest := Utf8.EncodeChar(ts[0].c), AllBytes(ts[1..]);
    assert AllBytes(ts) == e + rest;
    Utf8.DecodeCharEncode(ts[0].c, rest);
    assert (e + rest)[|e|..] == rest;
    Utf8.EncodeCons(ts[0].c, Utf8.Lossy(rest));
  }

  lemma PieceFits(ts: seq<Token>) returns (n: nat)
    requires ts != [] && ts[0].Escaped?
    ensures 1 <= n <= |ts|
    ensures |Utf8.Encode(Utf8.Lossy(AllBytes(ts)))| - Weight(ts)
            <= |Utf8.Encode(Utf8.Lossy(AllBytes(ts[n..])))| - Weight(ts[n..])
  {
    var b := AllBytes(ts);
    assert b != [] by {
      assert b == TokenBytes(ts[0]) + AllBytes(ts[1..]);
    }
    hide Utf8.DecodeChar, Utf8.EncodeChar, Utf8.Encode, AllBytes, Weight, TokenBytes;
    if Utf8.DecodeChar(b).Some? {
      var first := Utf8.DecodeChar(b).value;
      n := first.len;
      Utf8.CharContinues(b);
      Utf8.EncodeCharDecode(b);
      PieceIsEscaped(ts, n);
      Utf8.EncodeCons(first.c, Utf8.Lossy(b[n..]));
    } else {
      n := Utf8.BadLength(b);
      PieceIsEscaped(ts, n);
      ReplacementIsThree();
      Utf8.EncodeCons('\U{FFFD}', Utf8.Lossy(b[n..]));
    }
  }

  /**
   The decoder never lengthens: the bytes of the text it returns, replacement characters of three bytes included, are no
   more than those of the text it was given.
   */
  lemma NeverLengthens(s: string)
    ensures |Utf8.Encode(Decoded(s))| <= |Utf8.Encode(s)|
  {
    TokensDecode(s);
    LossyFits(Tokens(s));
  }

  // ---------------------------------------------------------------------------------------------------------------
  // What the encoder puts out
  // ---------------------------------------------------------------------------------------------------------------

  /** Encoder output: unreserved characters, '+', and '%' with two upper-case digits. */
  predicate WellEncoded(s: string) {
    s == "" ||
    (if s[0] == '%' then |s| > 2 && UpperHex(s[1]) && UpperHex(s[2]) && WellEncoded(s[3..])
     else (s[0] == '+' || Unreserved(s[0] as int)) && WellEncoded(s[1..]))
  }

  predicate UpperHex(c: char) {
    '0' <= c <= '9' || 'A' <= c <= 'F'
  }

  lemma {:induction false} EncoderAlphabet(b: seq<byte>)
    ensures WellEncoded(EncodeBytes(b))
  {
    if b != [] {
      EncoderAlphabet(b[1..]);
      var e, rest := EncodeByte(b[0]), EncodeBytes(b[1..]);
      assert EncodeBytes(b)[|e|..] == rest;
    }
  }

  lemma {:induction false} WellEncodedHasNoMark(s: string)
    requires WellEncoded(s)
    ensures '?' !in s
    decreases |s|
  {
    if s != "" {
      if s[0] == '%' {
        assert s == [s[0], s[1], s[2]] + s[3..];
        WellEncodedHasNoMark(s[3..]);
      } else {
        assert s == [s[0]] + s[1..];
        WellEncodedHasNoMark(s[1..]);
      }
    }
  }

  predicate AllUnreserved(s: string) {
    forall i :: 0 <= i < |s| ==> Unreserved(s[i] as int)
  }

  lemma {:induction false} EncodeNoShorter(b: seq<byte>)
    ensures |EncodeBytes(b)| >= |b|
  {
    if b != [] {
      EncodeNoShorter(b[1..]);
    }
  }

  lemma {:induction false} EncodeBytesAppend(a: seq<byte>, b: seq<byte>)
    ensures EncodeBytes(a + b) == EncodeBytes(a) + EncodeBytes(b)
  {
    if a == [] {
      assert a + b == b;
    } else {
      assert (a + b)[1..] == a[1..] + b;
      EncodeBytesAppend(a[1..], b);
    }
  }

  lemma EncodedCons(s: string)
    requires s != ""
    ensures Encoded(s) == EncodeBytes(Utf8.EncodeChar(s[0])) + Encoded(s[1..])
    ensures Unreserved(s[0] as int) ==> EncodeBytes(Utf8.EncodeChar(s[0])) == [s[0]]
    ensures s[0] == ' ' ==> EncodeBytes(Utf8.EncodeChar(s[0])) == "+"
    ensures !Unreserved(s[0] as int) && s[0] != ' ' ==> |EncodeBytes(Utf8.EncodeChar(s[0]))| >= 3
  {
    EncodeBytesAppend(Utf8.EncodeChar(s[0]), Utf8.Encode(s[1..]));
  }

  lemma AllUnreservedCons(s: string)
    requires s != ""
    ensures AllUnreserved(s) <==> Unreserved(s[0] as int) && AllUnreserved(s[1..])
  {
    hide Unreserved;
    assert s == [s[0]] + s[1..];
  }

  lemma {:induction false} EncodedIsIdentityIff(s: string)
    ensures Encoded(s) == s <==> AllUnreserved(s)
  {
    if s == "" {
      assert Encoded("") == "";
    } else {
      hide Encoded, EncodeBytes, Unreserved, AllUnreserved, Utf8.Encode, Utf8.EncodeChar;
      EncodedCons(s);
      EncodedNoShorter(s[1..]);
      AllUnreservedCons(s);
      EncodedIsIdentityIff(s[1..]);
      if Unreserved(s[0] as int) {
        assert Encoded(s)[1..] == Encoded(s[1..]);
        assert s == [s[0]] + s[1..];
      } else if s[0] == ' ' {
        assert Encoded(s)[0] == '+';
      }
    }
  }

  lemma EncodedNoShorter(s: string)
    ensures |Encoded(s)| >= |s|
  {
    EncodeNoShorter(Utf8.Encode(s));
    Utf8.EncodeNoShorter(s);
  }
}
