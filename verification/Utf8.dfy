/** UTF-8, the bytes behind every text: section 3 of RFC 3629. */
module Utf8 {
  import opened Words
  import opened Wrappers

  function EncodeChar(c: char): (b: seq<byte>)
    ensures 1 <= |b| <= 4
    ensures b[0] < 0x80 <==> c < '\U{80}'
    ensures c < '\U{80}' ==> b == [c as int]
    ensures c >= '\U{80}' ==> forall k :: 0 <= k < |b| ==> b[k] >= 0x80
  {
    var n := c as int;
    if n < 0x80 then [n]
    else if n < 0x800 then [0xC0 + n / 0x40, 0x80 + n % 0x40]
    else if n < 0x10000 then [0xE0 + n / 0x1000, 0x80 + n / 0x40 % 0x40, 0x80 + n % 0x40]
    else [0xF0 + n / 0x40000, 0x80 + n / 0x1000 % 0x40, 0x80 + n / 0x40 % 0x40, 0x80 + n % 0x40]
  }

  function Encode(s: string): seq<byte> {
    if s == "" then [] else EncodeChar(s[0]) + Encode(s[1..])
  }

  predicate Continues(b: byte) {
    0x80 <= b < 0xC0
  }

  datatype Char = Char(c: char, len: nat)

  predicate Scalar(n: int) {
    0 <= n < 0xD800 || 0xE000 <= n < 0x11_0000
  }

  /** Six more bits. */
  function Shift(high: int, b: byte): int {
    high * 0x40 + (b - 0x80)
  }

  function LongChar(n: int, least: nat, len: nat): Option<Char> {
    if n >= least && Scalar(n) then Some(Char(n as char, len)) else None
  }

  /** The first character: no stray or missing continuation, no overlong form, no surrogate. */
  function DecodeChar(b: seq<byte>): (r: Option<Char>)
    ensures r.Some? ==> 1 <= r.value.len <= |b|
  {
    if b == [] then None
    else if b[0] < 0x80 then Some(Char(b[0] as char, 1))
    else if 0xC0 <= b[0] < 0xE0 && |b| >= 2 && Continues(b[1]) then
      LongChar(Shift(b[0] - 0xC0, b[1]), 0x80, 2)
    else if 0xE0 <= b[0] < 0xF0 && |b| >= 3 && Continues(b[1]) && Continues(b[2]) then
      LongChar(Shift(Shift(b[0] - 0xE0, b[1]), b[2]), 0x800, 3)
    else if 0xF0 <= b[0] < 0xF8 && |b| >= 4 && Continues(b[1]) && Continues(b[2]) && Continues(b[3]) then
      LongChar(Shift(Shift(Shift(b[0] - 0xF0, b[1]), b[2]), b[3]), 0x10000, 4)
    else None
  }

  function Decode(b: seq<byte>): Option<string> {
    if b == [] then Some("")
    else match DecodeChar(b)
      case None => None
      case Some(first) =>
        match Decode(b[first.len..])
        case None => None
        case Some(rest) => Some([first.c] + rest)
  }

  lemma ShiftSplits(high: nat, b: byte)
    requires Continues(b)
    ensures Shift(high, b) / 0x40 == high && 0x80 + Shift(high, b) % 0x40 == b
  {
  }

  lemma Digits(n: nat)
    ensures n == n / 0x40 * 0x40 + n % 0x40
    ensures n / 0x40 == n / 0x1000 * 0x40 + n / 0x40 % 0x40
    ensures n / 0x1000 == n / 0x40000 * 0x40 + n / 0x1000 % 0x40
  {
  }

  lemma ShiftJoins(n: nat)
    ensures Shift(n / 0x40, 0x80 + n % 0x40) == n && Continues(0x80 + n % 0x40)
  {
  }

  lemma DecodeCharEncode(c: char, rest: seq<byte>)
    ensures DecodeChar(EncodeChar(c) + rest) == Some(Char(c, |EncodeChar(c)|))
  {
    hide Shift;
    var n := c as int;
    ShiftJoins(n);
    if n >= 0x800 {
      Digits(n);
      ShiftJoins(n / 0x40);
      NestedDivisions(n);
      if n >= 0x10000 {
        ShiftJoins(n / 0x1000);
      }
    }
  }

  lemma NestedDivisions(n: nat)
    ensures n / 0x40 / 0x40 == n / 0x1000 && n / 0x1000 / 0x40 == n / 0x40000
  {
  }

  lemma {:induction false} DecodeEncode(s: string)
    ensures Decode(Encode(s)) == Some(s)
  {
    if s != "" {
      hide EncodeChar, DecodeChar;
      DecodeCharEncode(s[0], Encode(s[1..]));
      assert Encode(s)[|EncodeChar(s[0])|..] == Encode(s[1..]);
      DecodeEncode(s[1..]);
      assert s == [s[0]] + s[1..];
    }
  }

  lemma EncodeCharDecode(b: seq<byte>)
    requires DecodeChar(b).Some?
    ensures EncodeChar(DecodeChar(b).value.c) == b[..DecodeChar(b).value.len]
  {
    hide Shift;
    if b[0] >= 0xF0 {
      var h1, h2 := Shift(b[0] - 0xF0, b[1]), Shift(Shift(b[0] - 0xF0, b[1]), b[2]);
      ShiftSplits(b[0] - 0xF0, b[1]);
      ShiftSplits(h1, b[2]);
      ShiftSplits(h2, b[3]);
      Digits(Shift(h2, b[3]));
    } else if b[0] >= 0xE0 {
      ShiftSplits(b[0] - 0xE0, b[1]);
      ShiftSplits(Shift(b[0] - 0xE0, b[1]), b[2]);
    } else if b[0] >= 0x80 {
      ShiftSplits(b[0] - 0xC0, b[1]);
    }
  }

  /** A text has one encoding only: what decodes came from encoding. */
  lemma {:induction false} EncodeDecode(b: seq<byte>)
    requires Decode(b).Some?
    ensures Encode(Decode(b).value) == b
    decreases |b|
  {
    if b != [] {
      hide EncodeChar, DecodeChar, Encode, Decode;
      DecodeCons(b);
      EncodeDecode(b[DecodeChar(b).value.len..]);
      EncodeDecodeFirst(b);
    } else {
      EncodeEmpty();
    }
  }

  lemma EncodeDecodeFirst(b: seq<byte>)
    requires Decode(b).Some? && b != []
    requires DecodeChar(b).Some? && Decode(b[DecodeChar(b).value.len..]).Some?
    requires Encode(Decode(b[DecodeChar(b).value.len..]).value) == b[DecodeChar(b).value.len..]
    ensures Encode(Decode(b).value) == b
  {
    hide EncodeChar, DecodeChar, Encode, Decode;
    DecodeCons(b);
    EncodeCharDecode(b);
    EncodeCons(DecodeChar(b).value.c, Decode(b[DecodeChar(b).value.len..]).value);
  }

  lemma DecodeCons(b: seq<byte>)
    requires Decode(b).Some? && b != []
    ensures DecodeChar(b).Some? && Decode(b[DecodeChar(b).value.len..]).Some?
    ensures Decode(b) == Some([DecodeChar(b).value.c] + Decode(b[DecodeChar(b).value.len..]).value)
  {
    hide DecodeChar;
  }

  lemma EncodeEmpty()
    ensures Encode("") == []
  {
  }

  lemma EncodeCons(c: char, s: string)
    ensures Encode([c] + s) == EncodeChar(c) + Encode(s)
  {
    assert ([c] + s)[1..] == s;
  }

  lemma {:induction false} EncodeAppend(a: string, b: string)
    ensures Encode(a + b) == Encode(a) + Encode(b)
  {
    if a == "" {
      assert a + b == b;
    } else {
      assert (a + b)[1..] == a[1..] + b;
      EncodeAppend(a[1..], b);
    }
  }

  lemma {:induction false} EncodeNoShorter(s: string)
    ensures |Encode(s)| >= |s|
  {
    if s != "" {
      EncodeNoShorter(s[1..]);
    }
  }

  // ---------------------------------------------------------------------------------------------------------------
  // Bytes that are no text
  // ---------------------------------------------------------------------------------------------------------------

  /** The two bytes begin a character of three or four: no overlong form, no surrogate, nothing past the last plane. */
  predicate BeginsLong(first: byte, second: byte) {
    || (first == 0xE0 && 0xA0 <= second < 0xC0)
    || (0xE1 <= first <= 0xEF && first != 0xED && Continues(second))
    || (first == 0xED && 0x80 <= second < 0xA0)
    || (first == 0xF0 && 0x90 <= second < 0xC0)
    || (0xF1 <= first <= 0xF3 && Continues(second))
    || (first == 0xF4 && 0x80 <= second < 0x90)
  }

  /** How much of the front one replacement character stands for: as much as could still have begun a character. */
  function BadLength(b: seq<byte>): (n: nat)
    requires b != []
    ensures 1 <= n <= 3 && n <= |b|
    ensures forall k :: 1 <= k < n ==> Continues(b[k])
  {
    if |b| < 2 || !BeginsLong(b[0], b[1]) then 1
    else if |b| > 2 && b[0] >= 0xF0 && Continues(b[2]) then 3
    else 2
  }

  /** `String::from_utf8_lossy`. */
  function Lossy(b: seq<byte>): string
    decreases |b|
  {
    if b == [] then ""
    else match DecodeChar(b)
      case Some(first) => [first.c] + Lossy(b[first.len..])
      case None => ['\U{FFFD}'] + Lossy(b[BadLength(b)..])
  }

  lemma {:induction false} LossyKeepsText(b: seq<byte>)
    requires Decode(b).Some?
    ensures Lossy(b) == Decode(b).value
    decreases |b|
  {
    if b != [] {
      hide DecodeChar;
      DecodeCons(b);
      LossyKeepsText(b[DecodeChar(b).value.len..]);
    }
  }

  lemma CharContinues(b: seq<byte>)
    requires DecodeChar(b).Some?
    ensures forall k :: 1 <= k < DecodeChar(b).value.len ==> Continues(b[k])
  {
  }

  /** The beginning of some character. */
  predicate BeginsChar(b: seq<byte>, n: nat, c: char) {
    n <= |b| && n <= |EncodeChar(c)| && EncodeChar(c)[..n] == b[..n]
  }

  lemma LongLead(c: char)
    requires |EncodeChar(c)| >= 3
    ensures BeginsLong(EncodeChar(c)[0], EncodeChar(c)[1]) && Continues(EncodeChar(c)[2])
    ensures |EncodeChar(c)| == 4 <==> EncodeChar(c)[0] >= 0xF0
  {
  }

  lemma Completed(b: seq<byte>, c: char)
    requires BeginsChar(b, |EncodeChar(c)|, c)
    ensures DecodeChar(b).Some?
  {
    var e := EncodeChar(c);
    assert b == e + b[|e|..];
    DecodeCharEncode(c, b[|e|..]);
  }

  /** No longer piece than the one replaced could have begun a character. */
  lemma NoLongerPiece(b: seq<byte>, k: nat, c: char)
    requires b != [] && DecodeChar(b).None? && k >= 2 && BeginsChar(b, k, c)
    ensures k <= BadLength(b)
  {
    if k == |EncodeChar(c)| {
      Completed(b, c);
    } else {
      LongLead(c);
      hide EncodeChar, DecodeChar;
      var e := EncodeChar(c);
      assert b[0] == e[..k][0] && b[1] == e[..k][1];
      assert k > 2 ==> b[2] == e[..k][2];
    }
  }

  /** And that piece, when it is more than one byte, could have. */
  lemma PieceBeginsChar(b: seq<byte>)
    requires b != [] && BadLength(b) >= 2
    ensures exists c :: BeginsChar(b, BadLength(b), c) && |EncodeChar(c)| > BadLength(b)
  {
    var n := BadLength(b);
    if b[0] < 0xF0 {
      var c := ThreeBytes(b[0], b[1]);
      assert BeginsChar(b, n, c);
    } else {
      var c := FourBytes(b[0], b[1], if n == 3 then b[2] else 0x80);
      assert BeginsChar(b, n, c);
    }
  }

  lemma ThreeBytes(first: byte, second: byte) returns (c: char)
    requires BeginsLong(first, second) && first < 0xF0
    ensures EncodeChar(c) == [first, second, 0x80]
  {
    var high := Shift(first - 0xE0, second);
    var n := Shift(high, 0x80);
    assert n == high * 0x40 && 0x800 <= n < 0x10000 && Scalar(n);
    ShiftSplits(first - 0xE0, second);
    ShiftSplits(high, 0x80);
    NestedDivisions(n);
    hide Shift;
    c := n as char;
  }

  lemma FourBytes(first: byte, second: byte, third: byte) returns (c: char)
    requires BeginsLong(first, second) && first >= 0xF0 && Continues(third)
    ensures EncodeChar(c) == [first, second, third, 0x80]
  {
    var high := Shift(first - 0xF0, second);
    var mid := Shift(high, third);
    var n := Shift(mid, 0x80);
    assert 0x10 <= high < 0x110;
    assert n == mid * 0x40 && mid == high * 0x40 + (third - 0x80) && 0x10000 <= n < 0x11_0000;
    ShiftSplits(first - 0xF0, second);
    ShiftSplits(high, third);
    ShiftSplits(mid, 0x80);
    NestedDivisions(n);
    hide Shift;
    c := n as char;
  }

  /** Each piece that is no character becomes one replacement character, U+FFFD. */
  lemma PieceIsReplaced(b: seq<byte>)
    requires b != [] && DecodeChar(b).None?
    ensures Lossy(b) == "\U{FFFD}" + Lossy(b[BadLength(b)..])
  {
  }

  /** One character of each length: a letter with an accent, a currency sign, a face. */
  lemma KnownEncodings()
    ensures EncodeChar('\U{E9}') == [0xC3, 0xA9]
    ensures EncodeChar('\U{20AC}') == [0xE2, 0x82, 0xAC]
    ensures EncodeChar('\U{1F600}') == [0xF0, 0x9F, 0x98, 0x80]
  {
  }

  // ---------------------------------------------------------------------------------------------------------------
  // Order
  // ---------------------------------------------------------------------------------------------------------------

  /** The bytes of `a` come first in the order of a dictionary of bytes. */
  predicate BytesLess(a: seq<byte>, b: seq<byte>) {
    b != [] && (a == [] || a[0] < b[0] || (a[0] == b[0] && BytesLess(a[1..], b[1..])))
  }

  lemma {:induction false} BytesLessBehind(p: seq<byte>, a: seq<byte>, b: seq<byte>)
    ensures BytesLess(p + a, p + b) <==> BytesLess(a, b)
  {
    if p == [] {
      assert p + a == a && p + b == b;
    } else {
      assert (p + a)[1..] == p[1..] + a && (p + b)[1..] == p[1..] + b;
      BytesLessBehind(p[1..], a, b);
    }
  }

  /** The first place where the bytes of two characters differ: the smaller character has the smaller byte there. */
  predicate BytesPart(c: char, d: char, k: nat) {
    && k < |EncodeChar(c)| && k < |EncodeChar(d)|
    && EncodeChar(c)[..k] == EncodeChar(d)[..k] && EncodeChar(c)[k] < EncodeChar(d)[k]
  }

  lemma ShortCharsDiffer(c: char, d: char)
    requires c < d && (|EncodeChar(c)| < |EncodeChar(d)| || |EncodeChar(d)| <= 2)
    ensures BytesPart(c, d, 0) || BytesPart(c, d, 1)
  {
  }

  lemma ThreeByteCharsDiffer(c: char, d: char)
    requires c < d && |EncodeChar(c)| == |EncodeChar(d)| == 3
    ensures BytesPart(c, d, 0) || BytesPart(c, d, 1) || BytesPart(c, d, 2)
  {
    Digits(c as int);
    Digits(d as int);
  }

  lemma FourByteCharsDiffer(c: char, d: char)
    requires c < d && |EncodeChar(c)| == |EncodeChar(d)| == 4
    ensures BytesPart(c, d, 0) || BytesPart(c, d, 1) || BytesPart(c, d, 2) || BytesPart(c, d, 3)
  {
    Digits(c as int);
    Digits(d as int);
  }

  lemma LongerIsLater(c: char, d: char)
    requires c < d
    ensures |EncodeChar(c)| <= |EncodeChar(d)|
  {
  }

  lemma CharsDiffer(c: char, d: char) returns (k: nat)
    requires c < d
    ensures BytesPart(c, d, k)
  {
    LongerIsLater(c, d);
    hide EncodeChar, BytesPart;
    if |EncodeChar(c)| < |EncodeChar(d)| || |EncodeChar(d)| <= 2 {
      ShortCharsDiffer(c, d);
    } else if |EncodeChar(c)| == 3 {
      ThreeByteCharsDiffer(c, d);
    } else {
      FourByteCharsDiffer(c, d);
    }
    k :| BytesPart(c, d, k);
  }

  lemma BytesFollowChars(c: char, d: char, a: seq<byte>, b: seq<byte>)
    requires c < d
    ensures BytesLess(EncodeChar(c) + a, EncodeChar(d) + b) && !BytesLess(EncodeChar(d) + b, EncodeChar(c) + a)
  {
    var k := CharsDiffer(c, d);
    hide EncodeChar;
    var e, f := EncodeChar(c) + a, EncodeChar(d) + b;
    var p := e[..k];
    assert p == EncodeChar(c)[..k] && p == f[..k];
    assert e == p + e[k..] && f == p + f[k..];
    assert e[k] == EncodeChar(c)[k] && f[k] == EncodeChar(d)[k];
    BytesLessBehind(p, e[k..], f[k..]);
    BytesLessBehind(p, f[k..], e[k..]);
  }
}
