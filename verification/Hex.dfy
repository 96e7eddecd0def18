/** Hexadecimal text: lower case out, either case in. */
module Hex {
  import opened Words
  import opened Wrappers

  function Digit(n: nat): char
    requires n < 16
  {
    if n < 10 then '0' + n as char else 'a' + (n - 10) as char
  }

  function Value(c: char): (r: Option<nat>)
    ensures r.Some? ==> r.value < 16
  {
    if '0' <= c <= '9' then Some(c as int - '0' as int)
    else if 'a' <= c <= 'f' then Some(c as int - 'a' as int + 10)
    else if 'A' <= c <= 'F' then Some(c as int - 'A' as int + 10)
    else None
  }

  function Encode(b: seq<byte>): string {
    if b == [] then "" else [Digit(b[0] / 16), Digit(b[0] % 16)] + Encode(b[1..])
  }

  function Decode(s: string): Option<seq<byte>> {
    if s == "" then Some([])
    else if |s| == 1 then None
    else match (Value(s[0]), Value(s[1]), Decode(s[2..]))
      case (Some(hi), Some(lo), Some(rest)) => Some([16 * hi + lo] + rest)
      case _ => None
  }

  lemma DigitValue(n: nat)
    requires n < 16
    ensures Value(Digit(n)) == Some(n)
  {
  }

  lemma {:induction false} DecodeEncode(b: seq<byte>)
    ensures Decode(Encode(b)) == Some(b)
  {
    if b != [] {
      var s := Encode(b);
      DigitValue(b[0] / 16);
      DigitValue(b[0] % 16);
      assert s[0] == Digit(b[0] / 16) && s[1] == Digit(b[0] % 16) && s[2..] == Encode(b[1..]);
      DecodeEncode(b[1..]);
      assert b == [16 * (b[0] / 16) + b[0] % 16] + b[1..];
    }
  }

  /** Different byte strings never share a name. */
  lemma EncodeInjective(a: seq<byte>, b: seq<byte>)
    requires Encode(a) == Encode(b)
    ensures a == b
  {
    DecodeEncode(a);
    DecodeEncode(b);
  }

  predicate IsDigit(c: char) {
    '0' <= c <= '9' || 'a' <= c <= 'f' || 'A' <= c <= 'F'
  }

  /** Exactly the texts of pairs of digits decode, two digits to a byte, the high one first, in either case. */
  lemma {:induction false} DecodesIff(s: string)
    ensures Decode(s).Some? <==> |s| % 2 == 0 && forall i :: 0 <= i < |s| ==> IsDigit(s[i])
    ensures Decode(s).Some? ==> 2 * |Decode(s).value| == |s|
  {
    if |s| >= 2 {
      DecodesIff(s[2..]);
      assert forall i :: 2 <= i < |s| ==> s[i] == s[2..][i - 2];
    }
  }

  lemma {:induction false} DecodesAt(s: string, k: nat)
    requires Decode(s).Some? && k < |Decode(s).value|
    ensures 2 * k + 1 < |s| && Value(s[2 * k]).Some? && Value(s[2 * k + 1]).Some?
    ensures Decode(s).value[k] == 16 * Value(s[2 * k]).value + Value(s[2 * k + 1]).value
  {
    if k > 0 {
      DecodesAt(s[2..], k - 1);
    }
  }

  /** The encoder writes lower case. */
  lemma {:induction false} EncodesLower(b: seq<byte>)
    ensures |Encode(b)| == 2 * |b|
    ensures forall i :: 0 <= i < |Encode(b)| ==> '0' <= Encode(b)[i] <= '9' || 'a' <= Encode(b)[i] <= 'f'
  {
    if b != [] {
      EncodesLower(b[1..]);
    }
  }

  /** What a digit is worth: its place among the sixteen, whatever its case. */
  lemma DigitWorth(c: char, n: nat)
    requires n < 16
    ensures Value(c) == Some(n) <==> c == "0123456789abcdef"[n] || c == "0123456789ABCDEF"[n]
  {
  }
}
