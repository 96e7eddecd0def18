/**
 The local SOCKS5 front door: greeting, request and reply as sections 3 to 6 of RFC 1928 lay them out, read and written
 on one client connection.
 */
module Socks {
  import opened Words
  import opened Wrappers
  import opened Text
  import Utf8

  type Bytes = seq<byte>

  // ---------------------------------------------------------------------------------------------------------------
  // What clients send
  // ---------------------------------------------------------------------------------------------------------------

  datatype Address = IPv4(bytes: Bytes) | Domain(name: Bytes) | IPv6(bytes: Bytes)

  predicate WellFormed(a: Address) {
    match a
    case IPv4(b) => |b| == 4
    case Domain(n) => |n| < 256
    case IPv6(b) => |b| == 16
  }

  function EncodeGreeting(methods: Bytes): Bytes
    requires |methods| < 256
  {
    [0x05, |methods|] + methods
  }

  function AddressBytes(a: Address): Bytes
    requires WellFormed(a)
  {
    match a
    case IPv4(b) => b
    case Domain(n) => [|n|] + n
    case IPv6(b) => b
  }

  function TypeByte(a: Address): byte {
    match a
    case IPv4(_) => 0x01
    case Domain(_) => 0x03
    case IPv6(_) => 0x04
  }

  function EncodeRequest(command: byte, reserved: byte, a: Address, port: u16): Bytes
    requires WellFormed(a)
  {
    [0x05, command, reserved, TypeByte(a)] + AddressBytes(a) + [port / 256, port % 256]
  }

  // ---------------------------------------------------------------------------------------------------------------
  // What the proxy reads
  // ---------------------------------------------------------------------------------------------------------------

  /** The host handed to Tor: text, except that the text of an IPv6 address is left to its sixteen bytes. */
  datatype Host = Named(text: string) | V6(bytes: Bytes)

  datatype Target = Target(host: Host, port: u16)

  datatype Request =
    | Short
    | NotConnect
    | BadType
    | BadName
    | Connect(target: Target, used: nat)

  function Dotted(ip: Bytes): string
    requires |ip| == 4
  {
    Decimal(ip[0]) + "." + Decimal(ip[1]) + "." + Decimal(ip[2]) + "." + Decimal(ip[3])
  }

  function HostOf(a: Address): Option<Host>
    requires WellFormed(a)
  {
    match a
    case IPv4(b) => Some(Named(Dotted(b)))
    case Domain(n) => (match Utf8.Decode(n) case Some(text) => Some(Named(text)) case None => None)
    case IPv6(b) => Some(V6(b))
  }

  /** The length of a greeting at the front of the input; none when it is not SOCKS5 or not all there. */
  function ParseGreeting(b: Bytes): Option<nat> {
    if |b| < 2 || b[0] != 0x05 then None
    else
      var n: nat := b[1];
      if |b| < 2 + n then None else Some(2 + n)
  }

  function ParseAddress(b: Bytes): (r: Option<Address>)
    requires |b| >= 4
    ensures r.Some? ==> WellFormed(r.value)
  {
    if b[3] == 0x01 && |b| >= 8 then Some(IPv4(b[4..8]))
    else if b[3] == 0x03 && |b| >= 5 then
      var n: nat := b[4];
      if |b| >= 5 + n then Some(Domain(b[5..5 + n])) else None
    else if b[3] == 0x04 && |b| >= 20 then Some(IPv6(b[4..20]))
    else None
  }

  /** Network order. */
  function Port(high: byte, low: byte): u16 {
    var h: int := high;
    h * 256 + low
  }

  predicate KnownType(t: byte) {
    t == 0x01 || t == 0x03 || t == 0x04
  }

  function ParseRequest(b: Bytes): Request {
    if |b| < 4 then Short
    else if b[0] != 0x05 || b[1] != 0x01 then NotConnect
    else if !KnownType(b[3]) then BadType
    else match ParseAddress(b)
      case None => Short
      case Some(a) =>
        var end := 4 + |AddressBytes(a)|;
        match HostOf(a)
        case None => BadName
        case Some(host) =>
          if |b| < end + 2 then Short
          else Connect(Target(host, Port(b[end], b[end + 1])), end + 2)
  }

  // ---------------------------------------------------------------------------------------------------------------
  // The connection
  // ---------------------------------------------------------------------------------------------------------------

  const CHOOSE_NO_AUTH: Bytes := [0x05, 0x00]

  function Reply(code: byte): Bytes {
    [0x05, code, 0x00, 0x01, 0, 0, 0, 0, 0, 0]
  }

  /** Whether Tor is up, takes the target as an address, and connects to it. */
  datatype Tor = Tor(ready: bool, takes: bool, connects: bool)

  /** What has been written, in order; how far the input was read when a tunnel stands; which target was dialled. */
  datatype Session = Session(written: seq<Bytes>, dialled: Option<Target>, tunnel: Option<nat>)

  function Write(written: seq<Bytes>, message: Bytes, canWrite: nat): seq<Bytes> {
    if |written| < canWrite then written + [message] else written
  }

  /** A session in full. Only the first `canWrite` writes succeed; a write that fails ends the session. */
  function Serve(input: Bytes, tor: Tor, canWrite: nat): Session {
    match ParseGreeting(input)
    case None => Session([], None, None)
    case Some(n) =>
      if canWrite == 0 then Session([], None, None)
      else Answer([CHOOSE_NO_AUTH], n, ParseRequest(input[n..]), tor, canWrite)
  }

  function Answer(written: seq<Bytes>, n: nat, request: Request, tor: Tor, canWrite: nat): Session {
    match request
    case NotConnect => Session(Write(written, Reply(0x07), canWrite), None, None)
    case Connect(target, used) =>
      if !tor.ready then Session(Write(written, Reply(0x01), canWrite), None, None)
      else if !tor.takes then Session(written, None, None)
      else if !tor.connects then Session(Write(written, Reply(0x05), canWrite), Some(target), None)
      else Session(Write(written, Reply(0x00), canWrite), Some(target),
                   if |written| < canWrite then Some(n + used) else None)
    case _ => Session(written, None, None)
  }

  class Client {
    const input: Bytes
    const canWrite: nat
    var pos: nat
    var written: seq<Bytes>
    var dialled: Option<Target>

    constructor (input: Bytes, canWrite: nat)
      ensures this.input == input && this.canWrite == canWrite && pos == 0 && written == [] && dialled == None
    {
      this.input, this.canWrite, pos, written, dialled := input, canWrite, 0, [], None;
    }

    method ReadExact(n: nat) returns (bytes: Option<Bytes>)
      requires pos <= |input|
      modifies this`pos
      ensures old(pos) <= pos <= |input|
      ensures bytes == if old(pos) + n <= |input| then Some(input[old(pos)..old(pos) + n]) else None
      ensures bytes.Some? ==> pos == old(pos) + n
    {
      if pos + n <= |input| {
        bytes := Some(input[pos..pos + n]);
        pos := pos + n;
      } else {
        bytes := None;
        pos := |input|;
      }
    }

    method WriteAll(message: Bytes) returns (ok: bool)
      modifies this`written
      ensures ok == (|old(written)| < canWrite)
      ensures written == Write(old(written), message, canWrite)
    {
      ok := |written| < canWrite;
      if ok {
        written := written + [message];
      }
    }

    method Greet() returns (ok: bool)
      requires pos <= |input|
      modifies this`pos, this`written
      ensures var n := ParseGreeting(input[old(pos)..]);
        && ok == (n.Some? && |old(written)| < canWrite)
        && written == (if n.Some? then Write(old(written), CHOOSE_NO_AUTH, canWrite) else old(written))
        && pos <= |input| && (n.Some? ==> pos == old(pos) + n.value)
    {
      var buf := ReadExact(2);
      if buf.None? || buf.value[0] != 0x05 {
        return false;
      }
      var methods := ReadExact(buf.value[1]);
      if methods.None? {
        return false;
      }
      ok := WriteAll(CHOOSE_NO_AUTH);
    }

    /** The address behind a request's header, by its type. */
    method ReadAddress(atyp: byte) returns (address: Option<Address>)
      requires 4 <= pos <= |input| && input[pos - 1] == atyp
      modifies this`pos
      ensures address == ParseAddress(input[old(pos) - 4..])
      ensures old(pos) <= pos <= |input|
      ensures address.Some? ==> pos == old(pos) + |AddressBytes(address.value)|
    {
      ghost var b := input[pos - 4..];
      assert b[3] == atyp;
      if atyp == 0x01 {
        var ip := ReadExact(4);
        if ip.Some? {
          assert b[4..8] == ip.value;
          return Some(IPv4(ip.value));
        }
      } else if atyp == 0x03 {
        var len := ReadExact(1);
        if len.Some? {
          assert b[4] == len.value[0];
          var name := ReadExact(len.value[0]);
          if name.Some? {
            assert b[5..5 + b[4]] == name.value;
            return Some(Domain(name.value));
          }
        }
      } else if atyp == 0x04 {
        var ip := ReadExact(16);
        if ip.Some? {
          assert b[4..20] == ip.value;
          return Some(IPv6(ip.value));
        }
      }
      return None;
    }

    method ReadRequest() returns (request: Request)
      requires pos <= |input|
      modifies this`pos
      ensures request == ParseRequest(input[old(pos)..])
      ensures request.Connect? ==> pos == old(pos) + request.used
    {
      hide ParseAddress, HostOf, AddressBytes;
      var start := pos;
      ghost var b := input[pos..];
      var hdr := ReadExact(4);
      if hdr.None? {
        return Short;
      }
      assert hdr.value == b[..4];
      if hdr.value[0] != 0x05 || hdr.value[1] != 0x01 {
        return NotConnect;
      }
      if !KnownType(hdr.value[3]) {
        return BadType;
      }
      var address := ReadAddress(hdr.value[3]);
      if address.None? {
        return Short;
      }
      var host := HostOf(address.value);
      if host.None? {
        return BadName;
      }
      ghost var end := pos - start;
      var port := ReadExact(2);
      if port.None? {
        return Short;
      }
      assert port.value[0] == b[end] && port.value[1] == b[end + 1];
      return Connect(Target(host.value, Port(port.value[0], port.value[1])), pos - start);
    }

    method Reach(target: Target, tor: Tor) returns (tunnel: bool)
      modifies this`written, this`dialled
      ensures var s := Answer(old(written), 0, Connect(target, 0), tor, canWrite);
        written == s.written && tunnel == s.tunnel.Some?
        && dialled == (if s.dialled.Some? then s.dialled else old(dialled))
    {
      if !tor.ready {
        var _ := WriteAll(Reply(0x01));
        return false;
      }
      if !tor.takes {
        return false;
      }
      dialled := Some(target);
      if !tor.connects {
        var _ := WriteAll(Reply(0x05));
        return false;
      }
      tunnel := WriteAll(Reply(0x00));
    }

    /** `handle_socks_client` up to the relaying of bytes, which starts at `pos` when a tunnel stands. */
    method Handle(tor: Tor) returns (tunnel: bool)
      requires pos == 0 && written == [] && dialled == None
      modifies this
      ensures var s := Serve(input, tor, canWrite);
        && written == s.written && dialled == s.dialled && tunnel == s.tunnel.Some?
        && (tunnel ==> s.tunnel == Some(pos))
    {
      hide ParseGreeting, ParseRequest;
      assert input[0..] == input;
      var ok := Greet();
      if !ok {
        return false;
      }
      var request := ReadRequest();
      match request {
        case NotConnect =>
          var _ := WriteAll(Reply(0x07));
          tunnel := false;
        case Connect(target, _) =>
          tunnel := Reach(target, tor);
        case _ =>
          tunnel := false;
      }
    }
  }

  // ---------------------------------------------------------------------------------------------------------------
  // Round trips
  // ---------------------------------------------------------------------------------------------------------------

  lemma GreetingRoundTrip(methods: Bytes, rest: Bytes)
    requires |methods| < 256
    ensures ParseGreeting(EncodeGreeting(methods) + rest) == Some(|EncodeGreeting(methods)|)
  {
  }

  lemma AddressRoundTrip(reserved: byte, a: Address, rest: Bytes)
    requires WellFormed(a)
    ensures ParseAddress([0x05, 0x01, reserved, TypeByte(a)] + AddressBytes(a) + rest) == Some(a)
  {
    var b := [0x05, 0x01, reserved, TypeByte(a)] + AddressBytes(a) + rest;
    match a {
      case IPv4(x) => assert b[4..8] == x;
      case Domain(n) => assert b[4] == |n| && b[5..5 + |n|] == n;
      case IPv6(x) => assert b[4..20] == x;
    }
  }

  /** A request is read back in full and nothing behind it is touched; a name that is no text is refused. */
  lemma RequestRoundTrip(reserved: byte, a: Address, port: u16, rest: Bytes)
    requires WellFormed(a)
    ensures var e := EncodeRequest(0x01, reserved, a, port);
      ParseRequest(e + rest) == match HostOf(a)
                                case Some(host) => Connect(Target(host, port), |e|)
                                case None => BadName
  {
    hide HostOf, ParseAddress, AddressBytes;
    var e := EncodeRequest(0x01, reserved, a, port);
    var b := e + rest;
    var tail := [port / 256, port % 256] + rest;
    assert b == [0x05, 0x01, reserved, TypeByte(a)] + AddressBytes(a) + tail;
    AddressRoundTrip(reserved, a, tail);
    var end := 4 + |AddressBytes(a)|;
    assert b[end] == port / 256 && b[end + 1] == port % 256;
  }

  lemma AddressIsEncoded(b: Bytes)
    requires |b| >= 4 && ParseAddress(b).Some?
    ensures TypeByte(ParseAddress(b).value) == b[3]
    ensures 4 + |AddressBytes(ParseAddress(b).value)| <= |b|
    ensures b[4..4 + |AddressBytes(ParseAddress(b).value)|] == AddressBytes(ParseAddress(b).value)
  {
    if b[3] == 0x03 {
      assert b[4..5 + b[4]] == [b[4]] + b[5..5 + b[4]];
    }
  }

  /** The other way round: whatever is accepted was an encoded CONNECT request, up to the reserved byte. */
  lemma AcceptedIsEncoded(b: Bytes)
    requires ParseRequest(b).Connect?
    ensures var r := ParseRequest(b);
      exists a, port: u16 :: WellFormed(a) && r.used <= |b| && HostOf(a) == Some(r.target.host) && port == r.target.port
        && b[..r.used] == EncodeRequest(0x01, b[2], a, port)
  {
    hide HostOf, ParseAddress, AddressBytes;
    var r, a := ParseRequest(b), ParseAddress(b).value;
    AddressIsEncoded(b);
    var end := 4 + |AddressBytes(a)|;
    PortBytes(b[end], b[end + 1]);
    assert b[..r.used] == b[..4] + b[4..end] + b[end..end + 2];
    assert b[..4] == [0x05, 0x01, b[2], TypeByte(a)];
    assert b[end..end + 2] == [b[end], b[end + 1]];
    assert b[..r.used] == EncodeRequest(0x01, b[2], a, r.target.port);
  }

  lemma PortBytes(high: byte, low: byte)
    ensures Port(high, low) / 256 == high && Port(high, low) % 256 == low
  {
  }

  /** The framing is self-delimiting: no request is the beginning of a different one. */
  lemma SelfDelimiting(a: Address, p: u16, x: Bytes, b: Address, q: u16, y: Bytes)
    requires WellFormed(a) && WellFormed(b)
    requires EncodeRequest(0x01, 0, a, p) + x == EncodeRequest(0x01, 0, b, q) + y
    ensures a == b && p == q && x == y
  {
    hide AddressBytes, ParseAddress;
    var all := EncodeRequest(0x01, 0, a, p) + x;
    var atP, atQ := [p / 256, p % 256] + x, [q / 256, q % 256] + y;
    var head, other := [0x05, 0x01, 0, TypeByte(a)] + AddressBytes(a), [0x05, 0x01, 0, TypeByte(b)] + AddressBytes(b);
    assert all == head + atP && all == other + atQ;
    AddressRoundTrip(0, a, atP);
    AddressRoundTrip(0, b, atQ);
    assert atP == all[|head|..] && atQ == all[|other|..];
    assert x == atP[2..] && p / 256 == atP[0] && p % 256 == atP[1];
    assert y == atQ[2..] && q / 256 == atQ[0] && q % 256 == atQ[1];
  }

  /** A whole conversation, from greeting to tunnel: the target is the client's, and the tunnel starts behind it. */
  lemma ConversationRoundTrip(methods: Bytes, a: Address, port: u16, rest: Bytes, canWrite: nat)
    requires |methods| < 256 && WellFormed(a) && HostOf(a).Some? && canWrite >= 2
    ensures var hello := EncodeGreeting(methods) + EncodeRequest(0x01, 0, a, port);
      Serve(hello + rest, Tor(true, true, true), canWrite)
        == Session([CHOOSE_NO_AUTH, Reply(0x00)], Some(Target(HostOf(a).value, port)), Some(|hello|))
  {
    hide HostOf, EncodeRequest, EncodeGreeting, ParseGreeting, ParseRequest;
    var g, e := EncodeGreeting(methods), EncodeRequest(0x01, 0, a, port);
    assert g + e + rest == g + (e + rest);
    GreetingRoundTrip(methods, e + rest);
    assert (g + e + rest)[|g|..] == e + rest;
    RequestRoundTrip(0, a, port, rest);
  }

  // ---------------------------------------------------------------------------------------------------------------
  // Dotted decimal
  // ---------------------------------------------------------------------------------------------------------------

  function DecimalValue(s: string): int {
    if s == "" then 0 else 10 * DecimalValue(s[..|s| - 1]) + (s[|s| - 1] as int - '0' as int)
  }

  lemma {:induction false} DecimalReads(n: nat)
    ensures DecimalValue(Decimal(n)) == n && '.' !in Decimal(n)
  {
    var s := Decimal(n);
    if n < 10 {
      assert s[..|s| - 1] == "";
      assert DecimalValue("") == 0;
    } else {
      DecimalReads(n / 10);
      assert s[..|s| - 1] == Decimal(n / 10);
    }
  }

  /** Texts that agree up to a first dot agree on both sides of it. */
  lemma {:induction false} DotSplits(a: string, x: string, b: string, y: string)
    requires '.' !in a && '.' !in b && a + "." + x == b + "." + y
    ensures a == b && x == y
  {
    var s, t := a + "." + x, b + "." + y;
    assert s[0] == (if a == "" then '.' else a[0]) && t[0] == (if b == "" then '.' else b[0]);
    if a == "" {
      assert x == s[1..] && y == t[|b| + 1..];
    } else if b != "" {
      assert s[1..] == a[1..] + "." + x && t[1..] == b[1..] + "." + y;
      DotSplits(a[1..], x, b[1..], y);
      assert a == [a[0]] + a[1..] && b == [b[0]] + b[1..];
    }
  }

  lemma DecimalInjective(m: nat, n: nat)
    requires Decimal(m) == Decimal(n)
    ensures m == n
  {
    DecimalReads(m);
    DecimalReads(n);
  }

  /** Different addresses have different texts. */
  lemma DottedInjective(a: Bytes, b: Bytes)
    requires |a| == |b| == 4 && Dotted(a) == Dotted(b)
    ensures a == b
  {
    hide Decimal;
    DecimalReads(a[0]);
    DecimalReads(a[1]);
    DecimalReads(a[2]);
    DecimalReads(b[0]);
    DecimalReads(b[1]);
    DecimalReads(b[2]);
    var a3, b3 := Decimal(a[3]), Decimal(b[3]);
    var a2, b2 := Decimal(a[2]) + "." + a3, Decimal(b[2]) + "." + b3;
    var a1, b1 := Decimal(a[1]) + "." + a2, Decimal(b[1]) + "." + b2;
    assert Dotted(a) == Decimal(a[0]) + "." + a1 && Dotted(b) == Decimal(b[0]) + "." + b1;
    DotSplits(Decimal(a[0]), a1, Decimal(b[0]), b1);
    DotSplits(Decimal(a[1]), a2, Decimal(b[1]), b2);
    DotSplits(Decimal(a[2]), a3, Decimal(b[2]), b3);
    DecimalInjective(a[3], b[3]);
  }

  /** The text is the four numbers in the order of the bytes, with dots between. */
  lemma DottedReads(ip: Bytes)
    requires |ip| == 4
    ensures var parts := Split(Dotted(ip), ".");
      |parts| == 4 && forall k :: 0 <= k < 4 ==> DecimalValue(parts[k]) == ip[k]
  {
    hide Decimal;
    var parts := [Decimal(ip[0]), Decimal(ip[1]), Decimal(ip[2]), Decimal(ip[3])];
    DecimalReads(ip[0]);
    DecimalReads(ip[1]);
    DecimalReads(ip[2]);
    DecimalReads(ip[3]);
    JoinFour(parts[0], parts[1], parts[2], parts[3]);
    SplitJoined(parts, ".");
  }

  lemma JoinFour(a: string, b: string, c: string, d: string)
    ensures Join([a, b, c, d], ".") == a + "." + b + "." + c + "." + d
  {
    assert [a, b, c, d][1..] == [b, c, d] && [b, c, d][1..] == [c, d] && [c, d][1..] == [d];
    assert Join([d], ".") == d;
    assert Join([c, d], ".") == c + "." + d;
    assert Join([b, c, d], ".") == b + "." + (c + "." + d);
  }

  /** The digits carry no needless zero: every number has one text. */
  lemma {:induction false} DecimalIsShort(n: nat)
    ensures Decimal(n) != "" && (n > 0 ==> Decimal(n)[0] != '0') && (n == 0 ==> Decimal(n) == "0")
    ensures forall i :: 0 <= i < |Decimal(n)| ==> '0' <= Decimal(n)[i] <= '9'
  {
    if n >= 10 {
      DecimalIsShort(n / 10);
    }
  }

  /** A domain is handed on as the text it is; no address of one type is taken for one of another. */
  lemma HostIsWhatWasSent(a: Address)
    requires WellFormed(a)
    ensures match a
            case IPv4(b) => HostOf(a) == Some(Named(Dotted(b)))
            case Domain(n) =>
              && (HostOf(a).Some? <==> exists text :: Utf8.Encode(text) == n)
              && forall text :: Utf8.Encode(text) == n ==> HostOf(a) == Some(Named(text))
            case IPv6(b) => HostOf(a) == Some(V6(b))
  {
    hide Utf8.Encode, Utf8.Decode, Dotted;
    if a.Domain? {
      forall text | Utf8.Encode(text) == a.name ensures Utf8.Decode(a.name) == Some(text) {
        Utf8.DecodeEncode(text);
      }
      if Utf8.Decode(a.name).Some? {
        Utf8.EncodeDecode(a.name);
      }
    }
  }

  // ---------------------------------------------------------------------------------------------------------------
  // Replies
  // ---------------------------------------------------------------------------------------------------------------

  /** "No authentication" is chosen first, and at most one reply follows it. */
  lemma AtMostOneReply(input: Bytes, tor: Tor, canWrite: nat)
    ensures var w := Serve(input, tor, canWrite).written;
      |w| <= 2 && (|w| > 0 ==> w[0] == [0x05, 0x00])
      && (|w| == 2 ==> w[1] in {Reply(0x00), Reply(0x01), Reply(0x05), Reply(0x07)})
  {
    hide ParseGreeting, ParseRequest;
  }

  /** As long as the client can be written to, it is told of success exactly when Tor was dialled and connected. */
  lemma SuccessIffConnected(input: Bytes, tor: Tor, canWrite: nat)
    requires canWrite >= 2
    ensures var s := Serve(input, tor, canWrite);
      && (Reply(0x00) in s.written <==> s.dialled.Some? && tor.connects)
      && (s.tunnel.Some? <==> Reply(0x00) in s.written)
      && (s.dialled.Some? ==>
            exists n, used :: ParseGreeting(input) == Some(n) && n <= |input|
              && ParseRequest(input[n..]) == Connect(s.dialled.value, used))
  {
    hide ParseRequest;
    assert forall c: byte, d: byte :: Reply(c) == Reply(d) ==> Reply(c)[1] == Reply(d)[1];
    var s := Serve(input, tor, canWrite);
    if s.dialled.Some? {
      var n := ParseGreeting(input).value;
      assert ParseRequest(input[n..]) == Connect(s.dialled.value, ParseRequest(input[n..]).used);
    }
  }

  lemma OtherCommand(command: byte, reserved: byte, a: Address, port: u16, rest: Bytes)
    requires WellFormed(a) && command != 0x01
    ensures ParseRequest(EncodeRequest(command, reserved, a, port) + rest) == NotConnect
  {
    hide ParseAddress, HostOf;
    var b := EncodeRequest(command, reserved, a, port) + rest;
    assert b[0] == 0x05 && b[1] == command;
  }

  /** The reply due to a well-formed request: none for a name that is no text or an address Tor does not take. */
  function ReplyDue(command: byte, a: Address, tor: Tor): seq<Bytes>
    requires WellFormed(a)
  {
    if command != 0x01 then [Reply(0x07)]
    else if HostOf(a) == None then []
    else if !tor.ready then [Reply(0x01)]
    else if !tor.takes then []
    else if !tor.connects then [Reply(0x05)]
    else [Reply(0x00)]
  }

  /** Every well-formed conversation, whatever its command and address and what follows, gets exactly the reply due. */
  lemma WholeRequestAnswered(
      methods: Bytes, command: byte, reserved: byte, a: Address, port: u16, rest: Bytes, tor: Tor, canWrite: nat)
    requires |methods| < 256 && WellFormed(a) && canWrite >= 2
    ensures Serve(EncodeGreeting(methods) + EncodeRequest(command, reserved, a, port) + rest, tor, canWrite).written
            == [CHOOSE_NO_AUTH] + ReplyDue(command, a, tor)
  {
    hide HostOf, EncodeRequest, EncodeGreeting, ParseGreeting, ParseRequest;
    var g, e := EncodeGreeting(methods), EncodeRequest(command, reserved, a, port);
    assert g + e + rest == g + (e + rest);
    GreetingRoundTrip(methods, e + rest);
    assert (g + e + rest)[|g|..] == e + rest;
    if command == 0x01 {
      RequestRoundTrip(reserved, a, port, rest);
    } else {
      OtherCommand(command, reserved, a, port, rest);
    }
  }

  /** Requests without a reply: cut short, of an unknown type, with a name that is no text, or one Tor does not take. */
  lemma SilentIff(input: Bytes, tor: Tor, canWrite: nat, n: nat)
    requires ParseGreeting(input) == Some(n) && canWrite >= 2
    ensures var r := ParseRequest(input[n..]);
      |Serve(input, tor, canWrite).written| == 1 <==>
        r in {Short, BadType, BadName} || (r.Connect? && tor.ready && !tor.takes)
  {
    hide ParseRequest;
  }

  lemma CutAddress(b: Bytes, a: Address, k: nat)
    requires WellFormed(a) && 4 <= k <= |b|
    requires |b| >= 4 + |AddressBytes(a)| && b[3] == TypeByte(a)
    requires b[4..4 + |AddressBytes(a)|] == AddressBytes(a)
    ensures ParseAddress(b[..k]) == if k < 4 + |AddressBytes(a)| then None else Some(a)
  {
    var c, end := b[..k], 4 + |AddressBytes(a)|;
    if k > 4 {
      assert c[4] == b[4..end][0] == AddressBytes(a)[0];
    }
    if k >= end {
      assert c[4..end] == b[4..end];
      if a.Domain? {
        assert c[5..end] == b[4..end][1..] == a.name;
      }
    }
  }

  /** A CONNECT request cut off anywhere is read as unfinished, never as another request. */
  lemma CutRequest(reserved: byte, a: Address, port: u16, k: nat)
    requires WellFormed(a) && HostOf(a).Some? && k < |EncodeRequest(0x01, reserved, a, port)|
    ensures ParseRequest(EncodeRequest(0x01, reserved, a, port)[..k]) == Short
  {
    hide HostOf, AddressBytes, ParseAddress;
    var e := EncodeRequest(0x01, reserved, a, port);
    assert e[4..4 + |AddressBytes(a)|] == AddressBytes(a);
    if k >= 4 {
      CutAddress(e, a, k);
    }
  }

  /** So a client that breaks off in the middle of its request has been sent the method selection and nothing else. */
  lemma CutOffGetsNoReply(methods: Bytes, reserved: byte, a: Address, port: u16, k: nat, tor: Tor, canWrite: nat)
    requires |methods| < 256 && WellFormed(a) && HostOf(a).Some? && canWrite >= 2
    requires k < |EncodeRequest(0x01, reserved, a, port)|
    ensures Serve(EncodeGreeting(methods) + EncodeRequest(0x01, reserved, a, port)[..k], tor, canWrite)
            == Session([CHOOSE_NO_AUTH], None, None)
  {
    hide HostOf, EncodeRequest, EncodeGreeting, ParseGreeting, ParseRequest;
    var g, cut := EncodeGreeting(methods), EncodeRequest(0x01, reserved, a, port)[..k];
    GreetingRoundTrip(methods, cut);
    assert (g + cut)[|g|..] == cut;
    CutRequest(reserved, a, port, k);
  }

  /** Every reply is laid out as section 6 of RFC 1928 has it, with the all-zero address and port for the bound one. */
  lemma ReplyIsWellFormed(code: byte)
    ensures var nowhere := IPv4([0, 0, 0, 0]);
      Reply(code) == [0x05, code, 0x00, TypeByte(nowhere)] + AddressBytes(nowhere) + [0, 0]
  {
  }
}
