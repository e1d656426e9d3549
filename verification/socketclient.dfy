/**
 * The bridge's WebSocket client: uplink bytes become an event packet, and incoming
 * packets are answered, announced or decoded.
 */
module SocketClient {
  import opened Wrappers
  import opened Codec

  /** Signals the client raises towards the rest of the bridge. */
  datatype Signal = TextReceived(message: string) | Connected | BinaryReceived(bytes: seq<Byte>)

  /** Packets sent and signals raised for one message. */
  datatype Reaction = Reaction(sent: seq<string>, raised: seq<Signal>)

  // ------------------------------------------------------ specification

  function Numbers(data: seq<Byte>): seq<Json> {
    seq(|data|, i requires 0 <= i < |data| => Num(Unsigned(data[i])))
  }

  /** An event of the namespace with one byte array. */
  function Packet(event: string, data: seq<Byte>): string {
    "42/mavlink,[\"" + event + "\"," + Print(Arr(Numbers(data))) + "]"
  }

  /** `toInt`: a whole number that fits an `int`, otherwise zero. */
  function ToInt(v: Json): int {
    if v.Num? && -0x8000_0000 <= v.n < 0x8000_0000 then v.n else 0
  }

  function Bytes(items: seq<Json>): seq<Byte> {
    seq(|items|, i requires 0 <= i < |items| => LowByte(ToInt(items[i])))
  }

  /** The bytes an event argument stands for: Base64 text or a list of numbers. */
  function Payload(v: Json, base64: string -> seq<Byte>): seq<Byte> {
    match v
    case Str(text) => base64(text)
    case Arr(items) => Bytes(items)
    case _ => []
  }

  /** `indexOf`: the first position of `c`, or -1. */
  function IndexOf(s: string, c: char): (k: int)
    ensures -1 <= k < |s|
    ensures k >= 0 ==> s[k] == c && c !in s[..k]
    ensures k < 0 ==> c !in s
  {
    if s == "" then -1
    else if s[0] == c then 0
    else
      var k := IndexOf(s[1..], c);
      assert s == [s[0]] + s[1..];
      assert k >= 0 ==> s[..k + 1] == [s[0]] + s[1..][..k];
      if k < 0 then -1 else k + 1
  }

  predicate Contains(s: string, part: string) {
    part <= s || (s != "" && Contains(s[1..], part))
  }

  /** The bytes of an event packet; empty if it has no JSON array with an argument. */
  function EventBytes(message: string, base64: string -> seq<Byte>): seq<Byte> {
    var start := IndexOf(message, '[');
    if start < 0 then []
    else
      var doc := ParseDocument(message[start..]);
      if doc.Some? && doc.value.Arr? && |doc.value.items| >= 2 then Payload(doc.value.items[1], base64) else []
  }

  datatype Kind = Open | Joined | Ping | Rejected | Event | Unknown

  /** Prefixes in the order in which they are compared. */
  function KindOf(message: string): Kind {
    if "0" <= message then Open
    else if "40/mavlink" <= message then Joined
    else if "2" <= message then Ping
    else if "44/mavlink" <= message then Rejected
    else if "42/mavlink" <= message || Contains(message, "mavlink:downlink") then Event
    else Unknown
  }

  function Received(message: string, base64: string -> seq<Byte>): Reaction {
    var text := TextReceived(message);
    match KindOf(message)
    case Open => Reaction(["40/mavlink,"], [text])
    case Joined => Reaction([], [text, Connected])
    case Ping => Reaction(["3"], [text])
    case Rejected => Reaction([], [text])
    case Event =>
      var bytes := EventBytes(message, base64);
      Reaction([], [text] + if bytes != [] then [BinaryReceived(bytes)] else [])
    case Unknown => Reaction([], [text])
  }

  // -------------------------------------------------------------- client

  class WebSocketClient {
    var isConnected: bool
    var sent: seq<string>
    var raised: seq<Signal>
    const base64: string -> seq<Byte>

    constructor (base64: string -> seq<Byte>)
      ensures !isConnected && sent == [] && raised == [] && this.base64 == base64
    {
      isConnected, sent, raised := false, [], [];
      this.base64 := base64;
    }

    method SendBinaryData(data: seq<Byte>)
      modifies this`sent
      ensures sent == old(sent) + if isConnected && data != [] then [Packet("mavlink:uplink", data)] else []
    {
      if isConnected && |data| > 0 {
        var byteArr := [];
        for i := 0 to |data|
          invariant byteArr == Numbers(data)[..i]
        {
          byteArr := byteArr + [Num(Unsigned(data[i]))];
        }
        var packet := "42/mavlink,[\"mavlink:uplink\"," + Print(Arr(byteArr)) + "]";
        assert packet == Packet("mavlink:uplink", data) by {
          assert byteArr == Numbers(data);
          UplinkPacket(data);
        }
        sent := sent + [packet];
      }
    }

    method OnTextMessageReceived(message: string)
      modifies this`sent, this`raised
      ensures var reaction := Received(message, base64);
        sent == old(sent) + reaction.sent && raised == old(raised) + reaction.raised
    {
      raised := raised + [TextReceived(message)];
      match KindOf(message) {
        case Open => sent := sent + ["40/mavlink,"];
        case Joined => raised := raised + [Connected];
        case Ping => sent := sent + ["3"];
        case Rejected =>
        case Event =>
          var bytes := DecodeEvent(message);
          if |bytes| > 0 {
            raised := raised + [BinaryReceived(bytes)];
          }
        case Unknown =>
      }
    }

    method DecodeEvent(message: string) returns (bytes: seq<Byte>)
      ensures bytes == EventBytes(message, base64)
    {
      bytes := [];
      var jsonStart := IndexOf(message, '[');
      if jsonStart != -1 {
        var doc := ParseDocument(message[jsonStart..]);
        if doc.Some? && doc.value.Arr? {
          var arr := doc.value.items;
          if |arr| >= 2 {
            var val := arr[1];
            if val.Str? {
              bytes := base64(val.text);
            } else if val.Arr? {
              for i := 0 to |val.items|
                invariant bytes == Bytes(val.items)[..i]
              {
                bytes := bytes + [LowByte(ToInt(val.items[i]))];
              }
            }
          }
        }
      }
    }
  }

  lemma UplinkPacket(data: seq<Byte>)
    ensures Packet("mavlink:uplink", data) == "42/mavlink,[\"mavlink:uplink\"," + Print(Arr(Numbers(data))) + "]"
  {
    assert "42/mavlink,[\"" + "mavlink:uplink" + "\"," == "42/mavlink,[\"mavlink:uplink\",";
  }

  // ------------------------------------------------------------- replies

  /**
   * What is answered, told from a message's first character: a handshake by joining the
   * namespace, a ping by a pong, anything else by nothing.
   */
  lemma RepliesByPrefix(message: string, base64: string -> seq<Byte>)
    ensures var reaction := Received(message, base64);
      && (reaction.sent == ["40/mavlink,"] <==> message != "" && message[0] == '0')
      && (reaction.sent == ["3"] <==> message != "" && message[0] == '2')
      && (reaction.sent == [] <==> message == "" || message[0] !in {'0', '2'})
      && (Connected in reaction.raised <==> |message| >= 10 && message[..10] == "40/mavlink")
      && reaction.raised != [] && reaction.raised[0] == TextReceived(message)
  {
    assert "40/mavlink,"[0] == '4' && "3"[0] == '3';
  }

  // ---------------------------------------------------------- round trip

  /** An event with one argument, as compact JSON behind the namespace. */
  function EventText(event: string, v: Json): string {
    "42/mavlink," + Print(Arr([Str(event), v]))
  }

  lemma PrintPair(a: Json, b: Json)
    ensures Print(Arr([a, b])) == "[" + (Print(a) + ("," + (Print(b) + "]")))
  {
    var arr := Arr([a, b]);
    assert PrintTail(arr, 2) == "]";
    assert PrintItems(arr, 1) == Print(b) + "]";
    assert PrintTail(arr, 1) == "," + PrintItems(arr, 1);
    assert PrintItems(arr, 0) == Print(a) + PrintTail(arr, 1);
  }

  lemma Regroup(event: string, printed: string)
    ensures "42/mavlink," + ("[" + ("\"" + event + "\"" + ("," + (printed + "]")))) == "42/mavlink,[\"" + event + "\"," + printed + "]"
  {
  }

  lemma EventTextParts(event: string, v: Json)
    requires PlainText(event)
    ensures EventText(event, v) == "42/mavlink,[\"" + event + "\"," + Print(v) + "]"
  {
    PlainIsEscaped(event);
    PrintPair(Str(event), v);
    Regroup(event, Print(v));
  }

  lemma {:induction false} IndexOfAfter(before: string, rest: string, c: char)
    requires c !in before && rest != "" && rest[0] == c
    ensures IndexOf(before + rest, c) == |before|
  {
    if before == "" {
      assert before + rest == rest;
    } else {
      assert before[0] in before && forall x :: x in before[1..] ==> x in before;
      IndexOfAfter(before[1..], rest, c);
      assert (before + rest)[1..] == before[1..] + rest;
    }
  }

  lemma DocumentParses(v: Json)
    ensures ParseDocument(Print(v)) == Some(v)
  {
    PrintParses(v, "");
    assert Print(v) + "" == Print(v);
  }

  /** Decoding an event gives the bytes its argument stands for, whatever the event's name and the argument. */
  lemma EventDecodes(event: string, v: Json, base64: string -> seq<Byte>)
    ensures EventBytes(EventText(event, v), base64) == Payload(v, base64)
  {
    var arr := Arr([Str(event), v]);
    var message := EventText(event, v);
    DocumentParses(arr);
    assert Print(arr)[0] == '[';
    IndexOfAfter("42/mavlink,", Print(arr), '[');
    assert message[11..] == Print(arr);
  }

  lemma TakesEventBranch(rest: string, base64: string -> seq<Byte>)
    ensures var message, bytes := "42/mavlink," + rest, EventBytes("42/mavlink," + rest, base64);
      Received(message, base64) == Reaction([], [TextReceived(message)] + if bytes != [] then [BinaryReceived(bytes)] else [])
  {
    var message := "42/mavlink," + rest;
    assert message[0] == '4' && message[1] == '2';
    assert message[..10] == "42/mavlink";
    assert !("0" <= message) && !("2" <= message);
    assert "40/mavlink"[1] == '0' && "44/mavlink"[1] == '4';
    assert KindOf(message) == Event;
  }

  lemma BytesOfNumbers(data: seq<Byte>)
    ensures Bytes(Numbers(data)) == data
  {
  }

  /**
   * For every byte string and every event name written without escapes, as the bridge's own is,
   * the packet built for it, read back, takes the event branch, answers nothing and raises
   * exactly the same bytes; an empty one raises none.
   */
  lemma PacketRoundTrip(event: string, data: seq<Byte>, base64: string -> seq<Byte>)
    requires PlainText(event)
    ensures var packet := Packet(event, data);
      Received(packet, base64) == Reaction([], [TextReceived(packet)] + if data != [] then [BinaryReceived(data)] else [])
  {
    var v := Arr(Numbers(data));
    EventTextParts(event, v);
    BytesOfNumbers(data);
    EventDecodes(event, v, base64);
    TakesEventBranch(Print(Arr([Str(event), v])), base64);
  }

  /** So different data never share a packet. */
  lemma PacketsDistinct(event: string, a: seq<Byte>, b: seq<Byte>)
    requires PlainText(event) && Packet(event, a) == Packet(event, b)
    ensures a == b
  {
    var base64 := (s: string) => [];
    PacketRoundTrip(event, a, base64);
    PacketRoundTrip(event, b, base64);
    var raised := Received(Packet(event, a), base64).raised;
    assert a != [] ==> raised[1] == BinaryReceived(a);
    assert b != [] ==> raised[1] == BinaryReceived(b);
    assert |raised| == (if a == [] then 1 else 2) == (if b == [] then 1 else 2);
  }

  // ------------------------------------------------------ event arguments

  /**
   * What the second argument of an event stands for, by its kind: text is Base64; in a list each
   * number that fits an `int` gives the byte equal to it modulo 256 and any other item gives zero;
   * anything else gives no bytes.
   */
  lemma ArgumentBytes(event: string, v: Json, base64: string -> seq<Byte>)
    ensures v.Str? ==> EventBytes(EventText(event, v), base64) == base64(v.text)
    ensures v.Arr? ==>
      var bytes := EventBytes(EventText(event, v), base64);
      |bytes| == |v.items| && forall i :: 0 <= i < |bytes| ==> IsByteOf(bytes[i], v.items[i])
    ensures !v.Str? && !v.Arr? ==> EventBytes(EventText(event, v), base64) == []
  {
    EventDecodes(event, v, base64);
  }

  predicate IsByteOf(b: Byte, v: Json) {
    if v.Num? && -0x8000_0000 <= v.n < 0x8000_0000 then (b - v.n) % 256 == 0 else b == 0
  }

  /** A packet without a JSON array, or whose array has no second item, carries no bytes. */
  lemma TooFewArguments(items: seq<Json>, rest: string, base64: string -> seq<Byte>)
    requires |items| < 2
    ensures EventBytes("42/mavlink," + Print(Arr(items)), base64) == []
    ensures '[' !in rest ==> EventBytes(rest, base64) == []
  {
    var message := "42/mavlink," + Print(Arr(items));
    DocumentParses(Arr(items));
    IndexOfAfter("42/mavlink,", Print(Arr(items)), '[');
    assert message[11..] == Print(Arr(items));
  }

  /** Containing a text means having it somewhere. */
  lemma {:induction false} ContainsIff(s: string, part: string)
    ensures Contains(s, part) <==> exists i :: 0 <= i <= |s| && part <= s[i..]
  {
    if part <= s {
      assert s[0..] == s;
    } else if s != "" {
      ContainsIff(s[1..], part);
      if i :| 0 <= i <= |s[1..]| && part <= s[1..][i..] {
        assert s[1..][i..] == s[i + 1..];
      }
      if i :| 0 <= i <= |s| && part <= s[i..] {
        assert i > 0 && s[i..] == s[1..][i - 1..];
      }
    }
  }
}
