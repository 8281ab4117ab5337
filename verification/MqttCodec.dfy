/** MQTT 3.1.1 as bytes: what the client writes and how it reads. */
module MqttCodec {
  import opened Bytes
  import opened Options

  type u16 = x: int | 0 <= x < 0x1_0000

  /** The lossy UTF-8 reading of a received topic. Nothing here depends on what it does with
      malformed input, so it is a parameter; topics are written as their bytes. */
  type Text = bytes -> string

  datatype Packet =
    | ConnAck(sessionPresent: bool, code: byte)
    | Publish(topic: string, payload: bytes, qos: byte, retain: bool, packetId: u16)
    | SubAck(packetId: u16)
    | PingResp
    | Other(kind: byte)

  /** The outcome of reading the front of a buffer. */
  datatype Decoded =
    | NeedMore
    | Whole(packet: Packet, used: nat)
    | Bad(reason: string)

  /** Lengths below this fit the four bytes a reader accepts (section 2.2.3 of MQTT 3.1.1). */
  const LENGTH_LIMIT := 128 * 128 * 128 * 128

  // ---------------------------------------------------------------- the length field

  /** `length` in base 128, least significant digit first; all but the last carry the high bit. */
  function LengthField(length: nat): bytes {
    if length < 128 then [length] else [length % 128 + 128] + LengthField(length / 128)
  }

  method EncodeRemainingLength(length: nat) returns (out: bytes)
    ensures out == LengthField(length)
  {
    out := [];
    var rest := length;
    while true
      invariant out + LengthField(rest) == LengthField(length)
      decreases rest
    {
      var digit: byte := rest % 128;
      rest := rest / 128;
      if rest > 0 {
        digit := digit + 0x80;
      }
      out := out + [digit];
      if rest == 0 {
        break;
      }
    }
  }

  /** The value of a length field of at most `limit` bytes at the front of `buffer`, and its size. */
  function ReadLengthField(buffer: bytes, limit: nat): Option<(nat, nat)> {
    if limit == 0 || buffer == [] then None
    else if buffer[0] < 128 then Some((buffer[0], 1))
    else Shifted(ReadLengthField(buffer[1..], limit - 1), buffer[0] % 128, 128, 1)
  }

  /** A field read after `used` bytes that were worth `value`, each unit counting `unit`. */
  function Shifted(field: Option<(nat, nat)>, value: nat, unit: nat, used: nat): Option<(nat, nat)> {
    match field
    case None => None
    case Some((more, size)) => Some((value + unit * more, used + size))
  }

  function ReadLength(buffer: bytes): Option<(nat, nat)> {
    ReadLengthField(buffer, 4)
  }

  lemma ShiftedTwice(field: Option<(nat, nat)>, digit: nat, value: nat, unit: nat, used: nat)
    ensures Shifted(Shifted(field, digit, 128, 1), value, unit, used)
         == Shifted(field, value + digit * unit, unit * 128, used + 1)
  {
    if field.Some? {
      var more := field.value.0;
      assert unit * (digit + 128 * more) == digit * unit + unit * 128 * more;
    }
  }

  /** Reading one digit of the field: the value so far absorbs it, the unit grows. */
  lemma DecodeStep(buffer: bytes, index: nat, value: nat, multiplier: nat)
    requires index < |buffer| && index < 4
    ensures var digit := buffer[index] % 128;
      Shifted(ReadLengthField(buffer[index..], 4 - index), value, multiplier, index)
        == if buffer[index] < 128 then Some((value + digit * multiplier, index + 1))
           else Shifted(ReadLengthField(buffer[index + 1..], 3 - index),
                        value + digit * multiplier, multiplier * 128, index + 1)
  {
    ShiftedTwice(ReadLengthField(buffer[index + 1..], 3 - index),
                 buffer[index] % 128, value, multiplier, index);
    assert buffer[index..][1..] == buffer[index + 1..];
    assert buffer[index] < 128 ==> multiplier * buffer[index] == buffer[index] % 128 * multiplier;
  }

  lemma ShiftedByNothing(field: Option<(nat, nat)>)
    ensures Shifted(field, 0, 1, 0) == field
  {
  }

  lemma FieldEnds(buffer: bytes, limit: nat, value: nat, unit: nat, used: nat)
    requires limit == 0 || buffer == []
    ensures Shifted(ReadLengthField(buffer, limit), value, unit, used) == None
  {
  }

  method DecodeRemainingLength(buffer: bytes) returns (field: Option<(nat, nat)>)
    ensures field == ReadLength(buffer)
  {
    hide Shifted, ReadLengthField;
    assert buffer[0..] == buffer;
    ShiftedByNothing(ReadLength(buffer));
    var value, multiplier, index := 0, 1, 0;
    while index < |buffer| && index < 4
      invariant 0 <= index <= 4 && index <= |buffer|
      invariant value >= 0 && multiplier >= 0
      invariant ReadLength(buffer)
             == Shifted(ReadLengthField(buffer[index..], 4 - index), value, multiplier, index)
    {
      var digit: nat := buffer[index] % 128;
      DecodeStep(buffer, index, value, multiplier);
      value := value + digit * multiplier;
      if buffer[index] < 0x80 {
        return Some((value, index + 1));
      }
      multiplier := multiplier * 128;
      index := index + 1;
    }
    FieldEnds(buffer[index..], 4 - index, value, multiplier, index);
    return None;
  }

  /** What the field of a length reads back as, under a limit: itself, unless it is too long. */
  lemma {:induction false} LengthFieldRead(length: nat, limit: nat, rest: bytes)
    ensures ReadLengthField(LengthField(length) + rest, limit)
         == if |LengthField(length)| <= limit then Some((length, |LengthField(length)|)) else None
    decreases length
  {
    var field := LengthField(length) + rest;
    if length >= 128 && limit > 0 {
      LengthFieldRead(length / 128, limit - 1, rest);
      assert field[1..] == LengthField(length / 128) + rest;
    }
  }

  lemma LengthFieldFits(length: nat)
    ensures |LengthField(length)| <= 4 <==> length < LENGTH_LIMIT
  {
    var second := length / 128;
    var third := second / 128;
    var fourth := third / 128;
    assert |LengthField(fourth)| == 1 <==> fourth < 128;
    assert |LengthField(third)| <= 2 <==> third < 128 * 128;
    assert |LengthField(second)| <= 3 <==> second < 128 * 128 * 128;
  }

  /** The length codec is an inverse exactly for lengths of at most four digits; a longer field
      reads as "need more bytes", whatever follows it. */
  lemma LengthRoundTrip(length: nat, rest: bytes)
    ensures ReadLength(LengthField(length) + rest)
         == if length < LENGTH_LIMIT then Some((length, |LengthField(length)|)) else None
  {
    LengthFieldRead(length, 4, rest);
    LengthFieldFits(length);
  }

  /** The encoding is minimal: no field with the same value is shorter, and none of its size differs. */
  lemma {:induction false} LengthFieldMinimal(buffer: bytes, limit: nat)
    requires ReadLengthField(buffer, limit).Some?
    ensures var (length, used) := ReadLengthField(buffer, limit).value;
      && 1 <= used <= |buffer|
      && |LengthField(length)| <= used
      && (|LengthField(length)| == used ==> buffer[..used] == LengthField(length))
    decreases limit
  {
    if buffer[0] >= 128 {
      LengthFieldMinimal(buffer[1..], limit - 1);
      var (more, size) := ReadLengthField(buffer[1..], limit - 1).value;
      var length := buffer[0] % 128 + 128 * more;
      assert length / 128 == more && length % 128 == buffer[0] % 128;
      assert buffer[..size + 1] == [buffer[0]] + buffer[1..][..size];
    }
  }

  /** A complete field does not change when bytes follow it, and no shorter prefix completes it. */
  lemma {:induction false} LengthFieldStable(buffer: bytes, limit: nat, more: bytes, cut: nat)
    requires ReadLengthField(buffer, limit).Some?
    requires cut <= |buffer|
    ensures ReadLengthField(buffer + more, limit) == ReadLengthField(buffer, limit)
    ensures ReadLengthField(buffer[..cut], limit)
         == if cut < ReadLengthField(buffer, limit).value.1 then None else ReadLengthField(buffer, limit)
    decreases limit
  {
    if buffer[0] >= 128 {
      LengthFieldStable(buffer[1..], limit - 1, more, if cut > 0 then cut - 1 else 0);
      assert (buffer + more)[1..] == buffer[1..] + more;
      LengthFieldMinimal(buffer[1..], limit - 1);
      if cut > 0 {
        assert buffer[..cut][1..] == buffer[1..][..cut - 1];
      }
    }
  }

  // ---------------------------------------------------------------- encoders

  /** A 16-bit number, most significant byte first. */
  function U16(value: u16): bytes {
    [value / 256, value % 256]
  }

  /** What fits a 16-bit length prefix; anything longer is cut. */
  function Cut(text: bytes): bytes {
    if |text| <= 0xFFFF then text else text[..0xFFFF]
  }

  function StringField(text: bytes): bytes {
    U16(|Cut(text)|) + Cut(text)
  }

  method PutString(buffer: bytes, text: bytes) returns (out: bytes)
    ensures out == buffer + StringField(text)
  {
    var length := if |text| < 0xFFFF then |text| else 0xFFFF;
    out := buffer + U16(length);
    out := out + text[..length];
    assert text[..length] == Cut(text);
  }

  function Frame(header: byte, body: bytes): bytes {
    [header] + LengthField(|body|) + body
  }

  function PublishBody(topic: bytes, payload: bytes, qos: byte, packetId: u16): bytes {
    StringField(topic) + PublishTail(payload, qos, packetId)
  }

  function PublishTail(payload: bytes, qos: byte, packetId: u16): bytes {
    if qos > 0 then U16(packetId) + payload else payload
  }

  function PublishHeader(qos: byte, retain: bool): byte {
    0x30 + qos % 4 * 2 + (if retain then 1 else 0)
  }

  function PublishPacket(topic: bytes, payload: bytes, qos: byte, retain: bool, packetId: u16): bytes {
    Frame(PublishHeader(qos, retain), PublishBody(topic, payload, qos, packetId))
  }

  method EncodePublishWith(topic: bytes, payload: bytes, qos: byte, retain: bool, packetId: u16)
    returns (packet: bytes)
    ensures packet == PublishPacket(topic, payload, qos, retain, packetId)
  {
    hide StringField, LengthField, PublishHeader;
    var body := PutString([], topic);
    assert body == StringField(topic);
    if qos > 0 {
      body := body + U16(packetId);
    }
    body := body + payload;
    assert body == PublishBody(topic, payload, qos, packetId);
    var length := EncodeRemainingLength(|body|);
    packet := [PublishHeader(qos, retain)] + length + body;
  }

  function SubscribePacket(packetId: u16, filter: bytes): bytes {
    Frame(0x82, U16(packetId) + StringField(filter) + [0])
  }

  function UnsubscribePacket(packetId: u16, filter: bytes): bytes {
    Frame(0xA2, U16(packetId) + StringField(filter))
  }

  function PubAckPacket(packetId: u16): bytes {
    Frame(0x40, U16(packetId))
  }

  const PING_REQUEST: bytes := [0xC0, 0x00]
  const DISCONNECT: bytes := [0xE0, 0x00]

  // ---------------------------------------------------------------- the decoder

  function ReadU16(buffer: bytes): u16
    requires |buffer| >= 2
  {
    buffer[0] as int * 256 + buffer[1]
  }

  datatype StringRead = Read(text: string, rest: bytes) | Truncated(reason: string)

  function ReadString(text: Text, buffer: bytes): StringRead {
    if |buffer| < 2 then Truncated("truncated string length")
    else
      var end := 2 + ReadU16(buffer);
      if |buffer| < end then Truncated("truncated string")
      else Read(text(buffer[2..end]), buffer[end..])
  }

  function DecodePublish(text: Text, flags: byte, body: bytes, used: nat): Decoded {
    var qos := flags / 2 % 4;
    var retain := flags % 2 == 1;
    match ReadString(text, body)
    case Truncated(reason) => Bad(reason)
    case Read(topic, rest) =>
      if qos == 0 then Whole(Publish(topic, rest, qos, retain, 0), used)
      else if |rest| < 2 then Bad("truncated publish id")
      else Whole(Publish(topic, rest[2..], qos, retain, ReadU16(rest)), used)
  }

  /** A packet whose header byte and whole body have arrived. */
  function DecodeBody(text: Text, header: byte, body: bytes, used: nat): Decoded {
    match header / 16
    case 2 =>
      if |body| < 2 then Bad("truncated CONNACK")
      else Whole(ConnAck(body[0] % 2 == 1, body[1]), used)
    case 3 => DecodePublish(text, header % 16, body, used)
    case 4 => if |body| < 2 then Bad("truncated PUBACK") else Whole(Other(4), used)
    case 9 => if |body| < 2 then Bad("truncated SUBACK") else Whole(SubAck(ReadU16(body)), used)
    case 13 => Whole(PingResp, used)
    case kind => Whole(Other(kind), used)
  }

  /** Where the packet at the front of `buffer` ends, once its length field is complete. */
  function PacketEnd(buffer: bytes): Option<(nat, nat)> {
    if |buffer| < 2 then None
    else
      match ReadLength(buffer[1..])
      case None => None
      case Some((length, size)) => Some((1 + size, 1 + size + length))
  }

  function Decode(text: Text, buffer: bytes): Decoded {
    match PacketEnd(buffer)
    case None => NeedMore
    case Some((start, end)) =>
      if |buffer| < end then NeedMore
      else DecodeBody(text, buffer[0], buffer[start..end], end)
  }

  // ---------------------------------------------------------------- properties of the decoder

  lemma PacketEndIs(buffer: bytes)
    ensures PacketEnd(buffer)
         == if |buffer| < 2 || ReadLength(buffer[1..]).None? then None
            else var (length, size) := ReadLength(buffer[1..]).value; Some((1 + size, 1 + size + length))
  {
  }

  lemma PacketEndStable(buffer: bytes, more: bytes, cut: nat)
    requires PacketEnd(buffer).Some? && cut <= |buffer|
    ensures var (start, end) := PacketEnd(buffer).value;
      && 2 <= start <= end && start <= |buffer|
      && PacketEnd(buffer + more) == PacketEnd(buffer)
      && PacketEnd(buffer[..cut]) == if cut < start then None else PacketEnd(buffer)
  {
    hide ReadLengthField, LengthField, PacketEnd;
    PacketEndIs(buffer);
    var length := buffer[1..];
    LengthFieldStable(length, 4, more, if cut > 0 then cut - 1 else 0);
    LengthFieldMinimal(length, 4);
    PacketEndIs(buffer + more);
    assert (buffer + more)[1..] == length + more;
    PacketEndIs(buffer[..cut]);
    if cut > 0 {
      assert buffer[..cut][1..] == length[..cut - 1];
    }
  }

  /** A decoded packet or error is settled: bytes that follow do not change it, it takes at least
      two bytes, and the packet's own bytes are needed, every one, before anything is decoded. */
  lemma DecodeIsSettled(text: Text, buffer: bytes, more: bytes)
    requires Decode(text, buffer) != NeedMore
    ensures Decode(text, buffer + more) == Decode(text, buffer)
    ensures exists end ::
      && 2 <= end <= |buffer|
      && (Decode(text, buffer).Whole? ==> Decode(text, buffer).used == end)
      && Decode(text, buffer[..end]) == Decode(text, buffer)
      && forall cut :: 0 <= cut < end ==> Decode(text, buffer[..cut]) == NeedMore
  {
    var (start, end) := PacketEnd(buffer).value;
    PacketEndStable(buffer, more, end);
    assert (buffer + more)[start..end] == buffer[start..end];
    assert buffer[..end][start..end] == buffer[start..end];
    forall cut | 0 <= cut < end
      ensures Decode(text, buffer[..cut]) == NeedMore
    {
      PacketEndStable(buffer, more, cut);
    }
  }

  /** A frame decodes to its body, or never if its length needs a fifth digit. */
  lemma FrameDecodes(text: Text, header: byte, body: bytes, rest: bytes)
    ensures Decode(text, Frame(header, body) + rest)
         == if |body| < LENGTH_LIMIT then DecodeBody(text, header, body, |Frame(header, body)|)
            else NeedMore
  {
    var packet := Frame(header, body) + rest;
    assert packet[1..] == LengthField(|body|) + (body + rest);
    LengthRoundTrip(|body|, body + rest);
    if |body| < LENGTH_LIMIT {
      var start := 1 + |LengthField(|body|)|;
      assert packet[start..start + |body|] == body;
    }
  }

  lemma StringFieldRead(text: Text, topic: bytes, rest: bytes)
    ensures ReadString(text, StringField(topic) + rest) == Read(text(Cut(topic)), rest)
  {
    var buffer := StringField(topic) + rest;
    var length := |Cut(topic)|;
    assert buffer[0] == length / 256 && buffer[1] == length % 256;
    assert buffer[2..2 + length] == Cut(topic);
    assert buffer[2 + length..] == rest;
  }

  lemma PublishHeaderBits(qos: byte, retain: bool)
    ensures PublishHeader(qos, retain) / 16 == 3
    ensures PublishHeader(qos, retain) % 16 / 2 % 4 == qos % 4
    ensures (PublishHeader(qos, retain) % 2 == 1) == retain
  {
  }

  /** What an encoded PUBLISH says, as the reader sees it. A QoS above 3 keeps two bits in the
      header but still writes the packet id, which is read as payload when those bits are zero. */
  function PublishRead(text: Text, topic: bytes, payload: bytes, qos: byte, retain: bool, packetId: u16)
    : Packet
  {
    Publish(text(Cut(topic)),
            if qos > 0 && qos % 4 == 0 then U16(packetId) + payload else payload,
            qos % 4, retain, if qos % 4 > 0 then packetId else 0)
  }

  lemma PublishBodyDecodes(text: Text, topic: bytes, payload: bytes, qos: byte, retain: bool,
                           packetId: u16, used: nat)
    ensures DecodePublish(text, PublishHeader(qos, retain) % 16, PublishBody(topic, payload, qos, packetId), used)
         == Whole(PublishRead(text, topic, payload, qos, retain, packetId), used)
  {
    hide PublishHeader, ReadString, StringField;
    PublishHeaderBits(qos, retain);
    var tail := PublishTail(payload, qos, packetId);
    StringFieldRead(text, topic, tail);
    if qos > 0 {
      assert tail[2..] == payload;
      assert ReadU16(tail) == packetId;
    }
  }

  /** What decoding an encoded PUBLISH returns, for every argument the encoder accepts. */
  lemma PublishDecodes(text: Text, topic: bytes, payload: bytes, qos: byte, retain: bool, packetId: u16,
                       rest: bytes)
    ensures Decode(text, PublishPacket(topic, payload, qos, retain, packetId) + rest)
         == if |PublishBody(topic, payload, qos, packetId)| < LENGTH_LIMIT
            then Whole(PublishRead(text, topic, payload, qos, retain, packetId),
                       |PublishPacket(topic, payload, qos, retain, packetId)|)
            else NeedMore
  {
    hide PublishBody, PublishHeader, DecodePublish, PublishRead, LengthField;
    var body := PublishBody(topic, payload, qos, packetId);
    FrameDecodes(text, PublishHeader(qos, retain), body, rest);
    PublishHeaderBits(qos, retain);
    PublishBodyDecodes(text, topic, payload, qos, retain, packetId,
                       |PublishPacket(topic, payload, qos, retain, packetId)|);
  }

  /** PUBLISH survives the wire exactly when its body fits the length field, its QoS fits two bits,
      its topic reads back whole and a QoS 0 message has no packet id to lose. */
  lemma PublishRoundTrip(text: Text, topic: bytes, payload: bytes, qos: byte, retain: bool, packetId: u16,
                         rest: bytes)
    ensures (Decode(text, PublishPacket(topic, payload, qos, retain, packetId) + rest)
             == Whole(Publish(text(topic), payload, qos, retain, packetId),
                      |PublishPacket(topic, payload, qos, retain, packetId)|))
       <==>
         && |PublishBody(topic, payload, qos, packetId)| < LENGTH_LIMIT
         && qos < 4
         && (qos == 0 ==> packetId == 0)
         && (|topic| > 0xFFFF ==> text(topic[..0xFFFF]) == text(topic))
  {
    hide Decode, PublishBody, PublishPacket;
    PublishDecodes(text, topic, payload, qos, retain, packetId, rest);
  }

  /** Until the last byte of an encoded packet arrives, the reader waits. */
  lemma PublishPrefixWaits(text: Text, topic: bytes, payload: bytes, qos: byte, retain: bool, packetId: u16,
                           cut: nat)
    requires cut < |PublishPacket(topic, payload, qos, retain, packetId)|
    ensures Decode(text, PublishPacket(topic, payload, qos, retain, packetId)[..cut]) == NeedMore
  {
    hide Decode, PublishBody, PublishPacket;
    var packet := PublishPacket(topic, payload, qos, retain, packetId);
    PublishDecodes(text, topic, payload, qos, retain, packetId, []);
    assert packet + [] == packet == packet[..cut] + packet[cut..];
    if Decode(text, packet[..cut]) != NeedMore {
      DecodeIsSettled(text, packet[..cut], packet[cut..]);
    }
  }

  // ---------------------------------------------------------------- the packets, byte by byte

  lemma HeaderParts(kind: nat, flags: nat)
    requires kind < 16 && flags < 16
    ensures kind * 16 + flags < 256
    ensures (kind * 16 + flags) / 16 == kind && (kind * 16 + flags) % 16 == flags
  {
  }

  /** A CONNACK says in its first byte whether the session is resumed, and in its second why not. */
  lemma ConnAckDecodes(text: Text, flags: nat, first: byte, second: byte, tail: bytes, rest: bytes)
    requires flags < 16 && 2 + |tail| < LENGTH_LIMIT
    ensures var packet := Frame(0x20 + flags, [first, second] + tail);
      Decode(text, packet + rest) == Whole(ConnAck(first % 2 == 1, second), |packet|)
  {
    hide Frame, Decode;
    HeaderParts(2, flags);
    var body := [first, second] + tail;
    assert |body| == 2 + |tail| && body[0] == first && body[1] == second;
    FrameDecodes(text, 0x20 + flags, body, rest);
  }

  /** A SUBACK says in its first two bytes which request it answers. */
  lemma SubAckDecodes(text: Text, flags: nat, first: byte, second: byte, tail: bytes, rest: bytes)
    requires flags < 16 && 2 + |tail| < LENGTH_LIMIT
    ensures var packet := Frame(0x90 + flags, [first, second] + tail);
      Decode(text, packet + rest) == Whole(SubAck(first * 256 + second), |packet|)
  {
    hide Frame, Decode;
    HeaderParts(9, flags);
    var body := [first, second] + tail;
    assert |body| == 2 + |tail| && body[0] == first && body[1] == second;
    FrameDecodes(text, 0x90 + flags, body, rest);
  }

  /** A PUBACK needs its two bytes, which nobody looks at. */
  lemma PubAckDecodes(text: Text, flags: nat, first: byte, second: byte, tail: bytes, rest: bytes)
    requires flags < 16 && 2 + |tail| < LENGTH_LIMIT
    ensures var packet := Frame(0x40 + flags, [first, second] + tail);
      Decode(text, packet + rest) == Whole(Other(4), |packet|)
  {
    hide Frame, Decode;
    HeaderParts(4, flags);
    var body := [first, second] + tail;
    assert |body| == 2 + |tail|;
    FrameDecodes(text, 0x40 + flags, body, rest);
  }

  /** A PINGRESP may carry anything, and so may every kind the client has no use for. */
  lemma OtherKindsDecode(text: Text, kind: nat, flags: nat, body: bytes, rest: bytes)
    requires kind < 16 && kind !in {2, 3, 4, 9} && flags < 16 && |body| < LENGTH_LIMIT
    ensures kind * 16 + flags < 256
    ensures var packet := Frame(kind * 16 + flags, body);
      Decode(text, packet + rest) == Whole(if kind == 13 then PingResp else Other(kind), |packet|)
  {
    hide Frame, Decode;
    HeaderParts(kind, flags);
    FrameDecodes(text, kind * 16 + flags, body, rest);
  }

  /** Of the kinds that need two bytes, fewer are an error of that kind's own. */
  lemma ShortBodiesAreBad(text: Text, kind: nat, flags: nat, body: bytes, rest: bytes)
    requires kind in {2, 4, 9} && flags < 16 && |body| < 2
    ensures kind * 16 + flags < 256
    ensures Decode(text, Frame(kind * 16 + flags, body) + rest)
         == Bad(if kind == 2 then "truncated CONNACK" else if kind == 4 then "truncated PUBACK" else "truncated SUBACK")
  {
    hide Frame, Decode;
    HeaderParts(kind, flags);
    FrameDecodes(text, kind * 16 + flags, body, rest);
  }

  /** The flags of a PUBLISH: its retain bit, two bits of QoS, and a bit that is not looked at. */
  function PublishFlags(again: bool, qos: nat, retain: bool): nat {
    (if again then 8 else 0) + 2 * qos + (if retain then 1 else 0)
  }

  lemma PublishFlagBits(again: bool, qos: nat, retain: bool)
    requires qos < 4
    ensures PublishFlags(again, qos, retain) < 16
    ensures PublishFlags(again, qos, retain) / 2 % 4 == qos
    ensures (PublishFlags(again, qos, retain) % 2 == 1) == retain
  {
  }

  /** A received PUBLISH: the topic behind its length, then, above QoS 0, the id, then the payload. */
  lemma ReceivedPublishDecodes(text: Text, again: bool, qos: nat, retain: bool, topic: bytes, first: byte,
                               second: byte, payload: bytes, rest: bytes)
    requires qos < 4 && |topic| <= 0xFFFF
    requires 2 + |topic| + (if qos == 0 then 0 else 2) + |payload| < LENGTH_LIMIT
    ensures PublishFlags(again, qos, retain) < 16
    ensures var id: bytes := if qos == 0 then [] else [first, second];
      var packet := Frame(0x30 + PublishFlags(again, qos, retain),
                          [|topic| / 256, |topic| % 256] + topic + id + payload);
      Decode(text, packet + rest)
        == Whole(Publish(text(topic), payload, qos, retain, if qos == 0 then 0 else first * 256 + second), |packet|)
  {
    hide Frame, Decode;
    PublishFlagBits(again, qos, retain);
    var flags := PublishFlags(again, qos, retain);
    hide PublishFlags;
    HeaderParts(3, flags);
    var id: bytes := if qos == 0 then [] else [first, second];
    var body := [|topic| / 256, |topic| % 256] + topic + id + payload;
    FrameDecodes(text, 0x30 + flags, body, rest);
    ReceivedBodyReads(text, flags, topic, first, second, payload, |Frame(0x30 + flags, body)|);
  }

  lemma ReceivedBodyReads(text: Text, flags: nat, topic: bytes, first: byte, second: byte, payload: bytes, used: nat)
    requires flags < 16 && |topic| <= 0xFFFF
    ensures var qos := flags / 2 % 4;
      var id: bytes := if qos == 0 then [] else [first, second];
      DecodePublish(text, flags, [|topic| / 256, |topic| % 256] + topic + id + payload, used)
        == Whole(Publish(text(topic), payload, qos, flags % 2 == 1, if qos == 0 then 0 else first * 256 + second), used)
  {
    hide ReadString;
    var qos := flags / 2 % 4;
    var id: bytes := if qos == 0 then [] else [first, second];
    TopicReads(text, topic, id + payload);
    var prefix: bytes := [|topic| / 256, |topic| % 256];
    assert prefix + topic + id + payload == prefix + topic + (id + payload);
    if qos == 0 {
      assert id + payload == payload;
    } else {
      assert (id + payload)[2..] == payload && (id + payload)[0] == first && (id + payload)[1] == second;
    }
  }

  lemma TopicReads(text: Text, topic: bytes, rest: bytes)
    requires |topic| <= 0xFFFF
    ensures ReadString(text, [|topic| / 256, |topic| % 256] + topic + rest) == Read(text(topic), rest)
  {
    assert Cut(topic) == topic;
    StringFieldRead(text, topic, rest);
  }

  /** A PUBLISH that ends within its topic's length, within the topic, or within its id. */
  lemma ShortPublishIsBad(text: Text, again: bool, qos: nat, retain: bool, body: bytes, rest: bytes)
    requires qos < 4 && |body| < LENGTH_LIMIT
    requires |body| < 2 || (var end := 2 + body[0] as int * 256 + body[1];
                            |body| < end || (qos > 0 && |body| < end + 2))
    ensures PublishFlags(again, qos, retain) < 16
    ensures Decode(text, Frame(0x30 + PublishFlags(again, qos, retain), body) + rest)
         == Bad(if |body| < 2 then "truncated string length"
                else if |body| < 2 + body[0] as int * 256 + body[1] then "truncated string"
                else "truncated publish id")
  {
    hide Frame, Decode;
    PublishFlagBits(again, qos, retain);
    HeaderParts(3, PublishFlags(again, qos, retain));
    FrameDecodes(text, 0x30 + PublishFlags(again, qos, retain), body, rest);
  }

  // ---------------------------------------------------------------- what the client writes

  /** Where the body of a frame stands, and that it ends with the frame. */
  lemma FrameBody(header: byte, body: bytes)
    requires |body| < LENGTH_LIMIT
    ensures var packet := Frame(header, body);
      packet[0] == header && PacketEnd(packet) == Some((|packet| - |body|, |packet|))
      && packet[|packet| - |body|..] == body
  {
    var packet := Frame(header, body);
    assert packet[1..] == LengthField(|body|) + body;
    LengthRoundTrip(|body|, body);
  }

  /** A short frame carries its length in one byte. */
  lemma ShortFrame(header: byte, body: bytes)
    requires |body| < 128
    ensures Frame(header, body) == [header, |body|] + body
  {
    assert LengthField(|body|) == [|body|];
  }

  /** A length field's digits are those of the length in base 128, the least significant first, and each
      but the last says that another follows. */
  lemma {:induction false} LengthFieldDigits(length: nat, i: nat)
    requires i < |LengthField(length)|
    ensures LengthField(length)[i] % 128 == Quotient128(length, i) % 128
    ensures LengthField(length)[i] >= 128 <==> i + 1 < |LengthField(length)|
  {
    if i > 0 {
      LengthFieldDigits(length / 128, i - 1);
    } else {
      assert |LengthField(length)| > 1 <==> length >= 128;
    }
  }

  /** The length divided by 128 so many times. */
  function Quotient128(length: nat, times: nat): nat {
    if times == 0 then length else Quotient128(length / 128, times - 1)
  }

  lemma PubAckBytes(packetId: u16)
    ensures PubAckPacket(packetId) == [0x40, 2, packetId / 256, packetId % 256]
  {
    ShortFrame(0x40, U16(packetId));
  }

  /** What a broker reads in a SUBSCRIBE: its id, its filter, and that QoS 0 is asked for. */
  lemma SubscribeReadsBack(text: Text, packetId: u16, filter: bytes)
    ensures var packet := SubscribePacket(packetId, filter);
      packet[0] == 0x82
      && exists start :: PacketEnd(packet) == Some((start, |packet|)) && start + 2 <= |packet|
           && ReadU16(packet[start..]) == packetId
           && ReadString(text, packet[start + 2..]) == Read(text(Cut(filter)), [0])
  {
    var body := U16(packetId) + StringField(filter) + [0];
    FrameBody(0x82, body);
    var packet := SubscribePacket(packetId, filter);
    var start := |packet| - |body|;
    RequestBody(text, packetId, filter, [0]);
    assert packet[start..] == body && packet[start + 2..] == body[2..];
  }

  /** What it reads in an UNSUBSCRIBE: the id and the filter, and nothing more. */
  lemma UnsubscribeReadsBack(text: Text, packetId: u16, filter: bytes)
    ensures var packet := UnsubscribePacket(packetId, filter);
      packet[0] == 0xA2
      && exists start :: PacketEnd(packet) == Some((start, |packet|)) && start + 2 <= |packet|
           && ReadU16(packet[start..]) == packetId
           && ReadString(text, packet[start + 2..]) == Read(text(Cut(filter)), [])
  {
    var body := U16(packetId) + StringField(filter);
    assert body + [] == body;
    FrameBody(0xA2, body);
    var packet := UnsubscribePacket(packetId, filter);
    var start := |packet| - |body|;
    RequestBody(text, packetId, filter, []);
    assert packet[start..] == body && packet[start + 2..] == body[2..];
  }

  lemma RequestBody(text: Text, packetId: u16, filter: bytes, tail: bytes)
    ensures var body := U16(packetId) + StringField(filter) + tail;
      && |body| >= 2 && ReadU16(body) == packetId
      && ReadString(text, body[2..]) == Read(text(Cut(filter)), tail)
  {
    var body := U16(packetId) + StringField(filter) + tail;
    assert body[2..] == StringField(filter) + tail;
    StringFieldRead(text, filter, tail);
  }

  // ---------------------------------------------------------------- streams that never decode

  /** The field ends at its first byte without the high bit, if that comes in time. */
  lemma {:induction false} FieldEndsInTime(buffer: bytes, limit: nat)
    ensures ReadLengthField(buffer, limit).Some? <==> exists i :: 0 <= i < |buffer| && i < limit && buffer[i] < 128
    decreases limit
  {
    if limit > 0 && buffer != [] && buffer[0] >= 128 {
      var rest := buffer[1..];
      FieldEndsInTime(rest, limit - 1);
      assert forall i :: 0 <= i < |rest| ==> rest[i] == buffer[i + 1];
      assert forall i :: 1 <= i < |buffer| ==> buffer[i] == rest[i - 1];
    }
  }

  /** Four length bytes, all with the continuation bit: the reader accepts no fifth. */
  predicate IsStuck(buffer: bytes) {
    |buffer| >= 5 && forall i :: 1 <= i <= 4 ==> buffer[i] >= 128
  }

  function Zeros(count: nat): bytes {
    seq(count, i => 0)
  }

  /** Bytes that end the length field, unless the buffer is stuck. */
  lemma FieldCanEnd(buffer: bytes)
    requires !IsStuck(buffer)
    ensures PacketEnd(buffer + Zeros(6)).Some?
  {
    hide ReadLengthField;
    var padded := buffer + Zeros(6);
    var field := padded[1..];
    FieldEndsInTime(field, 4);
    var i := if |buffer| >= 5 then (var i :| 1 <= i <= 4 && buffer[i] < 128; i)
             else if buffer == [] then 1 else |buffer|;
    assert field[i - 1] == padded[i] < 128;
  }

  lemma BodyDecodes(text: Text, header: byte, body: bytes, used: nat)
    ensures DecodeBody(text, header, body, used) != NeedMore
  {
    hide ReadString;
  }

  /** Some continuation of the buffer decodes, unless it is stuck. */
  lemma CanDecode(text: Text, buffer: bytes) returns (more: bytes)
    requires !IsStuck(buffer)
    ensures more != [] && Decode(text, buffer + more) != NeedMore
  {
    hide DecodeBody, PacketEnd, IsStuck;
    FieldCanEnd(buffer);
    var padded := buffer + Zeros(6);
    var (start, end) := PacketEnd(padded).value;
    more := Zeros(6) + Zeros(end);
    PacketEndStable(padded, Zeros(end), 0);
    assert buffer + more == padded + Zeros(end);
    BodyDecodes(text, (buffer + more)[0], (buffer + more)[start..end], end);
  }

  lemma StuckNeedsMore(text: Text, buffer: bytes, more: bytes)
    requires IsStuck(buffer)
    ensures IsStuck(buffer + more) && Decode(text, buffer + more) == NeedMore
  {
    hide ReadLengthField;
    FieldEndsInTime((buffer + more)[1..], 4);
  }

  /** No bytes at all complete the packet at the front of `buffer`. */
  ghost predicate NeverDecodes(text: Text, buffer: bytes) {
    forall more :: Decode(text, buffer + more) == NeedMore
  }

  /** A stream is waited on for ever exactly when its length field has four continuation bytes. */
  lemma NeverDecodesExactly(text: Text, buffer: bytes)
    ensures NeverDecodes(text, buffer) <==> IsStuck(buffer)
  {
    hide Decode, IsStuck;
    if IsStuck(buffer) {
      forall more
        ensures Decode(text, buffer + more) == NeedMore
      {
        StuckNeedsMore(text, buffer, more);
      }
    } else {
      var more := CanDecode(text, buffer);
    }
  }
}
