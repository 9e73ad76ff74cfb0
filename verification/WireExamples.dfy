/**
  Packets and their bytes, octet by octet, as sections 3.1 to 3.14 of MQTT 3.1.1 lay them out: what the writer generates for
  the packet and what the parser emits for the bytes, for each of the fourteen types.
*/
module WireExamples {
  import opened Common
  import opened MqttPacket
  import opened Utf8
  import opened BufferList
  import opened ParserSpec
  import opened CodecRoundTrip
  import opened StreamRoundTrip
  import CutPoints
  import opened WriterExact

  /** The writer makes these bytes of p, and the parser makes q of these bytes. */
  ghost predicate OnTheWire(p: Packet, bytes: Octets, q: Packet) {
    Shaped(p.cmd, p.fields) && Generates(p, bytes) && FedAll(Initial, [bytes]).events == [Got(q)]
  }

  lemma Carried(p: Packet, bytes: Octets, q: Packet)
    requires Valid(p) && Sendable(p) && PacketBytes(p) == bytes && Normal(p) == q
    ensures OnTheWire(p, bytes, q)
  {
    var ps, none: seq<Packet> := [p], [];
    assert ps[1..] == none && bytes + [] == bytes;
    assert Encodings(ps) == PacketBytes(p) + Encodings(none) && Heard(ps) == [Got(Normal(p))] + Heard(none);
    FlatOne(bytes);
    GeneratesExactly(p);
    StreamRoundTrip.StreamRoundTrip(Initial, ps, [bytes]);
    assert [] + Heard(ps) == [Got(q)];
  }

  /** A short packet: its first byte, one byte of length, its body. */
  lemma Short(p: Packet, w: Fields<Octets>, z: Byte, body: Octets)
    requires Shaped(p.cmd, p.fields) && p.cmd != Reserved && (p.cmd == Publish ==> p.qos <= 2 && (p.qos > 0 ==> p.fields.messageId.Some?))
    requires Wire(Normalized(p)) == w && FieldsFit(w) && Body(w) == body && |body| < 128
    requires z == HeaderByte(p.cmd, p.dup && p.cmd in {Publish, Pubrel, Subscribe, Unsubscribe},
                             if p.cmd == Publish then p.qos else if p.cmd in {Pubrel, Subscribe, Unsubscribe} then 1 else 0,
                             p.retain && p.cmd == Publish)
    ensures Fits(p) && PacketBytes(p) == [z, |body|] + body
  {
    assert RemainingLength(|body|) == [|body|];
    assert PacketBytes(p) == [z] + ([|body|] + body);
  }

  /** A one-letter string. */
  lemma Letter(a: CodeUnit)
    requires a < 0x80
    ensures Encode([a]) == [a] && WellFormed([a])
  {
    EncodedLength([a], None);
    assert [a][1..] == [];
  }

  // ---------------------------------------------------------------- packets without a body, and with two bytes

  lemma Pings()
    ensures OnTheWire(Packet(Pingreq, false, 0, false, 0, Nothing), [0xC0, 0x00], Packet(Pingreq, false, 0, false, 0, Nothing))
    ensures OnTheWire(Packet(Pingresp, false, 0, false, 0, Nothing), [0xD0, 0x00], Packet(Pingresp, false, 0, false, 0, Nothing))
    ensures OnTheWire(Packet(Disconnect, false, 0, false, 0, Nothing), [0xE0, 0x00], Packet(Disconnect, false, 0, false, 0, Nothing))
  {
    Empty(Pingreq, 0xC0);
    Empty(Pingresp, 0xD0);
    Empty(Disconnect, 0xE0);
  }

  lemma Empty(cmd: Command, z: Byte)
    requires (cmd == Pingreq && z == 0xC0) || (cmd == Pingresp && z == 0xD0) || (cmd == Disconnect && z == 0xE0)
    ensures OnTheWire(Packet(cmd, false, 0, false, 0, Nothing), [z, 0x00], Packet(cmd, false, 0, false, 0, Nothing))
  {
    var p := Packet(cmd, false, 0, false, 0, Nothing);
    assert PacketBytes(p) == [z] + ([0] + []);
    Carried(p, [z, 0x00], p);
  }

  lemma Connacks(present: bool, code: Byte)
    ensures OnTheWire(Packet(Connack, false, 0, false, 2, ConnackFields(present, code)), [0x20, 0x02, if present then 1 else 0, code],
                      Packet(Connack, false, 0, false, 2, ConnackFields(present, code)))
  {
    var p := Packet(Connack, false, 0, false, 2, ConnackFields(present, code));
    assert PacketBytes(p) == [0x20] + ([2] + [Bit(present, 1), code]);
    Carried(p, [0x20, 0x02, if present then 1 else 0, code], p);
  }

  /** The five packets that carry nothing but an id; only PUBREL has a QoS bit set. */
  predicate IdHeader(cmd: Command, z: Byte) {
    match cmd
    case Puback => z == 0x40
    case Pubrec => z == 0x50
    case Pubrel => z == 0x62
    case Pubcomp => z == 0x70
    case Unsuback => z == 0xB0
    case _ => false
  }

  lemma Confirmations(cmd: Command, z: Byte, hi: Byte, lo: Byte)
    requires IdHeader(cmd, z)
    ensures OnTheWire(Packet(cmd, false, 0, false, 0, IdFields(Some(hi * 256 + lo))), [z, 0x02, hi, lo],
                      Packet(cmd, false, if z == 0x62 then 1 else 0, false, 2, IdFields(Some(hi * 256 + lo))))
  {
    var p := Packet(cmd, false, 0, false, 0, IdFields(Some(hi * 256 + lo)));
    assert Num(hi * 256 + lo) == [hi, lo];
    assert PacketBytes(p) == [z] + ([2] + [hi, lo]);
    Carried(p, [z, 0x02, hi, lo], Packet(cmd, false, if z == 0x62 then 1 else 0, false, 2, IdFields(Some(hi * 256 + lo))));
  }

  /** The two reserved types are answered with an error. */
  lemma Reserveds(z: Byte)
    requires z < 0x10 || z >= 0xF0
    ensures FedAll(Initial, [[z, 0x00]]).events == [Failed(NotSupported)]
  {
    assert [z, 0x00] == CutPoints.HeadAndBody(z, []) + [];
    CutPoints.OneFed([], [z, 0x00]);
    CutPoints.ToPayload(z, [], [], []);
    CutPoints.PayloadBad(z, [], CutPoints.Chunk([]), [], NotSupported);
    assert [] + [Failed(NotSupported)] == [Failed(NotSupported)];
  }

  // ---------------------------------------------------------------- PUBLISH

  /** Duplicate flag, QoS and retain flag in the low half of the first byte. */
  function PublishHeader(dup: bool, qos: nat, retain: bool): Byte
    requires qos <= 2
  {
    0x30 + (if dup then 0x08 else 0) + (if qos == 2 then 0x04 else if qos == 1 then 0x02 else 0) + (if retain then 0x01 else 0)
  }

  lemma PublishBody(id: Option<int>, ids: Octets, payload: Octets)
    requires if id.Some? then IsId(id) && ids == Num(id.value) else ids == []
    ensures Body(PublishFields([0x74], id, payload)) == [0x00, 0x01, 0x74] + ids + payload
  {
    assert Field([0x74]) == [0x00, 0x01, 0x74];
    Associate([0x00, 0x01, 0x74], ids, payload);
  }

  lemma PublishEncoded(p: Packet, z: Byte, ids: Octets)
    requires p.cmd == Publish && p.qos <= 2 && p.fields.PublishFields? && p.fields.topic == [0x74] && |p.fields.payload| <= 100
    requires z == PublishHeader(p.dup, p.qos, p.retain)
    requires if p.qos > 0 then IsId(p.fields.messageId) && ids == Num(p.fields.messageId.value) else p.fields.messageId == None && ids == []
    ensures var body := [0x00, 0x01, 0x74] + ids + p.fields.payload;
            Valid(p) && Sendable(p) && PacketBytes(p) == [z, |body|] + body && Normal(p) == p.(length := |body|)
  {
    var w, body := PublishFields([0x74], p.fields.messageId, p.fields.payload), [0x00, 0x01, 0x74] + ids + p.fields.payload;
    Letter(0x74);
    PublishBody(p.fields.messageId, ids, p.fields.payload);
    assert Normalized(p) == p.fields && Wire(p.fields) == w;
    Short(p, w, z, body);
  }

  lemma PublishCarried(p: Packet, z: Byte, ids: Octets)
    requires p.cmd == Publish && p.qos <= 2 && p.fields.PublishFields? && p.fields.topic == [0x74] && |p.fields.payload| <= 100
    requires z == PublishHeader(p.dup, p.qos, p.retain)
    requires if p.qos > 0 then IsId(p.fields.messageId) && ids == Num(p.fields.messageId.value) else p.fields.messageId == None && ids == []
    ensures var body := [0x00, 0x01, 0x74] + ids + p.fields.payload; OnTheWire(p, [z, |body|] + body, p.(length := |body|))
  {
    var body := [0x00, 0x01, 0x74] + ids + p.fields.payload;
    PublishEncoded(p, z, ids);
    Carried(p, [z, |body|] + body, p.(length := |body|));
  }

  lemma Publishes(dup: bool, qos: nat, retain: bool, hi: Byte, lo: Byte, payload: Octets)
    requires 1 <= qos <= 2 && |payload| <= 100
    ensures var f := PublishFields([0x74], Some(hi * 256 + lo), payload);
            OnTheWire(Packet(Publish, dup, qos, retain, 0, f),
                      [PublishHeader(dup, qos, retain), 5 + |payload|] + [0x00, 0x01, 0x74] + [hi, lo] + payload,
                      Packet(Publish, dup, qos, retain, 5 + |payload|, f))
  {
    var z, length := PublishHeader(dup, qos, retain), 5 + |payload|;
    assert Num(hi * 256 + lo) == [hi, lo];
    PublishCarried(Packet(Publish, dup, qos, retain, 0, PublishFields([0x74], Some(hi * 256 + lo), payload)), z, [hi, lo]);
    Behind(z, length, [0x00, 0x01, 0x74], [hi, lo], payload);
  }

  /** At QoS 0 there is no id. */
  lemma PublishesAtQos0(dup: bool, retain: bool, payload: Octets)
    requires |payload| <= 100
    ensures var f := PublishFields([0x74], None, payload);
            OnTheWire(Packet(Publish, dup, 0, retain, 0, f),
                      [PublishHeader(dup, 0, retain), 3 + |payload|] + [0x00, 0x01, 0x74] + payload,
                      Packet(Publish, dup, 0, retain, 3 + |payload|, f))
  {
    var z, length := PublishHeader(dup, 0, retain), 3 + |payload|;
    PublishCarried(Packet(Publish, dup, 0, retain, 0, PublishFields([0x74], None, payload)), z, []);
    Behind(z, length, [0x00, 0x01, 0x74], [], payload);
    assert [z, length] + [0x00, 0x01, 0x74] + [] == [z, length] + [0x00, 0x01, 0x74];
  }

  lemma Behind(z: Byte, length: Byte, topic: Octets, ids: Octets, payload: Octets)
    ensures [z, length] + (topic + ids + payload) == [z, length] + topic + ids + payload
  {
  }

  // ---------------------------------------------------------------- subscriptions

  lemma Subscribes(dup: bool, hi: Byte, lo: Byte, qos: Byte)
    requires qos <= 2
    ensures var f := SubscribeFields(Some(hi * 256 + lo), [Subscription([0x74], qos)]);
            OnTheWire(Packet(Subscribe, dup, 0, false, 0, f), [if dup then 0x8A else 0x82, 0x06, hi, lo, 0x00, 0x01, 0x74, qos],
                      Packet(Subscribe, dup, 1, false, 6, f))
  {
    var subs := [Subscription([0x74], qos as int)];
    var f, w := SubscribeFields(Some(hi * 256 + lo), subs), WireSubscriptions(subs);
    var p, body := Packet(Subscribe, dup, 0, false, 0, f), [hi, lo, 0x00, 0x01, 0x74, qos];
    Letter(0x74);
    OneSubscription(hi, lo, w, qos);
    assert Normalized(p) == f && Wire(f) == SubscribeFields(Some(hi * 256 + lo), w);
    Short(p, Wire(f), if dup then 0x8A else 0x82, body);
    assert [if dup then 0x8A else 0x82, 6] + body == [if dup then 0x8A else 0x82, 0x06, hi, lo, 0x00, 0x01, 0x74, qos];
    Carried(p, [if dup then 0x8A else 0x82, 6] + body, Packet(Subscribe, dup, 1, false, 6, f));
  }

  lemma OneSubscription(hi: Byte, lo: Byte, w: seq<Subscription<Octets>>, qos: Byte)
    requires |w| == 1 && w[0] == Subscription([0x74], qos as int) && qos <= 2
    ensures var f := SubscribeFields(Some(hi * 256 + lo), w); FieldsFit(f) && Body(f) == [hi, lo, 0x00, 0x01, 0x74, qos]
  {
    assert w[1..] == [];
    assert SubscriptionBytes(w) == [0x00, 0x01, 0x74] + ([qos] + []);
    assert Num(hi * 256 + lo) == [hi, lo];
  }

  lemma Subacks(hi: Byte, lo: Byte, a: Byte, b: Byte)
    ensures var f := SubackFields(Some(hi * 256 + lo), [a, b]);
            OnTheWire(Packet(Suback, false, 0, false, 0, f), [0x90, 0x04, hi, lo, a, b], Packet(Suback, false, 0, false, 4, f))
  {
    var granted: seq<int> := [a, b];
    var f, body := SubackFields(Some(hi * 256 + lo), granted), [hi, lo, a, b];
    var p := Packet(Suback, false, 0, false, 0, f);
    TwoGranted(hi, lo, granted);
    assert Normalized(p) == f && Wire(f) == SubackFields(Some(hi * 256 + lo), granted);
    Short(p, Wire(f), 0x90, body);
    assert [0x90, 4] + body == [0x90, 0x04, hi, lo, a, b];
    Carried(p, [0x90, 4] + body, Packet(Suback, false, 0, false, 4, f));
  }

  lemma TwoGranted(hi: Byte, lo: Byte, granted: seq<int>)
    requires |granted| == 2 && BytesFit(granted)
    ensures var f := SubackFields(Some(hi * 256 + lo), granted); FieldsFit(f) && Body(f) == [hi, lo, granted[0], granted[1]]
  {
    assert granted[1..][1..] == [];
    assert GrantedBytes(granted) == [granted[0]] + ([granted[1]] + []);
    assert Num(hi * 256 + lo) == [hi, lo];
  }

  lemma Unsubscribes(dup: bool, hi: Byte, lo: Byte)
    ensures var f := UnsubscribeFields(Some(hi * 256 + lo), [[0x74]]);
            OnTheWire(Packet(Unsubscribe, dup, 0, false, 0, f), [if dup then 0xAA else 0xA2, 0x05, hi, lo, 0x00, 0x01, 0x74],
                      Packet(Unsubscribe, dup, 1, false, 5, f))
  {
    var topics: seq<JsString> := [[0x74]];
    var f, w := UnsubscribeFields(Some(hi * 256 + lo), topics), WireTopics(topics);
    var p, body := Packet(Unsubscribe, dup, 0, false, 0, f), [hi, lo, 0x00, 0x01, 0x74];
    Letter(0x74);
    OneTopic(hi, lo, w);
    assert Normalized(p) == f && Wire(f) == UnsubscribeFields(Some(hi * 256 + lo), w);
    Short(p, Wire(f), if dup then 0xAA else 0xA2, body);
    assert [if dup then 0xAA else 0xA2, 5] + body == [if dup then 0xAA else 0xA2, 0x05, hi, lo, 0x00, 0x01, 0x74];
    Carried(p, [if dup then 0xAA else 0xA2, 5] + body, Packet(Unsubscribe, dup, 1, false, 5, f));
  }

  lemma OneTopic(hi: Byte, lo: Byte, w: seq<Octets>)
    requires |w| == 1 && w[0] == [0x74]
    ensures var f := UnsubscribeFields(Some(hi * 256 + lo), w); FieldsFit(f) && Body(f) == [hi, lo, 0x00, 0x01, 0x74]
  {
    assert w[1..] == [];
    assert TopicBytes(w) == [0x00, 0x01, 0x74] + [];
    assert Num(hi * 256 + lo) == [hi, lo];
  }

  // ---------------------------------------------------------------- CONNECT

  lemma PlainBody(clean: bool, hi: Byte, lo: Byte)
    ensures var w := ConnectFields(MQTT, 4, clean, hi * 256 + lo, [0x61], None, None, None);
            && FieldsFit(w)
            && Body(w) == [0x00, 0x04, 0x4D, 0x51, 0x54, 0x54] + ([0x04, if clean then 0x02 else 0x00] + ([hi, lo] + [0x00, 0x01, 0x61]))
  {
    var w := ConnectFields(MQTT, 4, clean, hi * 256 + lo, [0x61], None, None, None);
    assert Num(hi * 256 + lo) == [hi, lo] && Num(4) == [0, 4] && Num(1) == [0, 1];
    assert ConnectFlags(w) == if clean then 0x02 else 0x00;
    assert Field(MQTT) == [0x00, 0x04, 0x4D, 0x51, 0x54, 0x54] && Field([0x61]) == [0x00, 0x01, 0x61];
    assert WillBytes(None) + (OptionalField(None) + OptionalField(None)) == [];
    assert [0x00, 0x01, 0x61] + [] == [0x00, 0x01, 0x61];
  }

  lemma PlainWire(clean: bool, keepalive: int)
    ensures Wire(ConnectFields(MQTT, 4, clean, keepalive, [0x61], None, None, None)) == ConnectFields(MQTT, 4, clean, keepalive, [0x61], None, None, None)
  {
    Letter(0x61);
    Named(MQTT);
  }

  /** Nothing but a client id: protocol and version are filled in. */
  lemma PlainConnect(clean: bool, hi: Byte, lo: Byte)
    ensures OnTheWire(Packet(Connect, false, 0, false, 0, ConnectFields([], 0, clean, hi * 256 + lo, [0x61], None, None, None)),
                      [0x10, 0x0D] + ([0x00, 0x04, 0x4D, 0x51, 0x54, 0x54]
                      + ([0x04, if clean then 0x02 else 0x00] + ([hi, lo] + [0x00, 0x01, 0x61]))),
                      Packet(Connect, false, 0, false, 13,
                             ConnectFields([0x4D, 0x51, 0x54, 0x54], 4, clean, hi * 256 + lo, [0x61], None, None, None)))
  {
    var p := Packet(Connect, false, 0, false, 0, ConnectFields([], 0, clean, hi * 256 + lo, [0x61], None, None, None));
    var f := ConnectFields(MQTT, 4, clean, hi * 256 + lo, [0x61], None, None, None);
    PlainBody(clean, hi, lo);
    PlainWire(clean, hi * 256 + lo);
    ConnectCarried(p, f, Body(f), 13);
  }

  lemma ConnectCarried(p: Packet, f: Fields<JsString>, body: Octets, length: nat)
    requires p.cmd == Connect && p.fields.ConnectFields? && !p.dup && p.qos == 0 && !p.retain && f == Normalized(p)
    requires f.protocolId == MQTT || f.protocolId == MQISDP
    requires f.protocolVersion == 3 || f.protocolVersion == 4
    requires Wire(f) == f && FieldsFit(Wire(f)) && Body(Wire(f)) == body && length == |body| < 128
    requires f.clientId == [0x61] || f.clientId == [0x63]
    requires f.will == None || f.will == Some(Will([0x77], [1, 2], 2, true))
    requires (f.username == None || f.username == Some([0x75])) && (f.password == None || f.password == Some([3])) && 0 <= f.keepalive < 65536
    ensures OnTheWire(p, [0x10, length] + body, Packet(Connect, false, 0, false, length, f))
  {
    Short(p, Wire(f), 0x10, body);
    ConnectIsGood(p, f);
    Carried(p, [0x10, length] + body, Packet(Connect, false, 0, false, length, f));
  }

  lemma ConnectIsGood(p: Packet, f: Fields<JsString>)
    requires Fits(p) && p.cmd == Connect && p.fields.ConnectFields? && f == Normalized(p)
    requires f.protocolId == MQTT || f.protocolId == MQISDP
    requires f.protocolVersion == 3 || f.protocolVersion == 4
    requires f.clientId == [0x61] || f.clientId == [0x63]
    requires f.will == None || f.will == Some(Will([0x77], [1, 2], 2, true))
    requires (f.username == None || f.username == Some([0x75])) && (f.password == None || f.password == Some([3])) && 0 <= f.keepalive < 65536
    ensures Valid(p) && Sendable(p)
  {
    Named(f.protocolId);
    Letter(0x61);
    Letter(0x63);
    Letter(0x77);
    Letter(0x75);
  }

  /** The protocol names are ASCII. */
  lemma Named(name: JsString)
    requires name == MQTT || name == MQISDP
    ensures Encode(name) == name && WellFormed(name) && Ascii(name)
  {
    EncodedLength(name, None);
    NamedWellFormed(name);
  }

  lemma {:induction false} NamedWellFormed(s: JsString)
    requires Ascii(s)
    ensures WellFormed(s)
  {
    if s != [] { NamedWellFormed(s[1..]); }
  }

  const EVERYTHING: Fields<Octets> :=
    ConnectFields([0x4D, 0x51, 0x49, 0x73, 0x64, 0x70], 3, true, 258, [0x63], Some(Will([0x77], [1, 2], 2, true)), Some([0x75]), Some([3]))

  lemma FullWire()
    ensures Wire(EVERYTHING) == EVERYTHING
  {
    Letter(0x63);
    Letter(0x77);
    Letter(0x75);
    Named(MQISDP);
  }

  /** All flags set: user name, password, will retain, will QoS 2, will, clean session, and every field in its order. */
  lemma FullConnect()
    ensures OnTheWire(Packet(Connect, false, 0, false, 0, EVERYTHING),
                      [0x10, 0x1C] + ([0x00, 0x06, 0x4D, 0x51, 0x49, 0x73, 0x64, 0x70] + ([0x03, 0xF6] + ([0x01, 0x02] + ([0x00, 0x01, 0x63]
                      + (([0x00, 0x01, 0x77] + [0x00, 0x02, 0x01, 0x02]) + ([0x00, 0x01, 0x75] + [0x00, 0x01, 0x03])))))),
                      Packet(Connect, false, 0, false, 28, EVERYTHING))
  {
    FullBody();
    FullWire();
    ConnectCarried(Packet(Connect, false, 0, false, 0, EVERYTHING), EVERYTHING, Body(EVERYTHING), 28);
  }

  lemma FullBody()
    ensures FieldsFit(EVERYTHING)
    ensures Body(EVERYTHING)
            == [0x00, 0x06, 0x4D, 0x51, 0x49, 0x73, 0x64, 0x70] + ([0x03, 0xF6] + ([0x01, 0x02] + ([0x00, 0x01, 0x63]
               + (([0x00, 0x01, 0x77] + [0x00, 0x02, 0x01, 0x02]) + ([0x00, 0x01, 0x75] + [0x00, 0x01, 0x03])))))
  {
    assert ConnectFlags(EVERYTHING) == 0xF6;
    assert Num(6) == [0, 6] && Num(258) == [1, 2] && Num(1) == [0, 1] && Num(2) == [0, 2];
    assert Field(MQISDP) == [0x00, 0x06, 0x4D, 0x51, 0x49, 0x73, 0x64, 0x70] && Field([0x63]) == [0x00, 0x01, 0x63];
    assert Field([0x77]) == [0x00, 0x01, 0x77] && Field([1, 2]) == [0x00, 0x02, 0x01, 0x02];
    assert Field([0x75]) == [0x00, 0x01, 0x75] && Field([3]) == [0x00, 0x01, 0x03];
  }
}
