/**
  The packets of www/libs/mqtt.js and their wire format: what the bytes of a packet are, written down
  once, without regard to how the writer produces them or the parser takes them apart.
*/
module MqttPacket {
  import opened Common
  import opened Utf8

  // ---------------------------------------------------------------- packets

  datatype Command =
    | Reserved | Connect | Connack | Publish | Puback | Pubrec | Pubrel | Pubcomp
    | Subscribe | Suback | Unsubscribe | Unsuback | Pingreq | Pingresp | Disconnect

  /** `types`: the meaning of the upper half of the first byte. */
  function CommandOf(code: nat): (c: Command)
    requires code < 16
  {
    match code
    case 1 => Connect
    case 2 => Connack
    case 3 => Publish
    case 4 => Puback
    case 5 => Pubrec
    case 6 => Pubrel
    case 7 => Pubcomp
    case 8 => Subscribe
    case 9 => Suback
    case 10 => Unsubscribe
    case 11 => Unsuback
    case 12 => Pingreq
    case 13 => Pingresp
    case 14 => Disconnect
    case _ => Reserved
  }

  /** `codes`: its inverse; both reserved codes share a name, and the last one is kept. */
  function Code(c: Command): (code: nat)
    ensures 0 < code < 16 && CommandOf(code) == c
  {
    match c
    case Connect => 1
    case Connack => 2
    case Publish => 3
    case Puback => 4
    case Pubrec => 5
    case Pubrel => 6
    case Pubcomp => 7
    case Subscribe => 8
    case Suback => 9
    case Unsubscribe => 10
    case Unsuback => 11
    case Pingreq => 12
    case Pingresp => 13
    case Disconnect => 14
    case Reserved => 15
  }

  /**
    What a packet object carries besides its header.  T is the type of its strings: JavaScript strings in the
    object, their bytes on the wire.  A message id may be missing, and the parser can leave -1.
  */
  datatype Fields<T> =
    | Nothing
    | ConnectFields(protocolId: T, protocolVersion: int, clean: bool, keepalive: int, clientId: T,
                    will: Option<Will<T>>, username: Option<T>, password: Option<seq<Byte>>)
    | ConnackFields(sessionPresent: bool, returnCode: int)
    | PublishFields(topic: T, messageId: Option<int>, payload: seq<Byte>)
    | IdFields(messageId: Option<int>)
    | SubscribeFields(messageId: Option<int>, subscriptions: seq<Subscription<T>>)
    | SubackFields(messageId: Option<int>, granted: seq<int>)
    | UnsubscribeFields(messageId: Option<int>, unsubscriptions: seq<T>)

  datatype Will<T> = Will(topic: T, payload: seq<Byte>, qos: nat, retain: bool)

  datatype Subscription<T> = Subscription(topic: T, qos: int)

  type Octets = seq<Byte>

  datatype Packet = Packet(cmd: Command, dup: bool, qos: nat, retain: bool, length: int, fields: Fields<JsString>)

  predicate IsConfirmation(c: Command) {
    c in {Puback, Pubrec, Pubrel, Pubcomp, Unsuback}
  }

  /** The fields are those of the command. */
  predicate Shaped<T>(cmd: Command, f: Fields<T>) {
    match cmd
    case Connect => f.ConnectFields?
    case Connack => f.ConnackFields?
    case Publish => f.PublishFields?
    case Subscribe => f.SubscribeFields?
    case Suback => f.SubackFields?
    case Unsubscribe => f.UnsubscribeFields?
    case _ => if IsConfirmation(cmd) then f.IdFields? else f.Nothing?
  }

  // ---------------------------------------------------------------- the wire format

  /** A two-byte number, high byte first. */
  function Num(n: int): (b: seq<Byte>)
    requires 0 <= n < 65536
    ensures |b| == 2
  {
    [n / 256, n % 256]
  }

  /** Bytes behind their own length. */
  function Field(b: seq<Byte>): (r: seq<Byte>)
    requires |b| < 65536
    ensures |r| == |b| + 2
  {
    Num(|b|) + b
  }

  /** Section 2.2.3 of MQTT 3.1.1: seven bits a byte, low bits first, the top bit set when more follow. */
  function RemainingLength(n: nat): (b: seq<Byte>)
    ensures b != []
  {
    if n < 128 then [n] else [n % 128 + 128] + RemainingLength(n / 128)
  }

  function Bit(b: bool, weight: nat): nat {
    if b then weight else 0
  }

  function HeaderByte(c: Command, dup: bool, qos: nat, retain: bool): Byte
    requires qos < 4
  {
    Code(c) * 16 + Bit(dup, 8) + qos * 2 + Bit(retain, 1)
  }

  const MQTT: JsString := [0x4D, 0x51, 0x54, 0x54]
  const MQISDP: JsString := [0x4D, 0x51, 0x49, 0x73, 0x64, 0x70]

  predicate IsId(id: Option<int>) {
    id.Some? && 0 <= id.value < 65536
  }

  predicate WillFits(w: Will<Octets>) {
    |w.topic| < 65536 && |w.payload| < 65536 && w.qos < 4
  }

  predicate TopicsFit(ts: seq<Octets>) {
    forall k | 0 <= k < |ts| :: |ts[k]| < 65536
  }

  predicate SubscriptionsFit(subs: seq<Subscription<Octets>>) {
    forall k | 0 <= k < |subs| :: |subs[k].topic| < 65536 && 0 <= subs[k].qos <= 2
  }

  predicate BytesFit(bs: seq<int>) {
    forall k | 0 <= k < |bs| :: 0 <= bs[k] < 256
  }

  predicate ConnectFits(f: Fields<Octets>)
    requires f.ConnectFields?
  {
    && |f.protocolId| < 65536 && 0 <= f.protocolVersion < 256 && 0 <= f.keepalive < 65536 && |f.clientId| < 65536
    && (f.will.Some? ==> WillFits(f.will.value)) && (f.username.Some? ==> |f.username.value| < 65536)
    && (f.password.Some? ==> |f.password.value| < 65536)
  }

  /** Every number and every length is in the range the format has room for. */
  predicate FieldsFit(f: Fields<Octets>) {
    match f
    case Nothing => true
    case ConnectFields(_, _, _, _, _, _, _, _) => ConnectFits(f)
    case ConnackFields(_, rc) => 0 <= rc < 256
    case PublishFields(topic, id, _) => |topic| < 65536 && (id.Some? ==> IsId(id))
    case IdFields(id) => IsId(id)
    case SubscribeFields(id, subs) => IsId(id) && SubscriptionsFit(subs)
    case SubackFields(id, granted) => IsId(id) && BytesFit(granted)
    case UnsubscribeFields(id, topics) => IsId(id) && TopicsFit(topics)
  }

  function ConnectFlags(f: Fields<Octets>): Byte
    requires f.ConnectFields? && ConnectFits(f)
  {
    Bit(f.username.Some?, 0x80) + Bit(f.password.Some?, 0x40)
    + (if f.will.Some? then Bit(f.will.value.retain, 0x20) + f.will.value.qos * 8 + 0x04 else 0)
    + Bit(f.clean, 0x02)
  }

  function WillBytes(w: Option<Will<Octets>>): Octets
    requires w.Some? ==> WillFits(w.value)
  {
    if w.None? then [] else Field(w.value.topic) + Field(w.value.payload)
  }

  /** A field that may be missing. */
  function OptionalField(b: Option<Octets>): Octets
    requires b.Some? ==> |b.value| < 65536
  {
    if b.None? then [] else Field(b.value)
  }

  function IdBytes(id: Option<int>): Octets
    requires id.Some? ==> IsId(id)
  {
    if id.None? then [] else Num(id.value)
  }

  function SubscriptionBytes(subs: seq<Subscription<Octets>>): (b: Octets)
    requires SubscriptionsFit(subs)
    ensures subs != [] ==> b != []
  {
    if subs == [] then [] else Field(subs[0].topic) + ([subs[0].qos] + SubscriptionBytes(subs[1..]))
  }

  function TopicBytes(topics: seq<Octets>): (b: Octets)
    requires TopicsFit(topics)
    ensures topics != [] ==> b != []
  {
    if topics == [] then [] else Field(topics[0]) + TopicBytes(topics[1..])
  }

  function GrantedBytes(bs: seq<int>): (r: Octets)
    requires BytesFit(bs)
    ensures |r| == |bs|
  {
    if bs == [] then [] else [bs[0]] + GrantedBytes(bs[1..])
  }

  function ConnectBody(f: Fields<Octets>, flags: Byte): Octets
    requires f.ConnectFields? && ConnectFits(f)
  {
    Field(f.protocolId) + ([f.protocolVersion, flags] + (Num(f.keepalive) + (Field(f.clientId)
    + (WillBytes(f.will) + (OptionalField(f.username) + OptionalField(f.password))))))
  }

  /** Everything behind the Remaining Length. */
  function Body(f: Fields<Octets>): Octets
    requires FieldsFit(f)
  {
    match f
    case Nothing => []
    case ConnectFields(_, _, _, _, _, _, _, _) => ConnectBody(f, ConnectFlags(f))
    case ConnackFields(present, rc) => [Bit(present, 1), rc]
    case PublishFields(topic, id, payload) => Field(topic) + (IdBytes(id) + payload)
    case IdFields(id) => IdBytes(id)
    case SubscribeFields(id, subs) => IdBytes(id) + SubscriptionBytes(subs)
    case SubackFields(id, granted) => IdBytes(id) + GrantedBytes(granted)
    case UnsubscribeFields(id, topics) => IdBytes(id) + TopicBytes(topics)
  }

  // ---------------------------------------------------------------- strings and their bytes

  function WireTopics(ts: seq<JsString>): (r: seq<Octets>)
    ensures |r| == |ts| && forall k | 0 <= k < |ts| :: r[k] == Utf8.Encode(ts[k])
  {
    if ts == [] then [] else [Utf8.Encode(ts[0])] + WireTopics(ts[1..])
  }

  function WireSubscriptions(subs: seq<Subscription<JsString>>): (r: seq<Subscription<Octets>>)
    ensures |r| == |subs| && forall k | 0 <= k < |subs| :: r[k] == Subscription(Utf8.Encode(subs[k].topic), subs[k].qos)
  {
    if subs == [] then []
    else [Subscription(Utf8.Encode(subs[0].topic), subs[0].qos)] + WireSubscriptions(subs[1..])
  }

  function WireOption(s: Option<JsString>): Option<Octets> {
    if s.None? then None else Some(Utf8.Encode(s.value))
  }

  function WireWill(w: Option<Will<JsString>>): Option<Will<Octets>> {
    if w.None? then None else Some(Will(Utf8.Encode(w.value.topic), w.value.payload, w.value.qos, w.value.retain))
  }

  /** Every string as its bytes. */
  function Wire(f: Fields<JsString>): (w: Fields<Octets>) {
    match f
    case Nothing => Nothing
    case ConnectFields(name, version, clean, keepalive, clientId, will, username, password) =>
      ConnectFields(Utf8.Encode(name), version, clean, keepalive, Utf8.Encode(clientId),
                    WireWill(will), WireOption(username), password)
    case ConnackFields(present, rc) => ConnackFields(present, rc)
    case PublishFields(topic, id, payload) => PublishFields(Utf8.Encode(topic), id, payload)
    case IdFields(id) => IdFields(id)
    case SubscribeFields(id, subs) => SubscribeFields(id, WireSubscriptions(subs))
    case SubackFields(id, granted) => SubackFields(id, granted)
    case UnsubscribeFields(id, topics) => UnsubscribeFields(id, WireTopics(topics))
  }

  function TextTopics(ts: seq<Octets>): (r: seq<JsString>)
    ensures |r| == |ts| && forall k | 0 <= k < |ts| :: r[k] == Utf8.Decode(ts[k])
  {
    if ts == [] then [] else [Utf8.Decode(ts[0])] + TextTopics(ts[1..])
  }

  function TextSubscriptions(subs: seq<Subscription<Octets>>): (r: seq<Subscription<JsString>>)
    ensures |r| == |subs| && forall k | 0 <= k < |subs| :: r[k] == Subscription(Utf8.Decode(subs[k].topic), subs[k].qos)
  {
    if subs == [] then []
    else [Subscription(Utf8.Decode(subs[0].topic), subs[0].qos)] + TextSubscriptions(subs[1..])
  }

  function TextOption(b: Option<Octets>): Option<JsString> {
    if b.None? then None else Some(Utf8.Decode(b.value))
  }

  function TextWill(w: Option<Will<Octets>>): Option<Will<JsString>> {
    if w.None? then None else Some(Will(Utf8.Decode(w.value.topic), w.value.payload, w.value.qos, w.value.retain))
  }

  /** Every string decoded from its bytes. */
  function Text(w: Fields<Octets>): (f: Fields<JsString>) {
    match w
    case Nothing => Nothing
    case ConnectFields(name, version, clean, keepalive, clientId, will, username, password) =>
      ConnectFields(Utf8.Decode(name), version, clean, keepalive, Utf8.Decode(clientId),
                    TextWill(will), TextOption(username), password)
    case ConnackFields(present, rc) => ConnackFields(present, rc)
    case PublishFields(topic, id, payload) => PublishFields(Utf8.Decode(topic), id, payload)
    case IdFields(id) => IdFields(id)
    case SubscribeFields(id, subs) => SubscribeFields(id, TextSubscriptions(subs))
    case SubackFields(id, granted) => SubackFields(id, granted)
    case UnsubscribeFields(id, topics) => UnsubscribeFields(id, TextTopics(topics))
  }

  // ---------------------------------------------------------------- whole packets

  const MAX_LENGTH := 268435456

  /** The fields as they travel: defaults filled in, an empty user name and the id of a QoS 0 publish dropped. */
  function Normalized(p: Packet): (f: Fields<JsString>) {
    match p.fields
    case ConnectFields(name, version, clean, keepalive, clientId, will, username, password) =>
      ConnectFields(if name == [] then MQTT else name, if version == 0 then 4 else version, clean, keepalive, clientId,
                    will, if username == Some([]) then None else username, password)
    case PublishFields(topic, id, payload) => PublishFields(topic, if p.qos == 0 then None else id, payload)
    case _ => p.fields
  }

  /** The packet has an encoding. */
  predicate Fits(p: Packet) {
    && Shaped(p.cmd, p.fields) && p.cmd != Reserved && (p.cmd == Publish ==> p.qos <= 2)
    && (p.cmd == Publish && p.qos > 0 ==> p.fields.messageId.Some?)
    && FieldsFit(Wire(Normalized(p))) && |Body(Wire(Normalized(p)))| < MAX_LENGTH
  }

  /** The packet as the other side sees it: the flags its command has, and its length. */
  function Normal(p: Packet): (n: Packet)
    requires Fits(p)
  {
    Packet(p.cmd,
           p.dup && p.cmd in {Publish, Pubrel, Subscribe, Unsubscribe},
           if p.cmd == Publish then p.qos else if p.cmd in {Pubrel, Subscribe, Unsubscribe} then 1 else 0,
           p.retain && p.cmd == Publish,
           |Body(Wire(Normalized(p)))|,
           Normalized(p))
  }

  /** The bytes of a packet. */
  function PacketBytes(p: Packet): (b: seq<Byte>)
    requires Fits(p)
    ensures b != []
  {
    var n := Normal(p);
    [HeaderByte(n.cmd, n.dup, n.qos, n.retain)] + (RemainingLength(n.length) + Body(Wire(n.fields)))
  }

  // ---------------------------------------------------------------- Remaining Length

  /** calcLengthLength. */
  function CalcLengthLength(length: int): nat {
    if 0 <= length < 128 then 1
    else if 128 <= length < 16384 then 2
    else if 16384 <= length < 2097152 then 3
    else if 2097152 <= length < MAX_LENGTH then 4
    else 0
  }

  /** It counts the bytes of the code, and no others fit in four. */
  lemma {:induction false} LengthLength(n: nat)
    ensures n < MAX_LENGTH ==> |RemainingLength(n)| == CalcLengthLength(n)
    ensures n >= MAX_LENGTH ==> |RemainingLength(n)| > 4 && CalcLengthLength(n) == 0
  {
    if n >= 128 { LengthLength(n / 128); }
  }

  /**
    _parseLength's loop from byte k on: the length and how many bytes it took, or None when the bytes run
    out first.  A fifth byte ends the loop whatever it says, but with its top bit set only once another byte is there.
  */
  function ReadLength(b: seq<Byte>, k: nat, mul: nat, length: nat): (r: Option<(nat, nat)>)
    requires k < 5 && k < |b|
    ensures r.Some? ==> k < r.value.1 <= |b|
    decreases 5 - k
  {
    var l := length + mul * (b[k] as int % 128);
    if b[k] < 128 then Some((l, k + 1))
    else if |b| <= k + 1 then None
    else if k + 1 < 5 then ReadLength(b, k + 1, mul * 128, l)
    else Some((l, k + 1))
  }

  lemma SevenBits(mul: nat, n: nat)
    ensures mul * (n % 128) + mul * 128 * (n / 128) == mul * n
  {
    var q, r := n / 128, n % 128;
    assert n == 128 * q + r;
    assert mul * (128 * q + r) == mul * r + mul * 128 * q;
  }

  /** The next byte of the code at position k. */
  lemma CodeAt(b: seq<Byte>, k: nat, n: nat)
    requires k <= |b| && RemainingLength(n) <= b[k..]
    ensures k < |b| && b[k] as int % 128 == n % 128 && (b[k] < 128 <==> n < 128)
    ensures n >= 128 ==> k + 1 < |b| && RemainingLength(n / 128) <= b[k + 1..]
  {
    var r := RemainingLength(n);
    assert b[k..][0] == r[0];
    if n >= 128 {
      assert r[1..] == RemainingLength(n / 128);
      assert b[k..][1..] == b[k + 1..];
      assert |b[k..]| >= |r| >= 2;
    }
  }

  lemma {:induction false} LengthFrom(b: seq<Byte>, k: nat, mul: nat, length: nat, n: nat)
    requires k <= |b| && RemainingLength(n) <= b[k..] && k + |RemainingLength(n)| <= 4
    ensures k < |b| && ReadLength(b, k, mul, length) == Some((length + mul * n, k + |RemainingLength(n)|))
    decreases n
  {
    CodeAt(b, k, n);
    if n >= 128 {
      LengthFrom(b, k + 1, mul * 128, length + mul * (n % 128), n / 128);
      SevenBits(mul, n);
    }
  }

  /** The code is read back whatever follows it. */
  lemma LengthReadBack(n: nat, rest: seq<Byte>)
    requires n < MAX_LENGTH
    ensures ReadLength(RemainingLength(n) + rest, 0, 1, 0) == Some((n, CalcLengthLength(n)))
  {
    LengthLength(n);
    var b := RemainingLength(n) + rest;
    assert b[0..] == b;
    LengthFrom(b, 0, 1, 0, n);
  }

  lemma {:induction false} LengthRunsOut(b: seq<Byte>, k: nat, mul: nat, length: nat, n: nat)
    requires k < |b| && b[k..] < RemainingLength(n) && k + |RemainingLength(n)| <= 4
    ensures ReadLength(b, k, mul, length) == None
    decreases n
  {
    var r := RemainingLength(n);
    assert b[k] == b[k..][0] == r[0];
    if n >= 128 {
      assert r[1..] == RemainingLength(n / 128) && b[k..][1..] == b[k + 1..];
      if k + 1 < |b| { LengthRunsOut(b, k + 1, mul * 128, length + mul * (n % 128), n / 128); }
    }
  }

  /** A proper, non-empty prefix of the code is reported incomplete. */
  lemma LengthIncomplete(n: nat, b: seq<Byte>)
    requires n < MAX_LENGTH && b != [] && b < RemainingLength(n)
    ensures ReadLength(b, 0, 1, 0) == None
  {
    LengthLength(n);
    assert b[0..] == b;
    LengthRunsOut(b, 0, 1, 0, n);
  }

  /** Seven bits a byte, low bits first. */
  function Base128(b: seq<Byte>): nat {
    if b == [] then 0 else b[0] as int % 128 + 128 * Base128(b[1..])
  }

  /** The length ends with the n-th byte: the first without the top bit, or the fifth once a sixth is there. */
  predicate LengthEnds(b: seq<Byte>, n: int) {
    1 <= n <= 5 && n <= |b| && (b[n - 1] < 128 || (n == 5 && |b| > 5)) && forall k | 0 <= k < n - 1 :: b[k] >= 128
  }

  lemma Weighted(mul: nat, x: nat, rest: nat)
    ensures mul * x + mul * 128 * rest == mul * (x + 128 * rest)
  {
  }

  lemma FirstDigit(b: seq<Byte>, k: nat, n: nat)
    requires k < n <= |b|
    ensures Base128(b[k..n]) == b[k] as int % 128 + 128 * Base128(b[k + 1..n])
  {
    assert b[k..n][1..] == b[k + 1..n] && b[k..n][0] == b[k];
  }

  lemma {:induction false} LengthReadTo(b: seq<Byte>, n: nat, k: nat, mul: nat, length: nat)
    requires LengthEnds(b, n) && k < n
    ensures ReadLength(b, k, mul, length) == Some((length + mul * Base128(b[k..n]), n))
    decreases n - k
  {
    var x := b[k] as int % 128;
    FirstDigit(b, k, n);
    Weighted(mul, x, Base128(b[k + 1..n]));
    if k + 1 < n {
      LengthReadTo(b, n, k + 1, mul * 128, length + mul * x);
    } else {
      assert b[k + 1..n] == [] && Base128(b[k + 1..n]) == 0;
    }
  }

  lemma {:induction false} LengthReadOn(b: seq<Byte>, k: nat, mul: nat, length: nat)
    requires k < 5 && k < |b| && forall j | 0 <= j < k :: b[j] >= 128
    ensures ReadLength(b, k, mul, length).Some? ==> exists n :: LengthEnds(b, n)
    decreases 5 - k
  {
    if b[k] < 128 || (k + 1 == 5 && |b| > 5) {
      assert LengthEnds(b, k + 1);
    } else if k + 1 < |b| {
      LengthReadOn(b, k + 1, mul * 128, length + mul * (b[k] as int % 128));
    }
  }

  /** What is read for a length, for all bytes: the number they spell up to their end, and nothing before their end is there. */
  lemma LengthExactly(b: seq<Byte>)
    requires b != []
    ensures forall n | LengthEnds(b, n) :: ReadLength(b, 0, 1, 0) == Some((Base128(b[..n]), n))
    ensures ReadLength(b, 0, 1, 0) == None <==> !exists n :: LengthEnds(b, n)
  {
    forall n | LengthEnds(b, n) ensures ReadLength(b, 0, 1, 0) == Some((Base128(b[..n]), n)) {
      LengthReadTo(b, n, 0, 1, 0);
      assert b[0..n] == b[..n];
    }
    LengthReadOn(b, 0, 1, 0);
  }
}
