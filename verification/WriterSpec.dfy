/**
  What the writer of www/libs/mqtt.js puts into a stream: chunk after chunk, some of them possibly
  `undefined`, and what the accumulated chunks amount to.  The writer checks less than the format demands, so
  the main result says exactly for which packets it produces their encoding.
*/
module WriterSpec {
  import opened Common
  import opened MqttPacket
  import opened Utf8

  // ---------------------------------------------------------------- chunks

  /** What is written to the stream: a string, a buffer, or `undefined` from a table without such an entry. */
  datatype Chunk = Undefined | Str(s: JsString) | Buf(b: Octets)

  /** An empty string is falsy, an empty buffer is not. */
  predicate Truthy(c: Chunk) {
    match c
    case Undefined => false
    case Str(s) => s != []
    case Buf(_) => true
  }

  function ChunkBytes(c: Chunk): Octets {
    match c
    case Undefined => []
    case Str(s) => Utf8.Encode(s)
    case Buf(b) => b
  }

  /** Accumulator.concat: everything up to the first falsy chunk. */
  function Joined(cs: seq<Chunk>): Octets {
    if cs == [] || !Truthy(cs[0]) then [] else ChunkBytes(cs[0]) + Joined(cs[1..])
  }

  /** numCache: the two-byte numbers, and nothing outside their range. */
  function NumCache(n: int): Chunk {
    if 0 <= n < 65536 then Buf(Num(n)) else Undefined
  }

  /** genBufLength: for a length beyond the format its buffer has no room for any byte. */
  function LengthBuffer(n: nat): Octets {
    if n < MAX_LENGTH then RemainingLength(n) else []
  }

  /** writeString. */
  function StringChunks(s: JsString): seq<Chunk> {
    [NumCache(|Utf8.Encode(s)|), Str(s)]
  }

  /** writeStringOrBuffer of a string: an empty one is only its length. */
  function StringOrNothing(s: JsString): seq<Chunk> {
    if s == [] then [NumCache(0)] else StringChunks(s)
  }

  /** writeStringOrBuffer of a buffer. */
  function BufferChunks(b: Octets): seq<Chunk> {
    [NumCache(|b|), Buf(b)]
  }

  // ---------------------------------------------------------------- what is written for a packet

  datatype WriteError =
    | InvalidProtocolVersion | ClientIdRequiredBefore311 | ClientIdRequiredUnlessClean | InvalidKeepalive
    | InvalidWillTopic | InvalidPassword | InvalidMessageId | InvalidSubscriptions | InvalidQosVector
    | InvalidUnsubscriptions | UnknownCommand

  /** An 'error' event and nothing written; a TypeError before anything is written; or these chunks. */
  datatype Attempt = Refused(e: WriteError) | Crashed | Written(cs: seq<Chunk>)

  /** `n & 0xFF`, which Buffer.from does to numbers. */
  function Octet(n: int): Byte {
    n % 256
  }

  function AllOctets(ns: seq<int>): (r: Octets)
    ensures |r| == |ns|
  {
    if ns == [] then [] else [Octet(ns[0])] + AllOctets(ns[1..])
  }

  /** The flags are or-ed together, so a will QoS of more than two bits runs into its neighbours. */
  function OredFlags(f: Fields<JsString>): Byte
    requires f.ConnectFields?
  {
    var q := if f.will.Some? then f.will.value.qos else 0;
    Bit(f.username.Some? || q / 16 % 2 == 1, 0x80) + Bit(f.password.Some? || q / 8 % 2 == 1, 0x40)
    + Bit((f.will.Some? && f.will.value.retain) || q / 4 % 2 == 1, 0x20)
    + Bit(q / 2 % 2 == 1, 0x10) + Bit(q % 2 == 1, 0x08) + Bit(f.will.Some?, 0x04) + Bit(f.clean, 0x02)
  }

  /** The first complaint of connect, in the order of its checks. */
  function ConnectRefusal(f: Fields<JsString>): Option<WriteError>
    requires f.ConnectFields?
  {
    if f.protocolVersion != 3 && f.protocolVersion != 4 then Some(InvalidProtocolVersion)
    else if f.clientId == [] && f.protocolVersion < 4 then Some(ClientIdRequiredBefore311)
    else if f.clientId == [] && !f.clean then Some(ClientIdRequiredUnlessClean)
    else if f.keepalive < 0 || f.keepalive > 65535 then Some(InvalidKeepalive)
    else if f.will.Some? && f.will.value.topic == [] then Some(InvalidWillTopic)
    else if f.password == Some([]) then Some(InvalidPassword)
    else None
  }

  /** The length connect announces: protocol and client id are counted in code units, the rest in bytes. */
  function ConnectLength(f: Fields<JsString>): nat
    requires f.ConnectFields?
  {
    |f.protocolId| + 2 + 1 + (|f.clientId| + 2) + 2 + 1
    + (if f.will.Some? then |Utf8.Encode(f.will.value.topic)| + 2 + (|f.will.value.payload| + 2) else 0)
    + (if f.username.Some? then |Utf8.Encode(f.username.value)| + 2 else 0)
    + (if f.password.Some? then |f.password.value| + 2 else 0)
  }

  function WillChunks(w: Option<Will<JsString>>): seq<Chunk> {
    if w.None? then [] else StringChunks(w.value.topic) + BufferChunks(w.value.payload)
  }

  function UsernameChunks(u: Option<JsString>): seq<Chunk> {
    if u.None? then [] else StringOrNothing(u.value)
  }

  function PasswordChunks(b: Option<Octets>): seq<Chunk> {
    if b.None? then [] else BufferChunks(b.value)
  }

  function ConnectChunks(f: Fields<JsString>): seq<Chunk>
    requires f.ConnectFields?
  {
    [Buf([0x10])] + ([Buf(LengthBuffer(ConnectLength(f)))] + (StringOrNothing(f.protocolId)
    + ([Buf([if f.protocolVersion == 4 then 4 else 3])] + ([Buf([OredFlags(f)])] + ([NumCache(f.keepalive)]
    + (StringOrNothing(f.clientId) + (WillChunks(f.will) + (UsernameChunks(f.username) + PasswordChunks(f.password)))))))))
  }

  function PublishChunks(header: Byte, f: Fields<JsString>): seq<Chunk>
    requires f.PublishFields?
  {
    var ids := if f.messageId.Some? then [NumCache(f.messageId.value)] else [];
    var length := |Utf8.Encode(f.topic)| + 2 + |f.payload| + (if f.messageId.Some? then 2 else 0);
    [Buf([header])] + ([Buf(LengthBuffer(length))] + (StringChunks(f.topic) + (ids + [Buf(f.payload)])))
  }

  /** `QOS[qos]`, undefined for any other number. */
  function QosChunk(qos: int): Chunk {
    if 0 <= qos <= 2 then Buf([qos]) else Undefined
  }

  function SubscriptionChunks(subs: seq<Subscription<JsString>>): seq<Chunk> {
    if subs == [] then []
    else StringChunks(subs[0].topic) + ([QosChunk(subs[0].qos)] + SubscriptionChunks(subs[1..]))
  }

  function SubscriptionsLength(subs: seq<Subscription<JsString>>): nat {
    if subs == [] then 0 else |Utf8.Encode(subs[0].topic)| + 2 + 1 + SubscriptionsLength(subs[1..])
  }

  function TopicChunks(topics: seq<JsString>): seq<Chunk> {
    if topics == [] then [] else StringChunks(topics[0]) + TopicChunks(topics[1..])
  }

  function TopicsLength(topics: seq<JsString>): nat {
    if topics == [] then 0 else |Utf8.Encode(topics[0])| + 2 + TopicsLength(topics[1..])
  }

  /** A header, a length, an id, and what follows it. */
  function IdChunks(header: Byte, length: nat, id: int, rest: seq<Chunk>): seq<Chunk> {
    [Buf([header])] + ([Buf(LengthBuffer(length))] + ([NumCache(id)] + rest))
  }

  /** The first byte for one of the types whose QoS is fixed. */
  function FixedHeader(c: Command, dup: bool, qos: nat): Byte
    requires qos < 4
  {
    HeaderByte(c, dup, qos, false)
  }

  function AttemptedId(p: Packet): Attempt
    requires Shaped(p.cmd, p.fields) && (p.fields.IdFields? || p.fields.SubscribeFields? || p.fields.SubackFields? || p.fields.UnsubscribeFields?)
  {
    var id := p.fields.messageId;
    if id.None? then Refused(InvalidMessageId)
    else
      match p.fields
      case SubscribeFields(_, subs) =>
        if subs == [] then Refused(InvalidSubscriptions)
        else Written(IdChunks(FixedHeader(Subscribe, p.dup, 1), 2 + SubscriptionsLength(subs), id.value, SubscriptionChunks(subs)))
      case SubackFields(_, granted) =>
        if granted == [] then Refused(InvalidQosVector)
        else Written(IdChunks(FixedHeader(Suback, false, 0), 2 + |granted|, id.value, [Buf(AllOctets(granted))]))
      case UnsubscribeFields(_, topics) =>
        if topics == [] then Refused(InvalidUnsubscriptions)
        else Written(IdChunks(FixedHeader(Unsubscribe, p.dup, 1), 2 + TopicsLength(topics), id.value, TopicChunks(topics)))
      case IdFields(_) =>
        if p.cmd == Pubrel && p.dup then Crashed
        else Written(IdChunks(FixedHeader(p.cmd, false, if p.cmd == Pubrel then 1 else 0), 2, id.value, []))
  }

  /** What writing a packet comes to. */
  function Attempted(p: Packet): Attempt
    requires Shaped(p.cmd, p.fields)
  {
    var f := Normalized(p);
    match p.fields
    case ConnectFields(_, _, _, _, _, _, _, _) =>
      if ConnectRefusal(f).Some? then Refused(ConnectRefusal(f).value) else Written(ConnectChunks(f))
    case ConnackFields(present, rc) =>
      Written([Buf([0x20])] + ([Buf(LengthBuffer(2))] + ([Buf([Bit(present, 1)])] + [Buf([Octet(rc)])])))
    case PublishFields(_, id, _) =>
      if p.qos > 0 && id.None? then Refused(InvalidMessageId)
      else if p.qos > 2 then Crashed
      else Written(PublishChunks(HeaderByte(Publish, p.dup, p.qos, p.retain), f))
    case Nothing =>
      if p.cmd == Reserved then Refused(UnknownCommand) else Written([Buf([Code(p.cmd) * 16, 0])])
    case _ => AttemptedId(p)
  }
}
