/**
  What the Parser of www/libs/mqtt.js does with its buffered chunks, step by step, on every input: valid,
  malformed or cut short.  Fields are read at positions of the whole buffer, which can hold more than the packet.
*/
module ParserSpec {
  import opened Common
  import opened MqttPacket
  import opened BufferList
  import opened Utf8

  datatype Error =
    | CannotParseProtocolId | InvalidProtocolId | PacketTooShort | InvalidProtocolVersion
    | CannotParseWillTopic | CannotParseWillPayload | CannotParseUsername | CannotParsePassword
    | CannotParseTopic | WrongSubscribeHeader | NotSupported

  /**
    Reading the fields of a packet: done, an 'error' event, or the RangeError of a read behind the last byte.
    Strings are still bytes here; the packet gets them decoded.
  */
  datatype Outcome = Read(f: Fields<Octets>) | Bad(error: Error) | Thrown

  // ---------------------------------------------------------------- fields

  /** _parseNum. */
  function NumAt(flat: seq<Byte>, pos: nat): (r: (int, nat))
    requires pos <= |flat|
    ensures r.0 == -1 || 0 <= r.0 < 65536
    ensures pos <= r.1 <= |flat|
  {
    if |flat| - pos < 2 then (-1, pos) else (flat[pos] as int * 256 + flat[pos + 1] as int, pos + 2)
  }

  /** _parseBuffer and _parseString: a number and that many bytes, unless they leave the buffer or the packet. */
  function FieldAt(flat: seq<Byte>, limit: int, pos: nat): (r: (Option<seq<Byte>>, nat))
    requires pos <= |flat|
    ensures pos <= r.1 <= |flat| && (r.0.Some? ==> r.1 >= pos + 2)
  {
    var (n, p) := NumAt(flat, pos);
    if n == -1 || n + p > |flat| || n + p > limit then (None, p) else (Some(flat[p..p + n]), p + n)
  }

  /** Part of a CONNECT: the fields so far, or an error, and the position behind it. */
  datatype Part = Part(o: Outcome, pos: nat)

  function NameAt(flat: seq<Byte>, limit: int): (r: Part)
    ensures r.o.Read? ==> r.o.f.ConnectFields? && 2 <= r.pos <= |flat|
  {
    var (name, p) := FieldAt(flat, limit, 0);
    if name.None? then Part(Bad(CannotParseProtocolId), p)
    else if Decode(name.value) != MQTT && Decode(name.value) != MQISDP then Part(Bad(InvalidProtocolId), p)
    else if p >= |flat| then Part(Bad(PacketTooShort), p)
    else if flat[p] != 3 && flat[p] != 4 then Part(Bad(InvalidProtocolVersion), p)
    else if p + 1 >= |flat| then Part(Bad(PacketTooShort), p)
    else Part(Read(ConnectFields(name.value, flat[p], flat[p + 1] / 2 % 2 == 1, 0, [], None, None, None)), p + 2)
  }

  function ClientIdAt(flat: seq<Byte>, limit: int, f: Fields<Octets>, pos: nat): (r: Part)
    requires f.ConnectFields? && pos <= |flat|
    ensures r.o.Read? ==> r.o.f.ConnectFields? && r.pos <= |flat|
  {
    var (keepalive, p1) := NumAt(flat, pos);
    if keepalive == -1 then Part(Bad(PacketTooShort), p1)
    else
      var (clientId, p2) := FieldAt(flat, limit, p1);
      if clientId.None? then Part(Bad(PacketTooShort), p2)
      else Part(Read(f.(keepalive := keepalive, clientId := clientId.value)), p2)
  }

  function WillAt(flat: seq<Byte>, limit: int, f: Fields<Octets>, flags: Byte, pos: nat): (r: Part)
    requires f.ConnectFields? && pos <= |flat|
    ensures r.o.Read? ==> r.o.f.ConnectFields? && r.pos <= |flat|
  {
    if flags / 4 % 2 == 0 then Part(Read(f), pos)
    else
      var (topic, p1) := FieldAt(flat, limit, pos);
      if topic.None? then Part(Bad(CannotParseWillTopic), p1)
      else
        var (payload, p2) := FieldAt(flat, limit, p1);
        if payload.None? then Part(Bad(CannotParseWillPayload), p2)
        else
          var will := Will(topic.value, payload.value, flags / 8 % 4, flags / 32 % 2 == 1);
          Part(Read(f.(will := Some(will))), p2)
  }

  function UsernameAt(flat: seq<Byte>, limit: int, f: Fields<Octets>, flags: Byte, pos: nat): (r: Part)
    requires f.ConnectFields? && pos <= |flat|
    ensures r.o.Read? ==> r.o.f.ConnectFields? && r.pos <= |flat|
  {
    if flags / 128 == 0 then Part(Read(f), pos)
    else
      var (username, p) := FieldAt(flat, limit, pos);
      if username.None? then Part(Bad(CannotParseUsername), p) else Part(Read(f.(username := username)), p)
  }

  function PasswordAt(flat: seq<Byte>, limit: int, f: Fields<Octets>, flags: Byte, pos: nat): (o: Outcome)
    requires f.ConnectFields? && pos <= |flat|
  {
    if flags / 64 % 2 == 0 then Read(f)
    else
      var (password, _) := FieldAt(flat, limit, pos);
      if password.None? then Bad(CannotParsePassword) else Read(f.(password := password))
  }

  function CredentialsAt(flat: seq<Byte>, limit: int, f: Fields<Octets>, flags: Byte, pos: nat): (o: Outcome)
    requires f.ConnectFields? && pos <= |flat|
  {
    var user := UsernameAt(flat, limit, f, flags, pos);
    if !user.o.Read? then user.o else PasswordAt(flat, limit, user.o.f, flags, user.pos)
  }

  /** The parts that the flags announce. */
  function OptionsAt(flat: seq<Byte>, limit: int, f: Fields<Octets>, flags: Byte, pos: nat): (o: Outcome)
    requires f.ConnectFields? && pos <= |flat|
  {
    var will := WillAt(flat, limit, f, flags, pos);
    if !will.o.Read? then will.o else CredentialsAt(flat, limit, will.o.f, flags, will.pos)
  }

  function ConnectAt(flat: seq<Byte>, limit: int): (o: Outcome) {
    var name := NameAt(flat, limit);
    if !name.o.Read? then name.o
    else
      var flags := flat[name.pos - 1];
      var client := ClientIdAt(flat, limit, name.o.f, name.pos);
      if !client.o.Read? then client.o else OptionsAt(flat, limit, client.o.f, flags, client.pos)
  }

  /** Too few bytes in the buffer leave a CONNACK without its fields, and without an error. */
  function ConnackAt(flat: seq<Byte>): Outcome {
    if |flat| < 2 then Read(Nothing) else Read(ConnackFields(flat[0] % 2 == 1, flat[1]))
  }

  /** The payload is a slice of the chunk list: its start can lie behind the end of a malformed packet. */
  function PublishAt(bufs: seq<seq<Byte>>, limit: int, qos: nat): Outcome {
    var flat := Flat(bufs);
    var (topic, p1) := FieldAt(flat, limit, 0);
    if topic.None? then Bad(CannotParseTopic)
    else if qos > 0 then
      var (id, p2) := NumAt(flat, p1);
      Read(PublishFields(topic.value, Some(id), SliceOf(bufs, p2, limit)))
    else Read(PublishFields(topic.value, None, SliceOf(bufs, p1, limit)))
  }

  function SubscribeAt(flat: seq<Byte>, limit: int, qos: nat): Outcome {
    if qos != 1 then Bad(WrongSubscribeHeader)
    else
      var (id, p) := NumAt(flat, 0);
      SubscriptionsAt(flat, limit, p, id, [])
  }

  function SubscriptionsAt(flat: seq<Byte>, limit: int, pos: nat, id: int, done: seq<Subscription<Octets>>): Outcome
    requires pos <= |flat|
    decreases |flat| - pos
  {
    if pos >= limit then Read(SubscribeFields(Some(id), done))
    else
      var (topic, p) := FieldAt(flat, limit, pos);
      if topic.None? then Bad(CannotParseTopic)
      else if p >= |flat| then Thrown
      else SubscriptionsAt(flat, limit, p + 1, id, done + [Subscription(topic.value, flat[p])])
  }

  function SubackAt(flat: seq<Byte>, limit: int): Outcome {
    var (id, p) := NumAt(flat, 0);
    GrantedAt(flat, limit, p, id, [])
  }

  function GrantedAt(flat: seq<Byte>, limit: int, pos: nat, id: int, done: seq<int>): Outcome
    requires pos <= |flat|
    decreases |flat| - pos
  {
    if pos >= limit then Read(SubackFields(Some(id), done))
    else if pos >= |flat| then Thrown
    else GrantedAt(flat, limit, pos + 1, id, done + [flat[pos]])
  }

  function UnsubscribeAt(flat: seq<Byte>, limit: int): Outcome {
    var (id, p) := NumAt(flat, 0);
    TopicsAt(flat, limit, p, id, [])
  }

  function TopicsAt(flat: seq<Byte>, limit: int, pos: nat, id: int, done: seq<Octets>): Outcome
    requires pos <= |flat|
    decreases |flat| - pos
  {
    if pos >= limit then Read(UnsubscribeFields(Some(id), done))
    else
      var (topic, p) := FieldAt(flat, limit, pos);
      if topic.None? then Bad(CannotParseTopic)
      else TopicsAt(flat, limit, p, id, done + [topic.value])
  }

  /** _parsePayload's switch. */
  function FieldsAt(bufs: seq<seq<Byte>>, cmd: Command, qos: nat, limit: int): Outcome {
    match cmd
    case Connect => ConnectAt(Flat(bufs), limit)
    case Connack => ConnackAt(Flat(bufs))
    case Publish => PublishAt(bufs, limit, qos)
    case Subscribe => SubscribeAt(Flat(bufs), limit, qos)
    case Suback => SubackAt(Flat(bufs), limit)
    case Unsubscribe => UnsubscribeAt(Flat(bufs), limit)
    case Puback | Pubrec | Pubrel | Pubcomp | Unsuback => Read(IdFields(Some(NumAt(Flat(bufs), 0).0)))
    case Pingreq | Pingresp | Disconnect => Read(Nothing)
    case Reserved => Bad(NotSupported)
  }

  // ---------------------------------------------------------------- states

  datatype Event = Got(packet: Packet) | Failed(error: Error)

  /** `phase` counts _parseHeader, _parseLength, _parsePayload, _newPacket; `events` is everything emitted. */
  datatype State = State(phase: nat, packet: Packet, error: Option<Error>, bufs: seq<seq<Byte>>, events: seq<Event>)

  /** A new Packet(); its command is null until the header is read. */
  const BLANK := Packet(Reserved, false, 0, false, -1, Nothing)

  const Initial := State(0, BLANK, None, [], [])

  /** The length is known from the third phase on. */
  predicate Sane(st: State) {
    st.phase < 4 && (if st.phase < 2 then st.packet.length == -1 else st.packet.length >= 0)
  }

  /** One turn of parse's loop: on to the next phase, waiting for bytes or stopped by an error, or an exception. */
  datatype Turned = Go(st: State) | Rest(st: State) | Threw(st: State)

  function HeaderTurn(st: State): State
    requires Flat(st.bufs) != []
  {
    var zero := Flat(st.bufs)[0];
    st.(phase := 1,
        packet := st.packet.(cmd := CommandOf(zero / 16), retain := zero % 2 == 1, qos := zero / 2 % 4, dup := zero / 8 % 2 == 1),
        bufs := Consumed(st.bufs, 1))
  }

  function LengthTurn(st: State): Turned
    requires Flat(st.bufs) != []
  {
    match ReadLength(Flat(st.bufs), 0, 1, 0)
    case None => Rest(st)
    case Some((length, n)) => Go(st.(phase := 2, packet := st.packet.(length := length), bufs := Consumed(st.bufs, n)))
  }

  function PayloadTurn(st: State): Turned {
    if st.packet.length != 0 && |Flat(st.bufs)| < st.packet.length then Rest(st)
    else
      match FieldsAt(st.bufs, st.packet.cmd, st.packet.qos, st.packet.length)
      case Read(f) => Go(st.(phase := 3, packet := st.packet.(fields := Text(f))))
      case Bad(e) => Rest(st.(error := Some(e), events := st.events + [Failed(e)]))
      case Thrown => Threw(st)
  }

  function PacketTurn(st: State): State
    requires st.packet.length >= 0
  {
    st.(phase := 0, packet := BLANK, bufs := Consumed(st.bufs, st.packet.length), events := st.events + [Got(st.packet)])
  }

  function Turn(st: State): (t: Turned)
    requires Sane(st)
    ensures Sane(t.st) && (t.Go? ==> Left(t.st) < Left(st) && t.st.error == st.error)
  {
    if st.packet.length == -1 && Flat(st.bufs) == [] then Rest(st)
    else
      FlatConsumed(st.bufs, 1);
      if st.phase == 0 then Go(HeaderTurn(st))
      else if st.phase == 1 then
        var t := LengthTurn(st);
        LengthLeft(st);
        t
      else if st.phase == 2 then PayloadTurn(st)
      else
        FlatConsumed(st.bufs, st.packet.length);
        Go(PacketTurn(st))
  }

  /** Every turn uses bytes up or, without, moves on towards the next header. */
  function Left(st: State): nat {
    4 * |Flat(st.bufs)| + (if st.phase == 1 then 3 else if st.phase == 2 then 2 else if st.phase == 3 then 1 else 0)
  }

  /** The loop of parse, to its end. */
  function Drain(st: State): (t: Turned)
    requires Sane(st)
    ensures !t.Go? && Sane(t.st)
    decreases Left(st)
  {
    var t := Turn(st);
    if t.Go? then Drain(t.st) else t
  }

  /** _resetState. */
  function Reset(st: State): State {
    Initial.(events := st.events)
  }

  /** parse(buf): start afresh after an error, append, and run the loop. */
  function Fed(st: State, buf: seq<Byte>): (t: Turned)
    requires Sane(st)
    ensures !t.Go? && Sane(t.st)
  {
    var s := if st.error.Some? then Reset(st) else st;
    Drain(s.(bufs := s.bufs + [buf]))
  }

  function FedAll(st: State, chunks: seq<seq<Byte>>): (r: State)
    requires Sane(st)
    ensures Sane(r)
    decreases |chunks|
  {
    if chunks == [] then st else FedAll(Fed(st, chunks[0]).st, chunks[1..])
  }

  lemma LengthLeft(st: State)
    requires st.phase == 1 && Flat(st.bufs) != []
    ensures var t := LengthTurn(st); t.Go? ==> Left(t.st) < Left(st)
  {
    var r := ReadLength(Flat(st.bufs), 0, 1, 0);
    if r.Some? { FlatConsumed(st.bufs, r.value.1); }
  }
}
