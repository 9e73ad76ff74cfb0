/**
  The Parser object of www/libs/mqtt.js, which keeps its packet, its chunk list and its position in place.
  Every method is proved to do what ParserSpec says, on every input.
*/
module Parser {
  import opened Common
  import opened MqttPacket
  import opened Utf8
  import opened ParserSpec
  import BL = BufferList

  /** What reading the fields leads to, with strings decoded. */
  datatype Parsed = Done(f: Fields<JsString>) | Error(e: Error) | RangeError

  function Told(o: Outcome): (r: Parsed) {
    match o
    case Read(w) => Done(Text(w))
    case Bad(e) => Parsed.Error(e)
    case Thrown => RangeError
  }

  class Parser {
    var packet: Packet
    var error: Option<Error>
    var list: BL.BufferList
    var pos: nat
    var stateCounter: nat
    var events: seq<Event>

    ghost function View(): (st: State)
      reads this, list
    {
      State(stateCounter, packet, error, list.bufs, events)
    }

    ghost predicate Valid()
      reads this, list
    {
      list.Valid() && Sane(View())
    }

    ghost function Buffered(): Octets
      reads this, list
    {
      BL.Flat(list.bufs)
    }

    constructor ()
      ensures Valid() && fresh(list) && View() == Initial
    {
      packet, error, stateCounter, events, pos := BLANK, None, 0, [], 0;
      list := new BL.BufferList();
    }

    method ResetState()
      modifies this
      ensures Valid() && fresh(list) && View() == Reset(old(View()))
    {
      packet, error, stateCounter := BLANK, None, 0;
      list := new BL.BufferList();
    }

    method EmitError(e: Error)
      modifies this`error, this`events
      ensures error == Some(e) && events == old(events) + [Failed(e)]
    {
      error := Some(e);
      events := events + [Failed(e)];
    }

    // -------------------------------------------------------------- reading at the position

    ghost predicate Reading()
      reads this, list
    {
      list.Valid() && pos <= |Buffered()|
    }

    method ParseNum() returns (n: int)
      requires Reading()
      modifies this`pos
      ensures (n, pos) == NumAt(Buffered(), old(pos))
    {
      if list.length - pos < 2 { return -1; }
      var result := list.ReadUInt16BE(pos);
      pos := pos + 2;
      n := result.value;
    }

    method ParseBuffer() returns (b: Option<Octets>)
      requires Reading()
      modifies this`pos
      ensures (b, pos) == FieldAt(Buffered(), packet.length, old(pos))
    {
      var length := ParseNum();
      var end := length + pos;
      if length == -1 || end > list.length || end > packet.length { return None; }
      var result := list.Slice(pos, end);
      BL.SliceIsFlatSlice(list.bufs, pos, end);
      pos := pos + length;
      b := Some(result);
    }

    method ParseString() returns (s: Option<JsString>, ghost b: Option<Octets>)
      requires Reading()
      modifies this`pos
      ensures (b, pos) == FieldAt(Buffered(), packet.length, old(pos)) && s == TextOption(b)
    {
      var bytes := ParseBuffer();
      b := bytes;
      if bytes.None? { return None, b; }
      var text := Utf8Slice(bytes.value, 0, |bytes.value|);
      assert Window(bytes.value, 0, |bytes.value|) == bytes.value;
      s := Some(text);
    }

    // -------------------------------------------------------------- CONNECT

    method ParseName() returns (r: Parsed, flags: Byte, ghost o: Outcome)
      requires Reading() && pos == 0
      modifies this`pos
      ensures Part(o, pos) == NameAt(Buffered(), packet.length) && r == Told(o)
      ensures o.Read? ==> flags == Buffered()[pos - 1]
    {
      flags := 0;
      var protocolId, b := ParseString();
      if protocolId.None? {
        r, o := Parsed.Error(CannotParseProtocolId), Bad(CannotParseProtocolId);
        return;
      }
      if protocolId.value != MQTT && protocolId.value != MQISDP {
        r, o := Parsed.Error(InvalidProtocolId), Bad(InvalidProtocolId);
        return;
      }
      if pos >= list.length {
        r, o := Parsed.Error(PacketTooShort), Bad(PacketTooShort);
        return;
      }
      var version := list.ReadUInt8(pos);
      if version.value != 3 && version.value != 4 {
        r, o := Parsed.Error(InvalidProtocolVersion), Bad(InvalidProtocolVersion);
        return;
      }
      if pos + 1 >= list.length {
        r, o := Parsed.Error(PacketTooShort), Bad(PacketTooShort);
        return;
      }
      var byte := list.ReadUInt8(pos + 1);
      flags := byte.value;
      pos := pos + 2;
      o := Read(ConnectFields(b.value, version.value, flags / 2 % 2 == 1, 0, [], None, None, None));
      r := Done(ConnectFields(protocolId.value, version.value, flags / 2 % 2 == 1, 0, [], None, None, None));
    }

    method ParseClientId(f: Fields<JsString>, ghost w: Fields<Octets>) returns (r: Parsed, ghost o: Outcome)
      requires Reading() && w.ConnectFields? && f == Text(w)
      modifies this`pos
      ensures Part(o, pos) == ClientIdAt(Buffered(), packet.length, w, old(pos)) && r == Told(o)
    {
      var keepalive := ParseNum();
      if keepalive == -1 {
        r, o := Parsed.Error(PacketTooShort), Bad(PacketTooShort);
        return;
      }
      var clientId, b := ParseString();
      if clientId.None? {
        r, o := Parsed.Error(PacketTooShort), Bad(PacketTooShort);
        return;
      }
      o := Read(w.(keepalive := keepalive, clientId := b.value));
      r := Done(f.(keepalive := keepalive, clientId := clientId.value));
    }

    method ParseWill(f: Fields<JsString>, flags: Byte, ghost w: Fields<Octets>) returns (r: Parsed, ghost o: Outcome)
      requires Reading() && w.ConnectFields? && f == Text(w)
      modifies this`pos
      ensures Part(o, pos) == WillAt(Buffered(), packet.length, w, flags, old(pos)) && r == Told(o)
    {
      if flags / 4 % 2 == 0 {
        r, o := Done(f), Read(w);
        return;
      }
      var topic, b := ParseString();
      if topic.None? {
        r, o := Parsed.Error(CannotParseWillTopic), Bad(CannotParseWillTopic);
        return;
      }
      var payload := ParseBuffer();
      if payload.None? {
        r, o := Parsed.Error(CannotParseWillPayload), Bad(CannotParseWillPayload);
        return;
      }
      o := Read(w.(will := Some(Will(b.value, payload.value, flags / 8 % 4, flags / 32 % 2 == 1))));
      r := Done(f.(will := Some(Will(topic.value, payload.value, flags / 8 % 4, flags / 32 % 2 == 1))));
    }

    method ParseUsername(f: Fields<JsString>, flags: Byte, ghost w: Fields<Octets>) returns (r: Parsed, ghost o: Outcome)
      requires Reading() && w.ConnectFields? && f == Text(w)
      modifies this`pos
      ensures Part(o, pos) == UsernameAt(Buffered(), packet.length, w, flags, old(pos)) && r == Told(o)
    {
      if flags / 128 == 0 {
        r, o := Done(f), Read(w);
        return;
      }
      var username, b := ParseString();
      if username.None? {
        r, o := Parsed.Error(CannotParseUsername), Bad(CannotParseUsername);
        return;
      }
      o := Read(w.(username := b));
      r := Done(f.(username := username));
    }

    method ParsePassword(f: Fields<JsString>, flags: Byte, ghost w: Fields<Octets>) returns (r: Parsed, ghost o: Outcome)
      requires Reading() && w.ConnectFields? && f == Text(w)
      modifies this`pos
      ensures o == PasswordAt(Buffered(), packet.length, w, flags, old(pos)) && r == Told(o)
    {
      if flags / 64 % 2 == 0 {
        r, o := Done(f), Read(w);
        return;
      }
      var password := ParseBuffer();
      if password.None? {
        r, o := Parsed.Error(CannotParsePassword), Bad(CannotParsePassword);
        return;
      }
      o := Read(w.(password := password));
      r := Done(f.(password := password));
    }

    method ParseOptions(f: Fields<JsString>, flags: Byte, ghost w: Fields<Octets>) returns (r: Parsed, ghost o: Outcome)
      requires Reading() && w.ConnectFields? && f == Text(w)
      modifies this`pos
      ensures o == OptionsAt(Buffered(), packet.length, w, flags, old(pos)) && r == Told(o)
    {
      r, o := ParseWill(f, flags, w);
      if !r.Done? { return; }
      r, o := ParseUsername(r.f, flags, o.f);
      if !r.Done? { return; }
      r, o := ParsePassword(r.f, flags, o.f);
    }

    method ParseConnect() returns (r: Parsed)
      requires Reading() && pos == 0
      modifies this`pos
      ensures r == Told(ConnectAt(Buffered(), packet.length))
    {
      var flags: Byte;
      ghost var o;
      r, flags, o := ParseName();
      if !r.Done? { return; }
      r, o := ParseClientId(r.f, o.f);
      if !r.Done? { return; }
      r, o := ParseOptions(r.f, flags, o.f);
    }

    // -------------------------------------------------------------- the other packets

    method ParseConnack() returns (r: Parsed)
      requires Reading() && pos == 0
      ensures r == Told(ConnackAt(Buffered()))
    {
      if list.length < 2 { return Done(Nothing); }
      var present := list.ReadUInt8(0);
      var code := list.ReadUInt8(1);
      r := Done(ConnackFields(present.value % 2 == 1, code.value));
    }

    method ParsePublish() returns (r: Parsed)
      requires Reading() && pos == 0
      modifies this`pos
      ensures r == Told(PublishAt(list.bufs, packet.length, packet.qos))
    {
      var topic, b := ParseString();
      if topic.None? { return Parsed.Error(CannotParseTopic); }
      var id: Option<int> := None;
      if packet.qos > 0 {
        var n := ParseNum();
        id := Some(n);
      }
      var payload := list.Slice(pos, packet.length);
      r := Done(PublishFields(topic.value, id, payload));
    }

    /** One turn of the subscription loop: None stops it with `stop`. */
    method ParseSubscription(ghost id: int, ghost done: seq<Subscription<Octets>>)
      returns (s: Option<Subscription<JsString>>, stop: Parsed, ghost w: Subscription<Octets>)
      requires Reading() && pos < packet.length
      modifies this`pos
      ensures Reading()
      ensures var o := SubscriptionsAt(Buffered(), packet.length, old(pos), id, done);
              if s.None? then stop == Told(o)
              else
                && pos > old(pos) && s.value == Subscription(Decode(w.topic), w.qos)
                && o == SubscriptionsAt(Buffered(), packet.length, pos, id, done + [w])
    {
      s, stop, w := None, Parsed.Error(CannotParseTopic), Subscription([], 0);
      var topic, b := ParseString();
      if topic.None? { return; }
      var qos := list.ReadUInt8(pos);
      if qos.None? {
        stop := RangeError;
        return;
      }
      pos := pos + 1;
      w := Subscription(b.value, qos.value);
      s := Some(Subscription(topic.value, qos.value));
    }

    method ParseSubscribe() returns (r: Parsed)
      requires Reading() && pos == 0
      modifies this`pos
      ensures r == Told(SubscribeAt(Buffered(), packet.length, packet.qos))
    {
      if packet.qos != 1 { return Parsed.Error(WrongSubscribeHeader); }
      var id := ParseNum();
      var subscriptions: seq<Subscription<JsString>> := [];
      ghost var wire: seq<Subscription<Octets>> := [];
      ghost var goal := SubscriptionsAt(Buffered(), packet.length, pos, id, []);
      while pos < packet.length
        invariant Reading() && subscriptions == TextSubscriptions(wire)
        invariant SubscriptionsAt(Buffered(), packet.length, pos, id, wire) == goal
        decreases |Buffered()| - pos
      {
        var s, stop, w := ParseSubscription(id, wire);
        if s.None? { return stop; }
        SubscriptionAdded(wire, w);
        wire := wire + [w];
        subscriptions := subscriptions + [s.value];
      }
      r := Done(SubscribeFields(Some(id), subscriptions));
    }

    method ParseSuback() returns (r: Parsed)
      requires Reading() && pos == 0
      modifies this`pos
      ensures r == Told(SubackAt(Buffered(), packet.length))
    {
      var id := ParseNum();
      var granted: seq<int> := [];
      ghost var goal := GrantedAt(Buffered(), packet.length, pos, id, []);
      while pos < packet.length
        invariant Reading() && GrantedAt(Buffered(), packet.length, pos, id, granted) == goal
        decreases |Buffered()| - pos
      {
        var code := list.ReadUInt8(pos);
        if code.None? { return RangeError; }
        granted := granted + [code.value];
        pos := pos + 1;
      }
      r := Done(SubackFields(Some(id), granted));
    }

    method ParseUnsubscribe() returns (r: Parsed)
      requires Reading() && pos == 0
      modifies this`pos
      ensures r == Told(UnsubscribeAt(Buffered(), packet.length))
    {
      var id := ParseNum();
      var unsubscriptions: seq<JsString> := [];
      ghost var wire: seq<Octets> := [];
      ghost var goal := TopicsAt(Buffered(), packet.length, pos, id, []);
      while pos < packet.length
        invariant Reading() && unsubscriptions == TextTopics(wire)
        invariant TopicsAt(Buffered(), packet.length, pos, id, wire) == goal
        decreases |Buffered()| - pos
      {
        var topic, b := ParseString();
        if topic.None? { return Parsed.Error(CannotParseTopic); }
        TopicAdded(wire, b.value);
        wire := wire + [b.value];
        unsubscriptions := unsubscriptions + [topic.value];
      }
      r := Done(UnsubscribeFields(Some(id), unsubscriptions));
    }

    method ParseFields() returns (r: Parsed)
      requires Reading() && pos == 0
      modifies this`pos
      ensures r == Told(FieldsAt(list.bufs, packet.cmd, packet.qos, packet.length))
    {
      match packet.cmd
      case Connect => r := ParseConnect();
      case Connack => r := ParseConnack();
      case Publish => r := ParsePublish();
      case Puback | Pubrec | Pubrel | Pubcomp | Unsuback =>
        var id := ParseNum();
        r := Done(IdFields(Some(id)));
      case Subscribe => r := ParseSubscribe();
      case Suback => r := ParseSuback();
      case Unsubscribe => r := ParseUnsubscribe();
      case Pingreq | Pingresp | Disconnect => r := Done(Nothing);
      case Reserved => r := Parsed.Error(NotSupported);
    }

    // -------------------------------------------------------------- the four states

    method ParseHeader()
      requires Valid() && stateCounter == 0 && Buffered() != []
      modifies this`packet, list
      ensures list.Valid() && View().(phase := 1) == HeaderTurn(old(View()))
    {
      var zero := list.ReadUInt8(0);
      var z := zero.value;
      packet := packet.(cmd := CommandOf(z / 16), retain := z % 2 == 1, qos := z / 2 % 4, dup := z / 8 % 2 == 1);
      list.Consume(1);
    }

    /** False means that the length is not complete yet; then nothing is consumed. */
    method ParseLength() returns (result: bool)
      requires Valid() && stateCounter == 1 && Buffered() != []
      modifies this`packet, list
      ensures list.Valid()
      ensures match LengthTurn(old(View()))
              case Go(st) => result && View().(phase := 2) == st
              case _ => !result && View() == old(View())
    {
      var bytes: nat, mul: nat, length: nat := 0, 1, 0;
      ghost var goal := ReadLength(Buffered(), 0, 1, 0);
      while bytes < 5
        invariant bytes <= 5 && (bytes == 5 || bytes < |Buffered()|) && bytes <= |Buffered()|
        invariant if bytes < 5 then ReadLength(Buffered(), bytes, mul, length) == goal else goal == Some((length, 5))
        invariant list.Valid() && Buffered() == old(Buffered()) && View() == old(View())
      {
        var current := list.ReadUInt8(bytes);
        bytes := bytes + 1;
        length := length + mul * (current.value as int % 128);
        mul := mul * 128;
        if current.value < 128 { break; }
        if list.length <= bytes { return false; }
      }
      assert goal == Some((length, bytes));
      packet := packet.(length := length);
      list.Consume(bytes);
      result := true;
    }

    /** False means that the payload is not complete yet; None is a RangeError on its way to the caller. */
    method ParsePayload() returns (result: Option<bool>)
      requires Valid() && stateCounter == 2
      modifies this
      ensures list == old(list) && list.bufs == old(list.bufs) && stateCounter == 2
      ensures match PayloadTurn(old(View()))
              case Go(st) => result == Some(true) && error == old(error) && View().(phase := 3) == st
              case Rest(st) => View() == st && (result == Some(false) || (result == Some(true) && error.Some?))
              case Threw(st) => result == None && View() == st
    {
      if packet.length != 0 && list.length < packet.length { return Some(false); }
      pos := 0;
      var r := ParseFields();
      match r
      case Done(f) =>
        packet := packet.(fields := f);
        result := Some(true);
      case Error(e) =>
        EmitError(e);
        result := Some(true);
      case RangeError =>
        result := None;
    }

    method NewPacket()
      requires Valid() && stateCounter == 3
      modifies this`packet, this`events, list
      ensures list.Valid() && View().(phase := 0) == PacketTurn(old(View()))
    {
      list.Consume(packet.length);
      events := events + [Got(packet)];
      packet := BLANK;
    }

    /** The state function that is due; the counter moves on when it says so and there is no error. */
    method RunState() returns (on: Option<bool>)
      requires Valid() && error.None? && (packet.length != -1 || Buffered() != [])
      modifies this, list
      ensures Valid() && list == old(list)
      ensures match Turn(old(View()))
              case Go(st) => on == Some(true) && View() == st
              case Rest(st) => on == Some(false) && View() == st
              case Threw(st) => on == None && View() == st
    {
      on := Some(true);
      if stateCounter == 0 {
        ParseHeader();
      } else if stateCounter == 1 {
        var ready := ParseLength();
        on := Some(ready);
      } else if stateCounter == 2 {
        on := ParsePayload();
      } else {
        NewPacket();
      }
      if on == Some(true) {
        if error.Some? { return Some(false); }
        stateCounter := stateCounter + 1;
        if stateCounter >= 4 { stateCounter := 0; }
      }
    }

    /** parse(buf): how many bytes are still buffered; None is an exception. */
    method Parse(buf: Octets) returns (n: Option<int>)
      requires Valid()
      modifies this, list
      ensures Valid() && (list == old(list) || fresh(list))
      ensures View() == Fed(old(View()), buf).st
      ensures n == if Fed(old(View()), buf).Threw? then None else Some(|Buffered()|)
    {
      if error.Some? { ResetState(); }
      list.Append(buf);
      ghost var goal := Drain(View());
      while packet.length != -1 || list.length > 0
        invariant Valid() && error.None? && (list == old(list) || fresh(list))
        invariant Drain(View()) == goal && goal == Fed(old(View()), buf)
        decreases Left(View())
      {
        var on := RunState();
        if on == None { return None; }
        if on == Some(false) { break; }
      }
      n := Some(list.length);
    }

    /** Chunk after chunk, as the stream delivers them. */
    method ParseAll(chunks: seq<Octets>)
      requires Valid()
      modifies this, list
      ensures Valid() && View() == FedAll(old(View()), chunks)
    {
      ghost var goal := FedAll(View(), chunks);
      var i := 0;
      assert chunks[0..] == chunks;
      while i < |chunks|
        invariant 0 <= i <= |chunks| && Valid() && (list == old(list) || fresh(list))
        invariant FedAll(View(), chunks[i..]) == goal
      {
        assert chunks[i..][1..] == chunks[i + 1..];
        var n := Parse(chunks[i]);
        i := i + 1;
      }
    }
  }

  lemma SubscriptionAdded(wire: seq<Subscription<Octets>>, w: Subscription<Octets>)
    ensures TextSubscriptions(wire + [w]) == TextSubscriptions(wire) + [Subscription(Decode(w.topic), w.qos)]
  {
  }

  lemma TopicAdded(wire: seq<Octets>, topic: Octets)
    ensures TextTopics(wire + [topic]) == TextTopics(wire) + [Decode(topic)]
  {
  }
}
