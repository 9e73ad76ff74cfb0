/**
  When cutting the bytes elsewhere changes what the parser emits.  It reads fields from the whole buffer, so a packet whose
  body is too short for them takes them from whatever lies behind it, if that is there already.  Whether that can
  happen is decided by the body alone.
*/
module ChunkIndependence {
  import opened Common
  import opened MqttPacket
  import opened BufferList
  import opened ParserSpec
  import opened CodecRoundTrip
  import opened StreamRoundTrip

  // ---------------------------------------------------------------- the test

  /** Every field the parser reads without checking it against the packet's end lies within the body. */
  predicate SelfContained(cmd: Command, qos: nat, body: Octets) {
    var limit := |body|;
    match cmd
    case Connect =>
      var (name, p) := FieldAt(body, limit, 0);
      name.None? || !KnownName(name.value) || p < limit
    case Publish =>
      var (topic, p) := FieldAt(body, limit, 0);
      qos == 0 || topic.None? || p + 2 <= limit
    case Subscribe => qos != 1 || (limit >= 2 && SubscribeAt(body, limit, qos) != Thrown)
    case Reserved | Pingreq | Pingresp | Disconnect => true
    case _ => limit >= 2
  }

  // ---------------------------------------------------------------- fields inside the body

  lemma NumSame(body: Octets, flat: Octets, pos: nat)
    requires body <= flat && pos + 2 <= |body|
    ensures NumAt(flat, pos) == NumAt(body, pos)
  {
  }

  lemma FieldBeyond(flat: Octets, limit: nat, pos: nat)
    requires pos <= |flat| && pos + 2 > limit
    ensures FieldAt(flat, limit, pos).0 == None
  {
  }

  /** A field is read the same whatever lies behind the body: its end is checked. */
  lemma FieldSame(body: Octets, flat: Octets, pos: nat)
    requires body <= flat && pos <= |body|
    ensures FieldAt(flat, |body|, pos).0 == FieldAt(body, |body|, pos).0
    ensures FieldAt(body, |body|, pos).0.Some? ==>
              FieldAt(flat, |body|, pos) == FieldAt(body, |body|, pos) && FieldAt(body, |body|, pos).1 <= |body|
  {
    if pos + 2 > |body| {
      FieldBeyond(flat, |body|, pos);
      FieldBeyond(body, |body|, pos);
    } else {
      NumSame(body, flat, pos);
      var (n, p) := NumAt(body, pos);
      if n + p <= |body| { assert flat[p..p + n] == body[p..p + n]; }
    }
  }

  // ---------------------------------------------------------------- CONNECT

  /** The same outcome, and the same position behind it when there is more to read. */
  predicate SamePart(a: Part, b: Part, limit: nat) {
    a.o == b.o && (b.o.Read? ==> a.pos == b.pos <= limit)
  }

  lemma ClientIdSame(body: Octets, flat: Octets, f: Fields<Octets>, pos: nat)
    requires body <= flat && pos <= |body| && f.ConnectFields?
    ensures SamePart(ClientIdAt(flat, |body|, f, pos), ClientIdAt(body, |body|, f, pos), |body|)
  {
    if pos + 2 <= |body| {
      NumSame(body, flat, pos);
      FieldSame(body, flat, pos + 2);
    } else {
      ClientIdBeyond(flat, |body|, f, pos);
    }
  }

  lemma ClientIdBeyond(flat: Octets, limit: nat, f: Fields<Octets>, pos: nat)
    requires pos <= |flat| && pos + 2 > limit && f.ConnectFields?
    ensures ClientIdAt(flat, limit, f, pos).o == Bad(PacketTooShort)
  {
    var (n, p) := NumAt(flat, pos);
    if n != -1 { FieldBeyond(flat, limit, p); }
  }

  lemma WillSame(body: Octets, flat: Octets, f: Fields<Octets>, flags: Byte, pos: nat)
    requires body <= flat && pos <= |body| && f.ConnectFields?
    ensures SamePart(WillAt(flat, |body|, f, flags, pos), WillAt(body, |body|, f, flags, pos), |body|)
  {
    if flags / 4 % 2 != 0 {
      FieldSame(body, flat, pos);
      var (topic, p) := FieldAt(body, |body|, pos);
      if topic.Some? { FieldSame(body, flat, p); }
    }
  }

  lemma CredentialsSame(body: Octets, flat: Octets, f: Fields<Octets>, flags: Byte, pos: nat)
    requires body <= flat && pos <= |body| && f.ConnectFields?
    ensures CredentialsAt(flat, |body|, f, flags, pos) == CredentialsAt(body, |body|, f, flags, pos)
  {
    FieldSame(body, flat, pos);
    var user := UsernameAt(body, |body|, f, flags, pos);
    if user.o.Read? { FieldSame(body, flat, user.pos); }
  }

  lemma OptionsSame(body: Octets, flat: Octets, f: Fields<Octets>, flags: Byte, pos: nat)
    requires body <= flat && pos <= |body| && f.ConnectFields?
    ensures OptionsAt(flat, |body|, f, flags, pos) == OptionsAt(body, |body|, f, flags, pos)
  {
    WillSame(body, flat, f, flags, pos);
    var will := WillAt(body, |body|, f, flags, pos);
    if will.o.Read? { CredentialsSame(body, flat, will.o.f, flags, will.pos); }
  }

  /** The rest of a CONNECT behind its name, version and flags. */
  function AfterName(flat: Octets, limit: nat, f: Fields<Octets>, flags: Byte, pos: nat): Outcome
    requires f.ConnectFields? && pos <= |flat|
  {
    var client := ClientIdAt(flat, limit, f, pos);
    if !client.o.Read? then client.o else OptionsAt(flat, limit, client.o.f, flags, client.pos)
  }

  lemma AfterNameSame(body: Octets, flat: Octets, f: Fields<Octets>, flags: Byte, pos: nat)
    requires body <= flat && pos <= |body| && f.ConnectFields?
    ensures AfterName(flat, |body|, f, flags, pos) == AfterName(body, |body|, f, flags, pos)
  {
    ClientIdSame(body, flat, f, pos);
    var client := ClientIdAt(body, |body|, f, pos);
    if client.o.Read? { OptionsSame(body, flat, client.o.f, flags, client.pos); }
  }

  /** A known name with something behind it: even a body that ends before the flags gives the same error. */
  lemma NameSame(body: Octets, flat: Octets, name: Octets, p: nat)
    requires body <= flat && FieldAt(body, |body|, 0) == (Some(name), p) && KnownName(name) && p < |body|
    ensures ConnectAt(flat, |body|) == ConnectAt(body, |body|)
  {
    FieldSame(body, flat, 0);
    assert flat[p] == body[p];
    if p + 1 < |body| {
      assert flat[p + 1] == body[p + 1];
      var n := NameAt(body, |body|);
      if n.o.Read? { AfterNameSame(body, flat, n.o.f, body[n.pos - 1], n.pos); }
    } else {
      var n := NameAt(flat, |body|);
      if n.o.Read? { ClientIdBeyond(flat, |body|, n.o.f, n.pos); }
    }
  }

  lemma ConnectSame(body: Octets, flat: Octets)
    requires body <= flat && SelfContained(Connect, 0, body)
    ensures ConnectAt(flat, |body|) == ConnectAt(body, |body|)
  {
    FieldSame(body, flat, 0);
    var (name, p) := FieldAt(body, |body|, 0);
    if name.Some? && KnownName(name.value) { NameSame(body, flat, name.value, p); }
  }

  // ---------------------------------------------------------------- the other packets

  lemma PublishSame(bufs: seq<Octets>, body: Octets, qos: nat)
    requires body <= Flat(bufs) && SelfContained(Publish, qos, body)
    ensures PublishAt(bufs, |body|, qos) == PublishAt([body], |body|, qos)
  {
    var flat := Flat(bufs);
    FlatOne(body);
    FieldSame(body, flat, 0);
    var (topic, p1) := FieldAt(body, |body|, 0);
    if topic.Some? {
      var p := if qos > 0 then p1 + 2 else p1;
      if qos > 0 { NumSame(body, flat, p1); }
      SliceIsFlatSlice(bufs, p, |body|);
      SliceIsFlatSlice([body], p, |body|);
      assert flat[p..|body|] == body[p..|body|];
    }
  }

  lemma {:induction false} SubscriptionsSame(body: Octets, flat: Octets, pos: nat, id: int, done: seq<Subscription<Octets>>)
    requires body <= flat && pos <= |body| && SubscriptionsAt(body, |body|, pos, id, done) != Thrown
    ensures SubscriptionsAt(flat, |body|, pos, id, done) == SubscriptionsAt(body, |body|, pos, id, done)
    decreases |body| - pos
  {
    if pos < |body| {
      FieldSame(body, flat, pos);
      var (topic, p) := FieldAt(body, |body|, pos);
      if topic.Some? { SubscriptionsSame(body, flat, p + 1, id, done + [Subscription(topic.value, body[p])]); }
    }
  }

  /** A list that ends behind a topic throws, unless there is a byte behind the packet to take for its QoS. */
  lemma {:induction false} SubscriptionsRescued(body: Octets, flat: Octets, pos: nat, id: int, done: seq<Subscription<Octets>>)
    requires body < flat && pos <= |body| && SubscriptionsAt(body, |body|, pos, id, done) == Thrown
    ensures SubscriptionsAt(flat, |body|, pos, id, done).Read?
    decreases |body| - pos
  {
    FieldSame(body, flat, pos);
    var (topic, p) := FieldAt(body, |body|, pos);
    if p < |body| { SubscriptionsRescued(body, flat, p + 1, id, done + [Subscription(topic.value, body[p])]); }
  }

  lemma {:induction false} TopicsSame(body: Octets, flat: Octets, pos: nat, id: int, done: seq<Octets>)
    requires body <= flat && pos <= |body|
    ensures TopicsAt(flat, |body|, pos, id, done) == TopicsAt(body, |body|, pos, id, done)
    decreases |body| - pos
  {
    if pos < |body| {
      FieldSame(body, flat, pos);
      var (topic, p) := FieldAt(body, |body|, pos);
      if topic.Some? { TopicsSame(body, flat, p, id, done + [topic.value]); }
    }
  }

  lemma {:induction false} GrantedSame(body: Octets, flat: Octets, pos: nat, id: int, done: seq<int>)
    requires body <= flat && pos <= |body|
    ensures GrantedAt(flat, |body|, pos, id, done) == GrantedAt(body, |body|, pos, id, done)
    decreases |body| - pos
  {
    if pos < |body| { GrantedSame(body, flat, pos + 1, id, done + [body[pos]]); }
  }

  // ---------------------------------------------------------------- exactly when

  ghost predicate Agreeing(bufs: seq<Octets>, cmd: Command, qos: nat, body: Octets) {
    FieldsAt(bufs, cmd, qos, |body|) == FieldsAt([body], cmd, qos, |body|)
  }

  lemma SelfContainedAgrees(bufs: seq<Octets>, cmd: Command, qos: nat, body: Octets)
    requires SelfContained(cmd, qos, body) && body <= Flat(bufs)
    ensures Agreeing(bufs, cmd, qos, body)
  {
    var flat := Flat(bufs);
    FlatOne(body);
    match cmd
    case Connect => ConnectSame(body, flat);
    case Publish => PublishSame(bufs, body, qos);
    case Subscribe =>
      if qos == 1 {
        NumSame(body, flat, 0);
        SubscriptionsSame(body, flat, 2, NumAt(body, 0).0, []);
      }
    case Suback =>
      NumSame(body, flat, 0);
      GrantedSame(body, flat, 2, NumAt(body, 0).0, []);
    case Unsubscribe =>
      NumSame(body, flat, 0);
      TopicsSame(body, flat, 2, NumAt(body, 0).0, []);
    case _ =>
  }

  /** A body too short for its id: the lists behind it are empty or unreadable, and the id is -1. */
  lemma NoRoomForId(body: Octets)
    requires |body| < 2
    ensures NumAt(body, 0) == (-1, 0)
    ensures var o := SubackAt(body, |body|); o.Read? && o.f.SubackFields? && o.f.messageId == Some(-1)
    ensures var o := SubscribeAt(body, |body|, 1); o.Read? ==> o.f.SubscribeFields? && o.f.messageId == Some(-1)
    ensures var o := UnsubscribeAt(body, |body|); o.Read? ==> o.f.UnsubscribeFields? && o.f.messageId == Some(-1)
  {
    if |body| == 1 {
      FieldBeyond(body, 1, 0);
      assert GrantedAt(body, 1, 1, -1, [] + [body[0]]).Read?;
    }
  }

  /** With enough bytes behind it the id is whatever they say. */
  lemma IdFromBeyond(flat: Octets, limit: nat)
    requires limit < 2 <= |flat|
    ensures var id := NumAt(flat, 0).0;
            && id >= 0 && SubackAt(flat, limit) == Read(SubackFields(Some(id), []))
            && SubscribeAt(flat, limit, 1) == Read(SubscribeFields(Some(id), []))
            && UnsubscribeAt(flat, limit) == Read(UnsubscribeFields(Some(id), []))
  {
  }

  /** A CONNECT that ends behind its name has a version byte, if only a wrong one, when more is buffered. */
  lemma ConnectShows(body: Octets, flat: Octets)
    requires flat == body + [0, 0] && !SelfContained(Connect, 0, body)
    ensures ConnectAt(flat, |body|) != ConnectAt(body, |body|)
  {
    FieldSame(body, flat, 0);
    assert NameAt(body, |body|).o == Bad(PacketTooShort);
    assert flat[|body|] == 0;
    assert NameAt(flat, |body|).o == Bad(InvalidProtocolVersion);
  }

  /** A PUBLISH without room for its id has one when more is buffered. */
  lemma PublishShows(body: Octets, flat: Octets, qos: nat)
    requires flat == body + [0, 0] && !SelfContained(Publish, qos, body)
    ensures PublishAt([flat], |body|, qos) != PublishAt([body], |body|, qos)
  {
    FlatOne(body);
    FlatOne(flat);
    FieldSame(body, flat, 0);
    var (topic, p) := FieldAt(body, |body|, 0);
    assert NumAt(body, p).0 == -1 && NumAt(flat, p).0 != -1;
  }

  /** Two more bytes in the buffer, and a body that is not self-contained is read differently. */
  lemma TwoMoreBytesShow(cmd: Command, qos: nat, body: Octets)
    requires !SelfContained(cmd, qos, body)
    ensures !Agreeing([body + [0, 0]], cmd, qos, body)
  {
    var flat := body + [0, 0];
    FlatOne(body);
    FlatOne(flat);
    match cmd
    case Connect => ConnectShows(body, flat);
    case Publish => PublishShows(body, flat, qos);
    case _ => IdShows(cmd, qos, body, flat);
  }

  lemma IdShows(cmd: Command, qos: nat, body: Octets, flat: Octets)
    requires flat == body + [0, 0] && !SelfContained(cmd, qos, body) && !cmd.Connect? && !cmd.Publish?
    ensures FieldsAt([flat], cmd, qos, |body|) != FieldsAt([body], cmd, qos, |body|)
  {
    FlatOne(body);
    FlatOne(flat);
    if |body| < 2 {
      NoRoomForId(body);
      IdFromBeyond(flat, |body|);
    } else {
      EndRescued(body, flat);
    }
  }

  lemma EndRescued(body: Octets, flat: Octets)
    requires body < flat && |body| >= 2 && SubscribeAt(body, |body|, 1) == Thrown
    ensures SubscribeAt(flat, |body|, 1) != Thrown
  {
    NumSame(body, flat, 0);
    SubscriptionsRescued(body, flat, 2, NumAt(body, 0).0, []);
  }

  /** What is read for a packet does not depend on what else is buffered exactly when its body is self-contained. */
  lemma IndependentExactly(cmd: Command, qos: nat, body: Octets)
    ensures (forall bufs: seq<Octets> | body <= Flat(bufs) :: Agreeing(bufs, cmd, qos, body)) <==> SelfContained(cmd, qos, body)
  {
    if SelfContained(cmd, qos, body) {
      forall bufs: seq<Octets> | body <= Flat(bufs) { SelfContainedAgrees(bufs, cmd, qos, body); }
    } else {
      FlatOne(body + [0, 0]);
      TwoMoreBytesShow(cmd, qos, body);
    }
  }
}
