/**
  For which packets the writer produces their encoding.  It accepts packets whose encoding it gets wrong: an
  empty topic ends the stream at that point, and a CONNECT counts code units where it writes bytes.
*/
module WriterExact {
  import opened Common
  import opened MqttPacket
  import opened Utf8
  import opened WriterSpec

  // ---------------------------------------------------------------- joining chunks

  lemma JoinOne(c: Chunk, rest: seq<Chunk>)
    ensures Joined([c] + rest) == if Truthy(c) then ChunkBytes(c) + Joined(rest) else []
  {
    assert ([c] + rest)[1..] == rest;
  }

  lemma JoinString(s: JsString, rest: seq<Chunk>)
    requires |Utf8.Encode(s)| < 65536
    ensures Joined(StringChunks(s) + rest) == if s == [] then Num(0) else Field(Utf8.Encode(s)) + Joined(rest)
  {
    var b := Utf8.Encode(s);
    assert StringChunks(s) + rest == [Buf(Num(|b|))] + ([Str(s)] + rest);
    JoinOne(Buf(Num(|b|)), [Str(s)] + rest);
    JoinOne(Str(s), rest);
    Associate(Num(|b|), b, Joined(rest));
    assert Num(0) + [] == Num(0);
  }

  lemma JoinStringOrNothing(s: JsString, rest: seq<Chunk>)
    requires |Utf8.Encode(s)| < 65536
    ensures Joined(StringOrNothing(s) + rest) == Field(Utf8.Encode(s)) + Joined(rest)
  {
    if s == [] {
      JoinOne(NumCache(0), rest);
      assert Field([]) == Num(0) + [] == Num(0);
    } else {
      JoinString(s, rest);
    }
  }

  lemma JoinBuffer(b: Octets, rest: seq<Chunk>)
    requires |b| < 65536
    ensures Joined(BufferChunks(b) + rest) == Field(b) + Joined(rest)
  {
    assert BufferChunks(b) + rest == [Buf(Num(|b|))] + ([Buf(b)] + rest);
    JoinOne(Buf(Num(|b|)), [Buf(b)] + rest);
    JoinOne(Buf(b), rest);
    Associate(Num(|b|), b, Joined(rest));
  }

  lemma JoinLast(c: Chunk)
    requires Truthy(c)
    ensures Joined([c]) == ChunkBytes(c)
  {
    JoinOne(c, []);
    assert [c] + [] == [c] && ChunkBytes(c) + [] == ChunkBytes(c);
  }

  /** First byte and length: what every packet but the empty ones begins with. */
  lemma JoinHead(header: Byte, length: nat, rest: seq<Chunk>)
    requires length < MAX_LENGTH
    ensures Joined([Buf([header])] + ([Buf(LengthBuffer(length))] + rest)) == [header] + (RemainingLength(length) + Joined(rest))
  {
    JoinOne(Buf([header]), [Buf(LengthBuffer(length))] + rest);
    JoinOne(Buf(LengthBuffer(length)), rest);
  }

  /** The same first byte and length before different bytes. */
  lemma SameHead(header: Byte, length: nat, a: Octets, b: Octets)
    ensures [header] + (RemainingLength(length) + a) == [header] + (RemainingLength(length) + b) <==> a == b
  {
    var x, y := [header] + (RemainingLength(length) + a), [header] + (RemainingLength(length) + b);
    assert x[1 + |RemainingLength(length)|..] == a && y[1 + |RemainingLength(length)|..] == b;
  }

  /** The code says where it ends, so two lengths are told apart whatever follows. */
  lemma LengthsDiffer(header: Byte, n: nat, m: nat, a: Octets, b: Octets)
    requires n != m && n < MAX_LENGTH && m < MAX_LENGTH
    ensures [header] + (RemainingLength(n) + a) != [header] + (RemainingLength(m) + b)
  {
    var x, y := [header] + (RemainingLength(n) + a), [header] + (RemainingLength(m) + b);
    LengthReadBack(n, a);
    LengthReadBack(m, b);
    assert x[1..] == RemainingLength(n) + a && y[1..] == RemainingLength(m) + b;
  }

  // ---------------------------------------------------------------- CONNECT

  lemma JoinWill(w: Option<Will<JsString>>, rest: seq<Chunk>)
    requires w.Some? ==> w.value.topic != [] && WillFits(WireWill(w).value)
    ensures Joined(WillChunks(w) + rest) == WillBytes(WireWill(w)) + Joined(rest)
  {
    if w.Some? {
      var t, b := w.value.topic, w.value.payload;
      Associate(StringChunks(t), BufferChunks(b), rest);
      JoinString(t, BufferChunks(b) + rest);
      JoinBuffer(b, rest);
      Associate(Field(Utf8.Encode(t)), Field(b), Joined(rest));
    } else {
      assert [] + rest == rest && [] + Joined(rest) == Joined(rest);
    }
  }

  lemma JoinUsername(u: Option<JsString>, rest: seq<Chunk>)
    requires u.Some? ==> |Utf8.Encode(u.value)| < 65536
    ensures Joined(UsernameChunks(u) + rest) == OptionalField(WireOption(u)) + Joined(rest)
  {
    if u.Some? {
      JoinStringOrNothing(u.value, rest);
    } else {
      assert [] + rest == rest && [] + Joined(rest) == Joined(rest);
    }
  }

  lemma JoinPassword(b: Option<Octets>)
    requires b.Some? ==> |b.value| < 65536
    ensures Joined(PasswordChunks(b)) == OptionalField(b)
  {
    if b.Some? {
      JoinBuffer(b.value, []);
      assert BufferChunks(b.value) + [] == BufferChunks(b.value) && Field(b.value) + [] == Field(b.value);
    }
  }

  /** The optional parts of a CONNECT, as chunks and as bytes. */
  function OptionChunks(f: Fields<JsString>): seq<Chunk>
    requires f.ConnectFields?
  {
    WillChunks(f.will) + (UsernameChunks(f.username) + PasswordChunks(f.password))
  }

  function OptionBytes(w: Fields<Octets>): Octets
    requires w.ConnectFields? && ConnectFits(w)
  {
    WillBytes(w.will) + (OptionalField(w.username) + OptionalField(w.password))
  }

  lemma JoinOptions(f: Fields<JsString>)
    requires f.ConnectFields? && ConnectFits(Wire(f)) && (f.will.Some? ==> f.will.value.topic != [])
    ensures Joined(OptionChunks(f)) == OptionBytes(Wire(f))
  {
    JoinWill(f.will, UsernameChunks(f.username) + PasswordChunks(f.password));
    JoinUsername(f.username, PasswordChunks(f.password));
    JoinPassword(f.password);
  }

  lemma JoinThree(a: Byte, b: Byte, n: int, rest: seq<Chunk>)
    requires 0 <= n < 65536
    ensures Joined([Buf([a])] + ([Buf([b])] + ([NumCache(n)] + rest))) == [a, b] + (Num(n) + Joined(rest))
  {
    JoinOne(Buf([a]), [Buf([b])] + ([NumCache(n)] + rest));
    JoinOne(Buf([b]), [NumCache(n)] + rest);
    JoinOne(NumCache(n), rest);
  }

  lemma FlagsOred(f: Fields<JsString>)
    requires f.ConnectFields? && ConnectFits(Wire(f))
    ensures OredFlags(f) == ConnectFlags(Wire(f))
  {
    if f.will.Some? {
      var q := f.will.value.qos;
      assert q == 0 || q == 1 || q == 2 || q == 3;
    }
  }

  lemma ConnectJoined(f: Fields<JsString>)
    requires f.ConnectFields? && ConnectFits(Wire(f)) && ConnectRefusal(f).None? && ConnectLength(f) < MAX_LENGTH
    ensures Joined(ConnectChunks(f))
            == [0x10] + (RemainingLength(ConnectLength(f)) + ConnectBody(Wire(f), ConnectFlags(Wire(f))))
  {
    FlagsOred(f);
    var r2 := StringOrNothing(f.clientId) + OptionChunks(f);
    var r1 := [Buf([if f.protocolVersion == 4 then 4 else 3])] + ([Buf([OredFlags(f)])] + ([NumCache(f.keepalive)] + r2));
    JoinHead(0x10, ConnectLength(f), StringOrNothing(f.protocolId) + r1);
    JoinStringOrNothing(f.protocolId, r1);
    JoinThree(if f.protocolVersion == 4 then 4 else 3, OredFlags(f), f.keepalive, r2);
    JoinStringOrNothing(f.clientId, OptionChunks(f));
    JoinOptions(f);
  }

  /** How far the announced length falls short of the body: by what the two ids need beyond a byte a code unit. */
  lemma ConnectShortfall(f: Fields<JsString>)
    requires f.ConnectFields? && ConnectFits(Wire(f))
    ensures |ConnectBody(Wire(f), ConnectFlags(Wire(f)))| - ConnectLength(f)
            == (|Utf8.Encode(f.protocolId)| - |f.protocolId|) + (|Utf8.Encode(f.clientId)| - |f.clientId|)
  {
  }

  /** What a CONNECT must be to be accepted and to be encoded with its true length. */
  predicate ConnectSendable(f: Fields<JsString>)
    requires f.ConnectFields?
  {
    && (f.protocolVersion == 3 || f.protocolVersion == 4)
    && (f.clientId != [] || (f.protocolVersion == 4 && f.clean))
    && (f.will.Some? ==> f.will.value.topic != []) && f.password != Some([])
    && Ascii(f.protocolId) && Ascii(f.clientId)
  }

  lemma ConnectExactly(f: Fields<JsString>)
    requires f.ConnectFields? && ConnectFits(Wire(f)) && ConnectRefusal(f).None?
    requires |ConnectBody(Wire(f), ConnectFlags(Wire(f)))| < MAX_LENGTH
    ensures var body := ConnectBody(Wire(f), ConnectFlags(Wire(f)));
            Joined(ConnectChunks(f)) == [0x10] + (RemainingLength(|body|) + body) <==> Ascii(f.protocolId) && Ascii(f.clientId)
  {
    var body, length := ConnectBody(Wire(f), ConnectFlags(Wire(f))), ConnectLength(f);
    EncodedLength(f.protocolId, None);
    EncodedLength(f.clientId, None);
    ConnectShortfall(f);
    ConnectJoined(f);
    if length != |body| { LengthsDiffer(0x10, length, |body|, body, body); }
  }

  // ---------------------------------------------------------------- lists of topics

  predicate NoEmptyTopic(subs: seq<Subscription<JsString>>) {
    forall k | 0 <= k < |subs| :: subs[k].topic != []
  }

  /** Only the last topic may be empty: there is nothing behind it to lose. */
  predicate NoEmptyTopicBeforeLast(topics: seq<JsString>) {
    forall k | 0 <= k < |topics| - 1 :: topics[k] != []
  }

  lemma {:induction false} SubscriptionsLengthIs(subs: seq<Subscription<JsString>>)
    requires SubscriptionsFit(WireSubscriptions(subs))
    ensures SubscriptionsLength(subs) == |SubscriptionBytes(WireSubscriptions(subs))|
  {
    if subs != [] {
      var w := WireSubscriptions(subs);
      assert w[1..] == WireSubscriptions(subs[1..]);
      SubscriptionsLengthIs(subs[1..]);
    }
  }

  lemma {:induction false} SubscriptionsJoined(subs: seq<Subscription<JsString>>)
    requires SubscriptionsFit(WireSubscriptions(subs))
    ensures var b := SubscriptionBytes(WireSubscriptions(subs));
            if NoEmptyTopic(subs) then Joined(SubscriptionChunks(subs)) == b else |Joined(SubscriptionChunks(subs))| < |b|
  {
    if subs != [] {
      var w, s := WireSubscriptions(subs), subs[0];
      assert w[1..] == WireSubscriptions(subs[1..]) && w[0] == Subscription(Utf8.Encode(s.topic), s.qos);
      assert NoEmptyTopic(subs) <==> s.topic != [] && NoEmptyTopic(subs[1..]);
      var rest := SubscriptionChunks(subs[1..]);
      JoinString(s.topic, [QosChunk(s.qos)] + rest);
      JoinOne(QosChunk(s.qos), rest);
      SubscriptionsJoined(subs[1..]);
    }
  }

  lemma {:induction false} TopicsLengthIs(topics: seq<JsString>)
    requires TopicsFit(WireTopics(topics))
    ensures TopicsLength(topics) == |TopicBytes(WireTopics(topics))|
  {
    if topics != [] {
      var w := WireTopics(topics);
      assert w[1..] == WireTopics(topics[1..]);
      TopicsLengthIs(topics[1..]);
    }
  }

  lemma {:induction false} TopicsJoined(topics: seq<JsString>)
    requires TopicsFit(WireTopics(topics))
    ensures var b := TopicBytes(WireTopics(topics));
            if NoEmptyTopicBeforeLast(topics) then Joined(TopicChunks(topics)) == b else |Joined(TopicChunks(topics))| < |b|
  {
    if topics != [] {
      var w, t := WireTopics(topics), topics[0];
      assert w[1..] == WireTopics(topics[1..]) && w[0] == Utf8.Encode(t);
      assert |topics| > 1 ==> (NoEmptyTopicBeforeLast(topics) <==> t != [] && NoEmptyTopicBeforeLast(topics[1..]));
      JoinString(t, TopicChunks(topics[1..]));
      TopicsJoined(topics[1..]);
      if |topics| == 1 {
        assert Field([]) == Num(0) + [] == Num(0) && Num(0) + [] == Num(0);
      }
    }
  }

  lemma {:induction false} OctetsAreBytes(ns: seq<int>)
    requires BytesFit(ns)
    ensures AllOctets(ns) == GrantedBytes(ns)
  {
    if ns != [] { OctetsAreBytes(ns[1..]); }
  }

  // ---------------------------------------------------------------- the other packets

  lemma IdJoined(header: Byte, id: int, length: nat, rest: seq<Chunk>)
    requires 0 <= id < 65536 && length < MAX_LENGTH
    ensures Joined(IdChunks(header, length, id, rest)) == [header] + (RemainingLength(length) + (Num(id) + Joined(rest)))
  {
    JoinHead(header, length, [NumCache(id)] + rest);
    JoinOne(NumCache(id), rest);
  }

  /** A packet with an id is encoded exactly when what follows the id is. */
  lemma IdExactly(header: Byte, id: int, rest: seq<Chunk>, bytes: Octets)
    requires 0 <= id < 65536 && 2 + |bytes| < MAX_LENGTH
    ensures Joined(IdChunks(header, 2 + |bytes|, id, rest)) == [header] + (RemainingLength(2 + |bytes|) + (Num(id) + bytes))
            <==> Joined(rest) == bytes
  {
    IdJoined(header, id, 2 + |bytes|, rest);
    SameHead(header, 2 + |bytes|, Num(id) + Joined(rest), Num(id) + bytes);
    assert (Num(id) + Joined(rest))[2..] == Joined(rest) && (Num(id) + bytes)[2..] == bytes;
  }

  /** A list behind the id: right when its chunks join to its bytes, wrong when they fall short. */
  lemma ListExactly(header: Byte, id: int, length: nat, rest: seq<Chunk>, bytes: Octets, right: bool)
    requires 0 <= id < 65536 && 2 + |bytes| < MAX_LENGTH && length == |bytes|
    requires if right then Joined(rest) == bytes else |Joined(rest)| < |bytes|
    ensures right <==> Joined(IdChunks(header, 2 + length, id, rest)) == [header] + (RemainingLength(2 + |bytes|) + (Num(id) + bytes))
  {
    IdExactly(header, id, rest, bytes);
  }

  lemma SubscribeExactly(header: Byte, id: int, subs: seq<Subscription<JsString>>)
    requires SubscriptionsFit(WireSubscriptions(subs)) && 0 <= id < 65536
    requires 2 + |SubscriptionBytes(WireSubscriptions(subs))| < MAX_LENGTH
    ensures var b := SubscriptionBytes(WireSubscriptions(subs));
            NoEmptyTopic(subs) <==> Joined(IdChunks(header, 2 + SubscriptionsLength(subs), id, SubscriptionChunks(subs)))
                                    == [header] + (RemainingLength(2 + |b|) + (Num(id) + b))
  {
    SubscriptionsLengthIs(subs);
    SubscriptionsJoined(subs);
    ListExactly(header, id, SubscriptionsLength(subs), SubscriptionChunks(subs), SubscriptionBytes(WireSubscriptions(subs)), NoEmptyTopic(subs));
  }

  lemma UnsubscribeExactly(header: Byte, id: int, topics: seq<JsString>)
    requires TopicsFit(WireTopics(topics)) && 0 <= id < 65536 && 2 + |TopicBytes(WireTopics(topics))| < MAX_LENGTH
    ensures var b := TopicBytes(WireTopics(topics));
            NoEmptyTopicBeforeLast(topics) <==> Joined(IdChunks(header, 2 + TopicsLength(topics), id, TopicChunks(topics)))
                                                == [header] + (RemainingLength(2 + |b|) + (Num(id) + b))
  {
    TopicsLengthIs(topics);
    TopicsJoined(topics);
    ListExactly(header, id, TopicsLength(topics), TopicChunks(topics), TopicBytes(WireTopics(topics)), NoEmptyTopicBeforeLast(topics));
  }

  lemma SubackJoined(header: Byte, id: int, granted: seq<int>)
    requires BytesFit(granted) && 0 <= id < 65536 && 2 + |granted| < MAX_LENGTH
    ensures Joined(IdChunks(header, 2 + |granted|, id, [Buf(AllOctets(granted))]))
            == [header] + (RemainingLength(2 + |granted|) + (Num(id) + GrantedBytes(granted)))
  {
    OctetsAreBytes(granted);
    JoinLast(Buf(AllOctets(granted)));
    IdJoined(header, id, 2 + |granted|, [Buf(AllOctets(granted))]);
  }

  lemma ConfirmationJoined(header: Byte, id: int)
    requires 0 <= id < 65536
    ensures Joined(IdChunks(header, 2, id, [])) == [header] + (RemainingLength(2) + Num(id))
  {
    IdJoined(header, id, 2, []);
    assert Num(id) + [] == Num(id);
  }

  lemma JoinIds(id: Option<int>, payload: Octets)
    requires id.Some? ==> IsId(id)
    ensures Joined((if id.Some? then [NumCache(id.value)] else []) + [Buf(payload)]) == IdBytes(id) + payload
  {
    JoinLast(Buf(payload));
    if id.Some? {
      JoinOne(NumCache(id.value), [Buf(payload)]);
    } else {
      assert [] + [Buf(payload)] == [Buf(payload)] && [] + payload == payload;
    }
  }

  /** The chunks behind the topic of a PUBLISH. */
  function AfterTopic(f: Fields<JsString>): seq<Chunk>
    requires f.PublishFields?
  {
    (if f.messageId.Some? then [NumCache(f.messageId.value)] else []) + [Buf(f.payload)]
  }

  lemma PublishJoined(header: Byte, f: Fields<JsString>, length: nat)
    requires f.PublishFields? && |Utf8.Encode(f.topic)| < 65536 && length < MAX_LENGTH
    requires length == |Utf8.Encode(f.topic)| + 2 + |f.payload| + (if f.messageId.Some? then 2 else 0)
    ensures Joined(PublishChunks(header, f)) == [header] + (RemainingLength(length) + Joined(StringChunks(f.topic) + AfterTopic(f)))
  {
    JoinHead(header, length, StringChunks(f.topic) + AfterTopic(f));
  }

  /** A PUBLISH to no topic is cut off behind the topic's length. */
  lemma PublishExactly(header: Byte, f: Fields<JsString>)
    requires f.PublishFields? && FieldsFit(Wire(f)) && |Body(Wire(f))| < MAX_LENGTH
    ensures Joined(PublishChunks(header, f)) == [header] + (RemainingLength(|Body(Wire(f))|) + Body(Wire(f)))
            <==> f.topic != [] || (f.messageId.None? && f.payload == [])
  {
    var b, rest, body := Utf8.Encode(f.topic), IdBytes(f.messageId) + f.payload, Body(Wire(f));
    assert body == Field(b) + rest && |body| == |b| + 2 + |rest|;
    PublishJoined(header, f, |body|);
    JoinString(f.topic, AfterTopic(f));
    JoinIds(f.messageId, f.payload);
    SameHead(header, |body|, Joined(StringChunks(f.topic) + AfterTopic(f)), body);
  }

  lemma ConnackJoined(present: bool, rc: int)
    requires 0 <= rc < 256
    ensures Joined([Buf([0x20])] + ([Buf(LengthBuffer(2))] + ([Buf([Bit(present, 1)])] + [Buf([Octet(rc)])])))
            == [0x20] + (RemainingLength(2) + [Bit(present, 1), rc])
  {
    JoinHead(0x20, 2, [Buf([Bit(present, 1)])] + [Buf([Octet(rc)])]);
    JoinOne(Buf([Bit(present, 1)]), [Buf([Octet(rc)])]);
    JoinLast(Buf([Octet(rc)]));
  }

  // ---------------------------------------------------------------- every packet

  /** The packets the writer gets right, in terms of the packet alone. */
  predicate Sendable(p: Packet) {
    match p.fields
    case ConnectFields(_, _, _, _, _, _, _, _) => ConnectSendable(Normalized(p))
    case PublishFields(topic, _, payload) => topic != [] || (p.qos == 0 && payload == [])
    case IdFields(_) => !(p.cmd == Pubrel && p.dup)
    case SubscribeFields(_, subs) => subs != [] && NoEmptyTopic(subs)
    case SubackFields(_, granted) => granted != []
    case UnsubscribeFields(_, topics) => topics != [] && NoEmptyTopicBeforeLast(topics)
    case _ => true
  }

  ghost predicate Generates(p: Packet, bytes: Octets)
    requires Shaped(p.cmd, p.fields)
  {
    var a := Attempted(p);
    a.Written? && Joined(a.cs) == bytes
  }

  lemma ConnectGenerates(p: Packet)
    requires Fits(p) && p.fields.ConnectFields?
    ensures Generates(p, PacketBytes(p)) <==> Sendable(p)
  {
    var f := Normalized(p);
    var body := ConnectBody(Wire(f), ConnectFlags(Wire(f)));
    assert PacketBytes(p) == [0x10] + (RemainingLength(|body|) + body);
    if ConnectRefusal(f).None? { ConnectExactly(f); }
  }

  lemma ConfirmationGenerates(p: Packet)
    requires Fits(p) && p.fields.IdFields?
    ensures Generates(p, PacketBytes(p)) <==> Sendable(p)
  {
    ConfirmationJoined(HeaderByte(p.cmd, false, if p.cmd == Pubrel then 1 else 0, false), p.fields.messageId.value);
  }

  lemma SubscribeBytes(p: Packet)
    requires Fits(p) && p.fields.SubscribeFields?
    ensures var b := SubscriptionBytes(WireSubscriptions(p.fields.subscriptions));
            && 2 + |b| < MAX_LENGTH
            && PacketBytes(p) == [HeaderByte(Subscribe, p.dup, 1, false)] + (RemainingLength(2 + |b|) + (Num(p.fields.messageId.value) + b))
  {
  }

  lemma UnsubscribeBytes(p: Packet)
    requires Fits(p) && p.fields.UnsubscribeFields?
    ensures var b := TopicBytes(WireTopics(p.fields.unsubscriptions));
            && 2 + |b| < MAX_LENGTH
            && PacketBytes(p) == [HeaderByte(Unsubscribe, p.dup, 1, false)] + (RemainingLength(2 + |b|) + (Num(p.fields.messageId.value) + b))
  {
  }

  lemma SubscribeAttempted(p: Packet)
    requires p.cmd == Subscribe && p.fields.SubscribeFields? && p.fields.messageId.Some? && p.fields.subscriptions != []
    ensures var subs := p.fields.subscriptions;
            Attempted(p) == Written(IdChunks(HeaderByte(Subscribe, p.dup, 1, false), 2 + SubscriptionsLength(subs),
                                             p.fields.messageId.value, SubscriptionChunks(subs)))
  {
  }

  lemma UnsubscribeAttempted(p: Packet)
    requires p.cmd == Unsubscribe && p.fields.UnsubscribeFields? && p.fields.messageId.Some? && p.fields.unsubscriptions != []
    ensures var topics := p.fields.unsubscriptions;
            Attempted(p) == Written(IdChunks(HeaderByte(Unsubscribe, p.dup, 1, false), 2 + TopicsLength(topics),
                                             p.fields.messageId.value, TopicChunks(topics)))
  {
  }

  lemma SubscribeRight(p: Packet)
    requires p.cmd == Subscribe && p.fields.SubscribeFields? && IsId(p.fields.messageId)
    requires SubscriptionsFit(WireSubscriptions(p.fields.subscriptions))
    requires 2 + |SubscriptionBytes(WireSubscriptions(p.fields.subscriptions))| < MAX_LENGTH
    ensures var b := SubscriptionBytes(WireSubscriptions(p.fields.subscriptions));
            Sendable(p) <==> Generates(p, [HeaderByte(Subscribe, p.dup, 1, false)]
                                          + (RemainingLength(2 + |b|) + (Num(p.fields.messageId.value) + b)))
  {
    var subs := p.fields.subscriptions;
    if subs != [] {
      SubscribeExactly(HeaderByte(Subscribe, p.dup, 1, false), p.fields.messageId.value, subs);
      SubscribeAttempted(p);
    }
  }

  lemma UnsubscribeRight(p: Packet)
    requires p.cmd == Unsubscribe && p.fields.UnsubscribeFields? && IsId(p.fields.messageId)
    requires TopicsFit(WireTopics(p.fields.unsubscriptions))
    requires 2 + |TopicBytes(WireTopics(p.fields.unsubscriptions))| < MAX_LENGTH
    ensures var b := TopicBytes(WireTopics(p.fields.unsubscriptions));
            Sendable(p) <==> Generates(p, [HeaderByte(Unsubscribe, p.dup, 1, false)]
                                          + (RemainingLength(2 + |b|) + (Num(p.fields.messageId.value) + b)))
  {
    var topics := p.fields.unsubscriptions;
    if topics != [] {
      UnsubscribeExactly(HeaderByte(Unsubscribe, p.dup, 1, false), p.fields.messageId.value, topics);
      UnsubscribeAttempted(p);
    }
  }

  lemma SubscribeGenerates(p: Packet)
    requires Fits(p) && p.fields.SubscribeFields?
    ensures Generates(p, PacketBytes(p)) <==> Sendable(p)
  {
    SubscribeBytes(p);
    SubscribeRight(p);
  }

  lemma SubackGenerates(p: Packet)
    requires Fits(p) && p.fields.SubackFields?
    ensures Generates(p, PacketBytes(p)) <==> Sendable(p)
  {
    SubackJoined(HeaderByte(Suback, false, 0, false), p.fields.messageId.value, p.fields.granted);
  }

  lemma UnsubscribeGenerates(p: Packet)
    requires Fits(p) && p.fields.UnsubscribeFields?
    ensures Generates(p, PacketBytes(p)) <==> Sendable(p)
  {
    UnsubscribeBytes(p);
    UnsubscribeRight(p);
  }

  /** What generate produces is the packet's encoding exactly for these packets, of all that have one. */
  lemma GeneratesExactly(p: Packet)
    requires Fits(p)
    ensures Generates(p, PacketBytes(p)) <==> Sendable(p)
  {
    match p.fields
    case ConnectFields(_, _, _, _, _, _, _, _) => ConnectGenerates(p);
    case ConnackFields(present, rc) => ConnackJoined(present, rc);
    case PublishFields(_, _, _) => PublishExactly(HeaderByte(Publish, p.dup, p.qos, p.retain), Normalized(p));
    case Nothing => JoinLast(Buf([Code(p.cmd) * 16, 0]));
    case IdFields(_) => ConfirmationGenerates(p);
    case SubscribeFields(_, _) => SubscribeGenerates(p);
    case SubackFields(_, _) => SubackGenerates(p);
    case UnsubscribeFields(_, _) => UnsubscribeGenerates(p);
  }

  // ---------------------------------------------------------------- numbers out of range

  /** The return code of a CONNACK loses its high bits. */
  lemma AnyReturnCode(p: Packet)
    requires p.cmd == Connack && p.fields.ConnackFields?
    ensures Generates(p, [0x20, 0x02, if p.fields.sessionPresent then 1 else 0, p.fields.returnCode % 256])
  {
    var present, rc := p.fields.sessionPresent, p.fields.returnCode;
    var last := [Buf([Octet(rc)])];
    JoinHead(0x20, 2, [Buf([Bit(present, 1)])] + last);
    JoinOne(Buf([Bit(present, 1)]), last);
    JoinLast(Buf([Octet(rc)]));
    assert Joined(Attempted(p).cs) == [0x20] + ([2] + ([Bit(present, 1)] + [rc % 256]));
  }

  /** An id that is no 16-bit number ends the packet where it should stand. */
  lemma IdOutOfRange(p: Packet)
    requires IsConfirmation(p.cmd) && p.fields.IdFields? && p.fields.messageId.Some? && !IsId(p.fields.messageId) && !(p.cmd == Pubrel && p.dup)
    ensures Generates(p, [HeaderByte(p.cmd, false, if p.cmd == Pubrel then 1 else 0, false), 0x02])
  {
    var header, id := HeaderByte(p.cmd, false, if p.cmd == Pubrel then 1 else 0, false), p.fields.messageId.value;
    JoinHead(header, 2, [NumCache(id)] + []);
    JoinOne(NumCache(id), []);
    assert Joined(IdChunks(header, 2, id, [])) == [header] + ([2] + []);
  }

  lemma Quotient(n: nat, w: nat, q: nat, r: nat)
    requires (w == 2 || w == 4 || w == 8 || w == 16) && n == w * q + r && r < w
    ensures n / w == q
  {
  }

  lemma OddBit(n: nat, x: nat, b: bool)
    requires n == 2 * x + Bit(b, 1)
    ensures n % 2 == 1 <==> b
  {
  }

  /** A byte made of two halves of four bits. */
  lemma FourBits(high: nat, a: bool, b: bool, c: bool, d: bool, n: nat)
    requires n == 16 * high + (Bit(a, 8) + Bit(b, 4) + Bit(c, 2) + Bit(d, 1))
    ensures n / 16 == high && (n / 8 % 2 == 1 <==> a) && (n / 4 % 2 == 1 <==> b) && (n / 2 % 2 == 1 <==> c) && (n % 2 == 1 <==> d)
  {
    var x := 2 * high + Bit(a, 1);
    var y := 2 * x + Bit(b, 1);
    var z := 2 * y + Bit(c, 1);
    Quotient(n, 16, high, Bit(a, 8) + Bit(b, 4) + Bit(c, 2) + Bit(d, 1));
    Quotient(n, 8, x, Bit(b, 4) + Bit(c, 2) + Bit(d, 1));
    Quotient(n, 4, y, Bit(c, 2) + Bit(d, 1));
    Quotient(n, 2, z, Bit(d, 1));
    OddBit(x, high, a);
    OddBit(y, x, b);
    OddBit(z, y, c);
    OddBit(n, z, d);
  }

  /** Bit by bit, the flags of a CONNECT for any will QoS: its bits are or-ed over those of their neighbours. */
  lemma FlagBits(f: Fields<JsString>)
    requires f.ConnectFields?
    ensures var b, q := OredFlags(f) as int, if f.will.Some? then f.will.value.qos else 0;
            var high := b / 16;
            && (high / 8 % 2 == 1 <==> f.username.Some? || q / 16 % 2 == 1) && (high / 4 % 2 == 1 <==> f.password.Some? || q / 8 % 2 == 1)
            && (high / 2 % 2 == 1 <==> (f.will.Some? && f.will.value.retain) || q / 4 % 2 == 1) && (high % 2 == 1 <==> q / 2 % 2 == 1)
            && (b / 8 % 2 == 1 <==> q % 2 == 1) && (b / 4 % 2 == 1 <==> f.will.Some?) && (b / 2 % 2 == 1 <==> f.clean) && b % 2 == 0
  {
    var q := if f.will.Some? then f.will.value.qos else 0;
    var a, b, c, d := f.username.Some? || q / 16 % 2 == 1, f.password.Some? || q / 8 % 2 == 1,
      (f.will.Some? && f.will.value.retain) || q / 4 % 2 == 1, q / 2 % 2 == 1;
    var high := Bit(a, 8) + Bit(b, 4) + Bit(c, 2) + Bit(d, 1);
    FourBits(0, a, b, c, d, high);
    FourBits(high, q % 2 == 1, f.will.Some?, f.clean, false, OredFlags(f));
  }

  // ---------------------------------------------------------------- what is refused

  /** Something the writer objects to. */
  predicate Defect(p: Packet, e: WriteError) {
    var f := p.fields;
    match e
    case InvalidProtocolVersion => f.ConnectFields? && f.protocolVersion != 0 && f.protocolVersion != 3 && f.protocolVersion != 4
    case ClientIdRequiredBefore311 => f.ConnectFields? && f.clientId == [] && f.protocolVersion == 3
    case ClientIdRequiredUnlessClean => f.ConnectFields? && f.clientId == [] && !f.clean
    case InvalidKeepalive => f.ConnectFields? && !(0 <= f.keepalive <= 65535)
    case InvalidWillTopic => f.ConnectFields? && f.will.Some? && f.will.value.topic == []
    case InvalidPassword => f.ConnectFields? && f.password == Some([])
    case InvalidMessageId =>
      || (f.PublishFields? && p.qos > 0 && f.messageId == None)
      || ((f.IdFields? || f.SubscribeFields? || f.SubackFields? || f.UnsubscribeFields?) && f.messageId == None)
    case InvalidSubscriptions => f.SubscribeFields? && f.subscriptions == []
    case InvalidQosVector => f.SubackFields? && f.granted == []
    case InvalidUnsubscriptions => f.UnsubscribeFields? && f.unsubscriptions == []
    case UnknownCommand => p.cmd == Reserved
  }

  /** Which objection comes first. */
  function Order(e: WriteError): nat {
    match e
    case InvalidProtocolVersion => 0
    case ClientIdRequiredBefore311 => 1
    case ClientIdRequiredUnlessClean => 2
    case InvalidKeepalive => 3
    case InvalidWillTopic => 4
    case InvalidPassword => 5
    case InvalidMessageId => 0
    case InvalidSubscriptions => 1
    case InvalidQosVector => 1
    case InvalidUnsubscriptions => 1
    case UnknownCommand => 0
  }

  /** The TypeErrors: a QoS without an entry in the table of headers, and a PUBREL with a duplicate flag. */
  predicate Crashes(p: Packet) {
    (p.fields.PublishFields? && p.qos > 2) || (p.fields.IdFields? && p.cmd == Pubrel && p.dup)
  }

  ghost predicate FirstDefect(p: Packet, e: WriteError) {
    Defect(p, e) && forall d | Order(d) < Order(e) :: !Defect(p, d)
  }

  ghost predicate Flawless(p: Packet) {
    forall d :: !Defect(p, d)
  }

  lemma OneFirstDefect(p: Packet, e: WriteError, d: WriteError)
    requires Shaped(p.cmd, p.fields) && FirstDefect(p, e) && FirstDefect(p, d)
    ensures e == d
  {
    assert Order(e) == Order(d);
  }

  lemma ConnectAttempt(p: Packet)
    requires Shaped(p.cmd, p.fields) && p.fields.ConnectFields?
    ensures var a := Attempted(p); if a.Refused? then FirstDefect(p, a.e) else a.Written? && Flawless(p)
  {
  }

  lemma OtherAttempt(p: Packet)
    requires Shaped(p.cmd, p.fields) && !p.fields.ConnectFields?
    ensures var a := Attempted(p);
            if a.Refused? then FirstDefect(p, a.e) else Flawless(p) && (a == Crashed <==> Crashes(p))
  {
  }

  /** A packet is refused exactly for its first defect, and without a defect it is written unless it crashes. */
  lemma RefusedExactly(p: Packet, e: WriteError)
    requires Shaped(p.cmd, p.fields)
    ensures Attempted(p) == Refused(e) <==> FirstDefect(p, e)
    ensures Attempted(p) == Crashed <==> Crashes(p) && Flawless(p)
    ensures Attempted(p).Written? <==> !Crashes(p) && Flawless(p)
  {
    var a := Attempted(p);
    if p.fields.ConnectFields? { ConnectAttempt(p); } else { OtherAttempt(p); }
    if a.Refused? && FirstDefect(p, e) { OneFirstDefect(p, e, a.e); }
  }
}
