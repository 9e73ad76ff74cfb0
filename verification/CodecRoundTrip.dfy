/**
  Writing and parsing undo each other: whatever chunks the encodings of a list of packets arrive in, the
  parser emits exactly those packets, in order, and is left with nothing.
*/
module CodecRoundTrip {
  import opened Common
  import opened MqttPacket
  import opened BufferList
  import opened Utf8
  import opened ParserSpec

  // ---------------------------------------------------------------- reading one field

  /** From pos to the end of the packet, the buffer holds `rest`. */
  ghost predicate Cursor(flat: Octets, limit: int, pos: nat, rest: Octets) {
    pos <= limit <= |flat| && flat[pos..limit] == rest
  }

  lemma Advance(flat: Octets, limit: int, pos: nat, a: Octets, rest: Octets)
    requires Cursor(flat, limit, pos, a + rest)
    ensures pos + |a| <= limit && flat[pos..pos + |a|] == a && Cursor(flat, limit, pos + |a|, rest)
  {
    assert flat[pos..limit][..|a|] == a && flat[pos..limit][|a|..] == rest;
    assert flat[pos..limit][..|a|] == flat[pos..pos + |a|];
    assert flat[pos..limit][|a|..] == flat[pos + |a|..limit];
  }

  lemma NumHere(flat: Octets, limit: int, pos: nat, n: int, rest: Octets)
    requires 0 <= n < 65536 && Cursor(flat, limit, pos, Num(n) + rest)
    ensures NumAt(flat, pos) == (n, pos + 2) && Cursor(flat, limit, pos + 2, rest)
  {
    Advance(flat, limit, pos, Num(n), rest);
    assert flat[pos..pos + 2][0] == n / 256 && flat[pos..pos + 2][1] == n % 256;
  }

  lemma FieldHere(flat: Octets, limit: int, pos: nat, b: Octets, rest: Octets)
    requires |b| < 65536 && Cursor(flat, limit, pos, Field(b) + rest)
    ensures FieldAt(flat, limit, pos) == (Some(b), pos + |Field(b)|) && Cursor(flat, limit, pos + |Field(b)|, rest)
  {
    Associate(Num(|b|), b, rest);
    NumHere(flat, limit, pos, |b|, b + rest);
    Advance(flat, limit, pos + 2, b, rest);
  }

  lemma ByteHere(flat: Octets, limit: int, pos: nat, b: Byte, rest: Octets)
    requires Cursor(flat, limit, pos, [b] + rest)
    ensures pos < limit && flat[pos] == b && Cursor(flat, limit, pos + 1, rest)
  {
    Advance(flat, limit, pos, [b], rest);
    assert flat[pos..pos + 1][0] == b;
  }

  // ---------------------------------------------------------------- reading a CONNECT

  lemma LowBit(n: nat, bit: bool, h: nat)
    requires n == Bit(bit, 1) + 2 * h
    ensures n / 2 == h && (n % 2 == 1 <==> bit) && (n % 2 == 0 <==> !bit)
  {
  }

  lemma UpperBits(a: bool, b: bool, c: bool, n: nat)
    requires n == Bit(a, 4) + Bit(b, 2) + Bit(c, 1)
    ensures (n / 4 == 0 <==> !a) && (n / 2 % 2 == 0 <==> !b) && (n % 2 == 1 <==> c)
  {
  }

  lemma Shifts(n: nat)
    ensures n / 4 == n / 2 / 2 && n / 8 == n / 4 / 2 && n / 32 == n / 8 / 4
  {
  }

  lemma LowPair(q: nat, h: nat)
    requires q < 4
    ensures (4 * h + q) / 4 == h && (4 * h + q) % 4 == q
  {
  }

  lemma LowerBits(q: nat, d: bool, e: bool, upper: nat, n: nat)
    requires q < 4 && n == 32 * upper + q * 8 + Bit(d, 4) + Bit(e, 2)
    ensures n / 32 == upper && n / 8 % 4 == q && (n / 4 % 2 == 0 <==> !d) && (n / 2 % 2 == 1 <==> e)
  {
    var h: nat := 4 * upper + q;
    var m2: nat := 2 * h + Bit(d, 1);
    var m1: nat := 2 * m2 + Bit(e, 1);
    LowBit(n, false, m1);
    LowBit(m1, e, m2);
    LowBit(m2, d, h);
    Shifts(n);
    LowPair(q, upper);
  }

  lemma FlagBits(a: bool, b: bool, c: bool, q: nat, d: bool, e: bool, n: nat)
    requires q < 4 && n == Bit(a, 128) + Bit(b, 64) + Bit(c, 32) + q * 8 + Bit(d, 4) + Bit(e, 2)
    ensures (n / 128 == 0 <==> !a) && (n / 64 % 2 == 0 <==> !b) && (n / 32 % 2 == 1 <==> c)
    ensures n / 8 % 4 == q && (n / 4 % 2 == 0 <==> !d) && (n / 2 % 2 == 1 <==> e)
  {
    var upper := Bit(a, 4) + Bit(b, 2) + Bit(c, 1);
    LowerBits(q, d, e, upper, n);
    UpperBits(a, b, c, upper);
    assert n / 128 == n / 32 / 4 && n / 64 == n / 32 / 2;
  }

  /** The flags say which of the optional parts follow, and the two bits of the will that travel in them. */
  predicate Announces(flags: Byte, f: Fields<Octets>)
    requires f.ConnectFields?
  {
    && (flags / 128 == 0 <==> f.username.None?) && (flags / 64 % 2 == 0 <==> f.password.None?)
    && (flags / 4 % 2 == 0 <==> f.will.None?) && (flags / 2 % 2 == 1 <==> f.clean)
    && (f.will.Some? ==> flags / 8 % 4 == f.will.value.qos && (flags / 32 % 2 == 1 <==> f.will.value.retain))
  }

  /** The bits of the connect flags are what they were made from. */
  lemma FlagsReadBack(f: Fields<Octets>)
    requires f.ConnectFields? && ConnectFits(f)
    ensures Announces(ConnectFlags(f), f)
  {
    var retain, qos := f.will.Some? && f.will.value.retain, if f.will.Some? then f.will.value.qos else 0;
    FlagBits(f.username.Some?, f.password.Some?, retain, qos, f.will.Some?, f.clean, ConnectFlags(f));
  }

  lemma PasswordHere(flat: Octets, limit: int, p: Fields<Octets>, flags: Byte, pos: nat, password: Option<Octets>)
    requires p.ConnectFields? && p.password == None && (password.Some? ==> |password.value| < 65536)
    requires flags / 64 % 2 == 0 <==> password.None?
    requires Cursor(flat, limit, pos, OptionalField(password))
    ensures PasswordAt(flat, limit, p, flags, pos) == Read(p.(password := password))
  {
    if password.Some? {
      assert Field(password.value) + [] == Field(password.value);
      FieldHere(flat, limit, pos, password.value, []);
    }
  }

  lemma UsernameHere(flat: Octets, limit: int, p: Fields<Octets>, flags: Byte, pos: nat, username: Option<Octets>, rest: Octets)
    requires p.ConnectFields? && p.username == None && (username.Some? ==> |username.value| < 65536)
    requires flags / 128 == 0 <==> username.None?
    requires Cursor(flat, limit, pos, OptionalField(username) + rest)
    ensures var next := pos + |OptionalField(username)|;
            Cursor(flat, limit, next, rest) && UsernameAt(flat, limit, p, flags, pos) == Part(Read(p.(username := username)), next)
  {
    if username.Some? {
      FieldHere(flat, limit, pos, username.value, rest);
    } else {
      assert [] + rest == rest;
    }
  }

  lemma CredentialsGoOn(flat: Octets, limit: int, p: Fields<Octets>, flags: Byte, pos: nat, user: Part)
    requires p.ConnectFields? && pos <= |flat| && user == UsernameAt(flat, limit, p, flags, pos) && user.o.Read?
    ensures CredentialsAt(flat, limit, p, flags, pos) == PasswordAt(flat, limit, user.o.f, flags, user.pos)
  {
  }

  lemma CredentialsHere(flat: Octets, limit: int, f: Fields<Octets>, p: Fields<Octets>, flags: Byte, pos: nat)
    requires f.ConnectFields? && ConnectFits(f) && Announces(flags, f) && p == f.(username := None, password := None)
    requires Cursor(flat, limit, pos, OptionalField(f.username) + OptionalField(f.password))
    ensures CredentialsAt(flat, limit, p, flags, pos) == Read(f)
  {
    var u, next := p.(username := f.username), pos + |OptionalField(f.username)|;
    UsernameHere(flat, limit, p, flags, pos, f.username, OptionalField(f.password));
    CredentialsGoOn(flat, limit, p, flags, pos, Part(Read(u), next));
    PasswordHere(flat, limit, u, flags, next, f.password);
    assert u.(password := f.password) == f;
  }

  lemma WillBytesHere(flat: Octets, limit: int, pos: nat, w: Will<Octets>, rest: Octets)
    requires WillFits(w) && Cursor(flat, limit, pos, WillBytes(Some(w)) + rest)
    ensures var p1 := pos + |Field(w.topic)|;
            var p2 := p1 + |Field(w.payload)|;
            && FieldAt(flat, limit, pos) == (Some(w.topic), p1)
            && FieldAt(flat, limit, p1) == (Some(w.payload), p2)
            && Cursor(flat, limit, p2, rest)
  {
    Associate(Field(w.topic), Field(w.payload), rest);
    FieldHere(flat, limit, pos, w.topic, Field(w.payload) + rest);
    FieldHere(flat, limit, pos + |Field(w.topic)|, w.payload, rest);
  }

  lemma WillRead(flat: Octets, limit: int, p: Fields<Octets>, flags: Byte, pos: nat, w: Will<Octets>, p1: nat, p2: nat)
    requires p.ConnectFields? && pos <= |flat| && p1 <= |flat|
    requires flags / 4 % 2 != 0 && flags / 8 % 4 == w.qos && (flags / 32 % 2 == 1 <==> w.retain)
    requires FieldAt(flat, limit, pos) == (Some(w.topic), p1) && FieldAt(flat, limit, p1) == (Some(w.payload), p2)
    ensures WillAt(flat, limit, p, flags, pos) == Part(Read(p.(will := Some(w))), p2)
  {
  }

  lemma WillHere(flat: Octets, limit: int, p: Fields<Octets>, flags: Byte, pos: nat, will: Option<Will<Octets>>, rest: Octets)
    requires p.ConnectFields? && p.will == None && (will.Some? ==> WillFits(will.value))
    requires flags / 4 % 2 == 0 <==> will.None?
    requires will.Some? ==> flags / 8 % 4 == will.value.qos && (flags / 32 % 2 == 1 <==> will.value.retain)
    requires Cursor(flat, limit, pos, WillBytes(will) + rest)
    ensures var next := pos + |WillBytes(will)|;
            Cursor(flat, limit, next, rest) && WillAt(flat, limit, p, flags, pos) == Part(Read(p.(will := will)), next)
  {
    if will.Some? {
      var w, p1 := will.value, pos + |Field(will.value.topic)|;
      WillBytesHere(flat, limit, pos, w, rest);
      WillRead(flat, limit, p, flags, pos, w, p1, p1 + |Field(w.payload)|);
    } else {
      assert [] + rest == rest;
    }
  }

  predicate KnownName(name: Octets) {
    Decode(name) == MQTT || Decode(name) == MQISDP
  }

  /** The fields known once the flags are read. */
  function Started(name: Octets, version: int, clean: bool): (f: Fields<Octets>)
    ensures f.ConnectFields?
  {
    ConnectFields(name, version, clean, 0, [], None, None, None)
  }

  lemma NameHere(flat: Octets, limit: int, name: Octets, version: Byte, flags: Byte, rest: Octets)
    requires KnownName(name) && (version == 3 || version == 4) && |name| < 65536
    requires Cursor(flat, limit, 0, Field(name) + ([version, flags] + rest))
    ensures var p := |Field(name)| + 2;
            && Cursor(flat, limit, p, rest) && flat[p - 1] == flags
            && NameAt(flat, limit) == Part(Read(Started(name, version, flags / 2 % 2 == 1)), p)
  {
    var two: Octets := [version, flags];
    FieldHere(flat, limit, 0, name, two + rest);
    var p := |Field(name)|;
    Advance(flat, limit, p, two, rest);
    assert flat[p..p + 2][0] == version && flat[p..p + 2][1] == flags;
  }

  lemma ClientIdHere(flat: Octets, limit: int, p: Fields<Octets>, pos: nat, keepalive: int, clientId: Octets, rest: Octets)
    requires p.ConnectFields? && 0 <= keepalive < 65536 && |clientId| < 65536
    requires Cursor(flat, limit, pos, Num(keepalive) + (Field(clientId) + rest))
    ensures var next := pos + 2 + |Field(clientId)|;
            && Cursor(flat, limit, next, rest)
            && ClientIdAt(flat, limit, p, pos) == Part(Read(p.(keepalive := keepalive, clientId := clientId)), next)
  {
    NumHere(flat, limit, pos, keepalive, Field(clientId) + rest);
    FieldHere(flat, limit, pos + 2, clientId, rest);
  }

  /** The fields of a CONNECT without its optional parts. */
  function Named(f: Fields<Octets>): (r: Fields<Octets>)
    requires f.ConnectFields?
    ensures r.ConnectFields?
  {
    f.(will := None, username := None, password := None)
  }

  lemma FirstPartsHere(flat: Octets, limit: int, f: Fields<Octets>, flags: Byte, options: Octets)
    requires f.ConnectFields? && ConnectFits(f) && KnownName(f.protocolId) && (f.protocolVersion == 3 || f.protocolVersion == 4)
    requires flags / 2 % 2 == 1 <==> f.clean
    requires Cursor(flat, limit, 0, Field(f.protocolId) + ([f.protocolVersion, flags] + (Num(f.keepalive) + (Field(f.clientId) + options))))
    ensures var f0, p0 := Started(f.protocolId, f.protocolVersion, f.clean), |Field(f.protocolId)| + 2;
            var p1 := p0 + 2 + |Field(f.clientId)|;
            && NameAt(flat, limit) == Part(Read(f0), p0) && p0 <= |flat| && flat[p0 - 1] == flags
            && ClientIdAt(flat, limit, f0, p0) == Part(Read(Named(f)), p1)
            && Cursor(flat, limit, p1, options)
  {
    NameHere(flat, limit, f.protocolId, f.protocolVersion, flags, Num(f.keepalive) + (Field(f.clientId) + options));
    var f0, p0 := Started(f.protocolId, f.protocolVersion, f.clean), |Field(f.protocolId)| + 2;
    ClientIdHere(flat, limit, f0, p0, f.keepalive, f.clientId, options);
  }

  lemma AfterWill(flat: Octets, limit: int, p: Fields<Octets>, flags: Byte, pos: nat, f2: Fields<Octets>, p2: nat)
    requires p.ConnectFields? && f2.ConnectFields? && pos <= |flat| && p2 <= |flat|
    requires WillAt(flat, limit, p, flags, pos) == Part(Read(f2), p2)
    ensures OptionsAt(flat, limit, p, flags, pos) == CredentialsAt(flat, limit, f2, flags, p2)
  {
  }

  lemma {:induction false} OptionsHere(flat: Octets, limit: int, f: Fields<Octets>, flags: Byte, pos: nat)
    requires f.ConnectFields? && ConnectFits(f) && Announces(flags, f)
    requires Cursor(flat, limit, pos, WillBytes(f.will) + (OptionalField(f.username) + OptionalField(f.password)))
    ensures OptionsAt(flat, limit, Named(f), flags, pos) == Read(f)
  {
    WillHere(flat, limit, Named(f), flags, pos, f.will, OptionalField(f.username) + OptionalField(f.password));
    var f2, p2 := f.(username := None, password := None), pos + |WillBytes(f.will)|;
    AfterWill(flat, limit, Named(f), flags, pos, f2, p2);
    CredentialsHere(flat, limit, f, f2, flags, p2);
  }

  lemma AfterFirstParts(flat: Octets, limit: int, f0: Fields<Octets>, p0: nat, f1: Fields<Octets>, p1: nat)
    requires f0.ConnectFields? && f1.ConnectFields? && 1 <= p0 <= |flat| && p1 <= |flat|
    requires NameAt(flat, limit) == Part(Read(f0), p0) && ClientIdAt(flat, limit, f0, p0) == Part(Read(f1), p1)
    ensures ConnectAt(flat, limit) == OptionsAt(flat, limit, f1, flat[p0 - 1], p1)
  {
  }

  lemma ConnectHere(flat: Octets, limit: int, f: Fields<Octets>, flags: Byte)
    requires f.ConnectFields? && ConnectFits(f) && KnownName(f.protocolId) && (f.protocolVersion == 3 || f.protocolVersion == 4)
    requires Announces(flags, f) && Cursor(flat, limit, 0, ConnectBody(f, flags))
    ensures ConnectAt(flat, limit) == Read(f)
  {
    var f0, p0 := Started(f.protocolId, f.protocolVersion, f.clean), |Field(f.protocolId)| + 2;
    var p1 := p0 + 2 + |Field(f.clientId)|;
    FirstPartsHere(flat, limit, f, flags, WillBytes(f.will) + (OptionalField(f.username) + OptionalField(f.password)));
    AfterFirstParts(flat, limit, f0, p0, Named(f), p1);
    OptionsHere(flat, limit, f, flags, p1);
  }

  // ---------------------------------------------------------------- reading the other packets

  lemma PublishHere(bufs: seq<Octets>, limit: nat, qos: nat, f: Fields<Octets>)
    requires f.PublishFields? && FieldsFit(f) && (f.messageId.Some? <==> qos > 0)
    requires Cursor(Flat(bufs), limit, 0, Body(f))
    ensures PublishAt(bufs, limit, qos) == Read(f)
  {
    var flat := Flat(bufs);
    FieldHere(flat, limit, 0, f.topic, IdBytes(f.messageId) + f.payload);
    var p := |Field(f.topic)|;
    if qos > 0 {
      NumHere(flat, limit, p, f.messageId.value, f.payload);
      p := p + 2;
    } else {
      assert [] + f.payload == f.payload;
    }
    SliceIsFlatSlice(bufs, p, limit);
  }

  lemma MoveHead<T>(done: seq<T>, s: seq<T>)
    requires s != []
    ensures done + [s[0]] + s[1..] == done + s
  {
  }

  lemma {:induction false} SubscriptionsHere(flat: Octets, limit: int, pos: nat, id: int,
                                             done: seq<Subscription<Octets>>, subs: seq<Subscription<Octets>>)
    requires SubscriptionsFit(subs) && Cursor(flat, limit, pos, SubscriptionBytes(subs))
    ensures SubscriptionsAt(flat, limit, pos, id, done) == Read(SubscribeFields(Some(id), done + subs))
    decreases subs
  {
    if subs == [] {
      assert done + subs == done;
    } else {
      var s, rest := subs[0], SubscriptionBytes(subs[1..]);
      FieldHere(flat, limit, pos, s.topic, [s.qos] + rest);
      var p := pos + |Field(s.topic)|;
      ByteHere(flat, limit, p, s.qos, rest);
      SubscriptionsHere(flat, limit, p + 1, id, done + [s], subs[1..]);
      MoveHead(done, subs);
    }
  }

  lemma {:induction false} TopicsHere(flat: Octets, limit: int, pos: nat, id: int, done: seq<Octets>, topics: seq<Octets>)
    requires TopicsFit(topics) && Cursor(flat, limit, pos, TopicBytes(topics))
    ensures TopicsAt(flat, limit, pos, id, done) == Read(UnsubscribeFields(Some(id), done + topics))
    decreases topics
  {
    if topics == [] {
      assert done + topics == done;
    } else {
      var t := topics[0];
      FieldHere(flat, limit, pos, t, TopicBytes(topics[1..]));
      TopicsHere(flat, limit, pos + |Field(t)|, id, done + [t], topics[1..]);
      MoveHead(done, topics);
    }
  }

  lemma {:induction false} GrantedHere(flat: Octets, limit: int, pos: nat, id: int, done: seq<int>, granted: seq<int>)
    requires BytesFit(granted) && Cursor(flat, limit, pos, GrantedBytes(granted))
    ensures GrantedAt(flat, limit, pos, id, done) == Read(SubackFields(Some(id), done + granted))
    decreases granted
  {
    if granted == [] {
      assert done + granted == done;
    } else {
      ByteHere(flat, limit, pos, granted[0], GrantedBytes(granted[1..]));
      GrantedHere(flat, limit, pos + 1, id, done + [granted[0]], granted[1..]);
      MoveHead(done, granted);
    }
  }

  lemma SubscribeHere(flat: Octets, limit: int, id: Option<int>, subs: seq<Subscription<Octets>>)
    requires IsId(id) && SubscriptionsFit(subs) && Cursor(flat, limit, 0, IdBytes(id) + SubscriptionBytes(subs))
    ensures SubscribeAt(flat, limit, 1) == Read(SubscribeFields(id, subs))
  {
    NumHere(flat, limit, 0, id.value, SubscriptionBytes(subs));
    SubscriptionsHere(flat, limit, 2, id.value, [], subs);
    assert [] + subs == subs;
  }

  lemma SubackHere(flat: Octets, limit: int, id: Option<int>, granted: seq<int>)
    requires IsId(id) && BytesFit(granted) && Cursor(flat, limit, 0, IdBytes(id) + GrantedBytes(granted))
    ensures SubackAt(flat, limit) == Read(SubackFields(id, granted))
  {
    NumHere(flat, limit, 0, id.value, GrantedBytes(granted));
    GrantedHere(flat, limit, 2, id.value, [], granted);
    assert [] + granted == granted;
  }

  lemma UnsubscribeHere(flat: Octets, limit: int, id: Option<int>, topics: seq<Octets>)
    requires IsId(id) && TopicsFit(topics) && Cursor(flat, limit, 0, IdBytes(id) + TopicBytes(topics))
    ensures UnsubscribeAt(flat, limit) == Read(UnsubscribeFields(id, topics))
  {
    NumHere(flat, limit, 0, id.value, TopicBytes(topics));
    TopicsHere(flat, limit, 2, id.value, [], topics);
    assert [] + topics == topics;
  }

  lemma ConfirmationHere(flat: Octets, limit: int, id: Option<int>)
    requires IsId(id) && Cursor(flat, limit, 0, IdBytes(id))
    ensures NumAt(flat, 0).0 == id.value
  {
    assert IdBytes(id) + [] == IdBytes(id);
    NumHere(flat, limit, 0, id.value, []);
  }

  lemma ConnackHere(flat: Octets, limit: int, present: bool, rc: int)
    requires 0 <= rc < 256 && Cursor(flat, limit, 0, [Bit(present, 1), rc])
    ensures ConnackAt(flat) == Read(ConnackFields(present, rc))
  {
    assert flat[0..limit][0] == Bit(present, 1) && flat[0..limit][1] == rc;
  }

  /** What the parser asks of a packet beyond its layout. */
  predicate Parses(cmd: Command, qos: nat, f: Fields<Octets>) {
    && Shaped(cmd, f) && cmd != Reserved
    && (f.ConnectFields? ==> KnownName(f.protocolId) && (f.protocolVersion == 3 || f.protocolVersion == 4))
    && (f.PublishFields? ==> (f.messageId.Some? <==> qos > 0))
    && (f.SubscribeFields? ==> qos == 1)
  }

  /** The fields of a packet are read back from its body, whatever lies behind it in the buffer. */
  lemma BodyReadBack(bufs: seq<Octets>, cmd: Command, qos: nat, f: Fields<Octets>)
    requires FieldsFit(f) && Parses(cmd, qos, f) && Cursor(Flat(bufs), |Body(f)|, 0, Body(f))
    ensures FieldsAt(bufs, cmd, qos, |Body(f)|) == Read(f)
  {
    var flat, length := Flat(bufs), |Body(f)|;
    match f
    case Nothing =>
    case ConnectFields(_, _, _, _, _, _, _, _) =>
      FlagsReadBack(f);
      ConnectHere(flat, length, f, ConnectFlags(f));
    case ConnackFields(present, rc) => ConnackHere(flat, length, present, rc);
    case PublishFields(_, _, _) => PublishHere(bufs, length, qos, f);
    case IdFields(id) => ConfirmationHere(flat, length, id);
    case SubscribeFields(id, subs) => SubscribeHere(flat, length, id, subs);
    case SubackFields(id, granted) => SubackHere(flat, length, id, granted);
    case UnsubscribeFields(id, topics) => UnsubscribeHere(flat, length, id, topics);
  }

  // ---------------------------------------------------------------- strings

  predicate TopicsPaired(ts: seq<JsString>) {
    forall k | 0 <= k < |ts| :: WellFormed(ts[k])
  }

  predicate SubscriptionsPaired(subs: seq<Subscription<JsString>>) {
    forall k | 0 <= k < |subs| :: WellFormed(subs[k].topic)
  }

  /** Every string of the packet has its surrogates properly paired. */
  predicate Paired(f: Fields<JsString>) {
    match f
    case ConnectFields(name, _, _, _, clientId, will, username, _) =>
      && WellFormed(name) && WellFormed(clientId)
      && (will.Some? ==> WellFormed(will.value.topic)) && (username.Some? ==> WellFormed(username.value))
    case PublishFields(topic, _, _) => WellFormed(topic)
    case SubscribeFields(_, subs) => SubscriptionsPaired(subs)
    case UnsubscribeFields(_, topics) => TopicsPaired(topics)
    case _ => true
  }

  lemma TopicsExactly(ts: seq<JsString>)
    ensures TextTopics(WireTopics(ts)) == ts <==> TopicsPaired(ts)
  {
    var back := TextTopics(WireTopics(ts));
    forall k | 0 <= k < |ts| ensures back[k] == ts[k] <==> WellFormed(ts[k]) {
      RoundTripExactly(ts[k]);
    }
  }

  lemma SubscriptionsExactly(subs: seq<Subscription<JsString>>)
    ensures TextSubscriptions(WireSubscriptions(subs)) == subs <==> SubscriptionsPaired(subs)
  {
    var back := TextSubscriptions(WireSubscriptions(subs));
    forall k | 0 <= k < |subs| ensures back[k] == subs[k] <==> WellFormed(subs[k].topic) {
      RoundTripExactly(subs[k].topic);
    }
  }

  lemma WillExactly(w: Option<Will<JsString>>)
    ensures TextWill(WireWill(w)) == w <==> (w.Some? ==> WellFormed(w.value.topic))
  {
    if w.Some? { RoundTripExactly(w.value.topic); }
  }

  lemma OptionExactly(s: Option<JsString>)
    ensures TextOption(WireOption(s)) == s <==> (s.Some? ==> WellFormed(s.value))
  {
    if s.Some? { RoundTripExactly(s.value); }
  }

  lemma ConnectTextExactly(f: Fields<JsString>)
    requires f.ConnectFields?
    ensures Text(Wire(f)) == f <==> Paired(f)
  {
    RoundTripExactly(f.protocolId);
    RoundTripExactly(f.clientId);
    WillExactly(f.will);
    OptionExactly(f.username);
  }

  /** The strings of a packet survive the trip through bytes exactly when all of them are properly paired. */
  lemma TextExactly(f: Fields<JsString>)
    ensures Text(Wire(f)) == f <==> Paired(f)
  {
    match f
    case ConnectFields(_, _, _, _, _, _, _, _) => ConnectTextExactly(f);
    case PublishFields(topic, _, _) => RoundTripExactly(topic);
    case SubscribeFields(_, subs) => SubscriptionsExactly(subs);
    case UnsubscribeFields(_, topics) => TopicsExactly(topics);
    case _ =>
  }

  // ---------------------------------------------------------------- packets that survive

  /** The packet has an encoding, its strings are properly paired, and a CONNECT names a known protocol and version. */
  predicate Valid(p: Packet) {
    && Fits(p) && Paired(Normalized(p))
    && (p.fields.ConnectFields? ==>
          var f := Normalized(p);
          (f.protocolId == MQTT || f.protocolId == MQISDP) && (f.protocolVersion == 3 || f.protocolVersion == 4))
  }

  lemma ConnectParses(f: Fields<JsString>)
    requires f.ConnectFields? && Paired(f) && (f.protocolId == MQTT || f.protocolId == MQISDP)
    requires f.protocolVersion == 3 || f.protocolVersion == 4
    ensures Parses(Connect, 0, Wire(f))
  {
    RoundTripExactly(f.protocolId);
  }

  lemma {:induction false} ValidParses(p: Packet)
    requires Valid(p)
    ensures Parses(Normal(p).cmd, Normal(p).qos, Wire(Normalized(p)))
  {
    if p.fields.ConnectFields? { ConnectParses(Normalized(p)); }
  }

  /** A valid packet's fields are read back from its body, whatever lies behind it in the buffer. */
  lemma {:induction false} PacketReadBack(bufs: seq<Octets>, p: Packet)
    requires Valid(p) && Cursor(Flat(bufs), Normal(p).length, 0, Body(Wire(Normalized(p))))
    ensures var n := Normal(p); FieldsAt(bufs, n.cmd, n.qos, n.length) == Read(Wire(Normalized(p)))
    ensures Text(Wire(Normalized(p))) == Normal(p).fields
  {
    ValidParses(p);
    BodyReadBack(bufs, Normal(p).cmd, Normal(p).qos, Wire(Normalized(p)));
    TextExactly(Normalized(p));
  }
}
