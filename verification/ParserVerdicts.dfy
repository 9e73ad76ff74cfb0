/**
  What the parser makes of a packet, from the bytes alone: when it is read and as what, and which error it gives instead.
  The layout of the bytes is written down here without regard to how the parser walks through them.
*/
module ParserVerdicts {
  import opened Common
  import opened MqttPacket
  import opened BufferList
  import opened Utf8
  import opened ParserSpec

  // ---------------------------------------------------------------- fields

  /** These bytes stand at pos behind their own length, inside the buffer and inside the packet. */
  predicate FieldIs(flat: Octets, limit: nat, pos: nat, b: Octets) {
    && pos + 2 + |b| <= |flat| && pos + 2 + |b| <= limit
    && flat[pos] as int * 256 + flat[pos + 1] as int == |b| && flat[pos + 2..pos + 2 + |b|] == b
  }

  /** No length stands at pos, or it leaves the buffer or the packet. */
  predicate NoField(flat: Octets, limit: nat, pos: nat) {
    |flat| < pos + 2 ||
    var end := pos + 2 + (flat[pos] as int * 256 + flat[pos + 1] as int);
    end > |flat| || end > limit
  }

  lemma FieldOrNot(flat: Octets, limit: nat, pos: nat)
    ensures NoField(flat, limit, pos) <==> forall b :: !FieldIs(flat, limit, pos, b)
  {
    if !NoField(flat, limit, pos) {
      var end := pos + 2 + (flat[pos] as int * 256 + flat[pos + 1] as int);
      assert FieldIs(flat, limit, pos, flat[pos + 2..end]);
    }
  }

  lemma FieldFound(flat: Octets, limit: nat, pos: nat, b: Octets)
    requires FieldIs(flat, limit, pos, b)
    ensures FieldAt(flat, limit, pos) == (Some(b), pos + 2 + |b|)
  {
  }

  lemma FieldVerdict(flat: Octets, limit: nat, pos: nat)
    requires pos <= |flat|
    ensures FieldAt(flat, limit, pos).0 == None <==> NoField(flat, limit, pos)
    ensures var (b, p) := FieldAt(flat, limit, pos); b.Some? ==> FieldIs(flat, limit, pos, b.value) && p == pos + 2 + |b.value|
  {
  }

  // ---------------------------------------------------------------- the protocol's name

  /** "MQTT" or "MQIsdp". */
  predicate IsName(b: Octets) {
    || (|b| == 4 && b[0] == 0x4D && b[1] == 0x51 && b[2] == 0x54 && b[3] == 0x54)
    || (|b| == 6 && b[0] == 0x4D && b[1] == 0x51 && b[2] == 0x49 && b[3] == 0x73 && b[4] == 0x64 && b[5] == 0x70)
  }

  /** Only ASCII bytes decode to ASCII. */
  lemma {:induction false} AsciiOnly(b: Octets)
    ensures Ascii(Decode(b)) || Ascii(b) ==> Decode(b) == b
  {
    if b != [] && b[0] < 0x80 {
      var rest := Decode(b[1..]);
      assert Decode(b) == [b[0]] + rest && b == [b[0]] + b[1..];
      AsciiOnly(b[1..]);
      assert forall k | 0 <= k < |rest| :: ([b[0]] + rest)[k + 1] == rest[k];
      assert Ascii([b[0]] + rest) ==> Ascii(rest);
    } else if b != [] {
      assert Units(DecodeStep(b).0)[0] >= 0x80;
      assert Decode(b)[0] >= 0x80;
    }
  }

  lemma IsNameSays(b: Octets)
    ensures IsName(b) <==> b == MQTT || b == MQISDP
    ensures Ascii(MQTT) && Ascii(MQISDP)
  {
  }

  lemma NameVerdict(b: Octets)
    ensures Decode(b) == MQTT || Decode(b) == MQISDP <==> IsName(b)
  {
    var d := Decode(b);
    AsciiOnly(b);
    IsNameSays(b);
    assert d == MQTT || d == MQISDP ==> Ascii(d);
    assert b == MQTT || b == MQISDP ==> Ascii(b);
  }

  // ---------------------------------------------------------------- CONNECT

  /** Name, a version of 3 or 4, flags, keepalive and client id, one behind the other. */
  predicate HeadLies(flat: Octets, limit: nat, name: Octets, clientId: Octets) {
    && FieldIs(flat, limit, 0, name) && IsName(name)
    && |name| + 6 <= |flat| && (flat[|name| + 2] == 3 || flat[|name| + 2] == 4)
    && FieldIs(flat, limit, |name| + 6, clientId)
  }

  function Flags(flat: Octets, name: Octets): Byte
    requires |name| + 6 <= |flat|
  {
    flat[|name| + 3]
  }

  /** Where the optional parts begin. */
  function HeadEnd(name: Octets, clientId: Octets): nat {
    |name| + 8 + |clientId|
  }

  predicate WillLies(flat: Octets, limit: nat, pos: nat, flags: Byte, w: Option<Will<Octets>>) {
    if flags / 4 % 2 == 0 then w == None
    else
      && w.Some? && FieldIs(flat, limit, pos, w.value.topic) && FieldIs(flat, limit, pos + 2 + |w.value.topic|, w.value.payload)
      && w.value.qos == flags / 8 % 4 && w.value.retain == (flags / 32 % 2 == 1)
  }

  function WillEnd(pos: nat, w: Option<Will<Octets>>): nat {
    if w.None? then pos else pos + 4 + |w.value.topic| + |w.value.payload|
  }

  predicate OptionLies(flat: Octets, limit: nat, pos: nat, there: bool, b: Option<Octets>) {
    if there then b.Some? && FieldIs(flat, limit, pos, b.value) else b == None
  }

  function OptionEnd(pos: nat, b: Option<Octets>): nat {
    if b.None? then pos else pos + 2 + |b.value|
  }

  /** The bytes of a CONNECT with these fields: what the flags announce, and nothing else, stands behind the client id. */
  predicate ConnectLies(flat: Octets, limit: nat, f: Fields<Octets>) {
    && f.ConnectFields? && HeadLies(flat, limit, f.protocolId, f.clientId)
    && var name, flags := f.protocolId, Flags(flat, f.protocolId);
    && f.protocolVersion == flat[|name| + 2] && f.clean == (flags / 2 % 2 == 1)
    && f.keepalive == flat[|name| + 4] as int * 256 + flat[|name| + 5] as int
    && var p := HeadEnd(name, f.clientId);
    && WillLies(flat, limit, p, flags, f.will)
    && OptionLies(flat, limit, WillEnd(p, f.will), flags / 128 == 1, f.username)
    && OptionLies(flat, limit, OptionEnd(WillEnd(p, f.will), f.username), flags / 64 % 2 == 1, f.password)
  }

  predicate WrongVersion(flat: Octets, limit: nat, n: Octets) {
    FieldIs(flat, limit, 0, n) && IsName(n) && |n| + 2 < |flat| && flat[|n| + 2] != 3 && flat[|n| + 2] != 4
  }

  /** The buffer ends behind the name, or has no flags, keepalive or client id behind a right version. */
  ghost predicate EndsEarly(flat: Octets, limit: nat, n: Octets) {
    && FieldIs(flat, limit, 0, n) && IsName(n)
    && (|flat| == |n| + 2 || ((flat[|n| + 2] == 3 || flat[|n| + 2] == 4) && (|flat| < |n| + 6 || NoField(flat, limit, |n| + 6))))
  }

  ghost predicate NoWillTopic(flat: Octets, limit: nat, n: Octets, i: Octets) {
    HeadLies(flat, limit, n, i) && Flags(flat, n) / 4 % 2 == 1 && NoField(flat, limit, HeadEnd(n, i))
  }

  /** Where the payload of the will begins, behind its topic. */
  function TopicEnd(n: Octets, i: Octets, t: Octets): nat {
    HeadEnd(n, i) + 2 + |t|
  }

  ghost predicate NoWillPayload(flat: Octets, limit: nat, n: Octets, i: Octets, t: Octets) {
    && HeadLies(flat, limit, n, i) && Flags(flat, n) / 4 % 2 == 1
    && FieldIs(flat, limit, HeadEnd(n, i), t) && NoField(flat, limit, TopicEnd(n, i, t))
  }

  ghost predicate NoUsername(flat: Octets, limit: nat, n: Octets, i: Octets, w: Option<Will<Octets>>) {
    && HeadLies(flat, limit, n, i) && WillLies(flat, limit, HeadEnd(n, i), Flags(flat, n), w)
    && Flags(flat, n) / 128 == 1 && NoField(flat, limit, WillEnd(HeadEnd(n, i), w))
  }

  ghost predicate NoPassword(flat: Octets, limit: nat, n: Octets, i: Octets, w: Option<Will<Octets>>, u: Option<Octets>) {
    && HeadLies(flat, limit, n, i) && WillLies(flat, limit, HeadEnd(n, i), Flags(flat, n), w)
    && OptionLies(flat, limit, WillEnd(HeadEnd(n, i), w), Flags(flat, n) / 128 == 1, u)
    && Flags(flat, n) / 64 % 2 == 1 && NoField(flat, limit, OptionEnd(WillEnd(HeadEnd(n, i), w), u))
  }

  /** What is wrong with the bytes of a CONNECT, error by error. */
  ghost predicate ConnectFault(flat: Octets, limit: nat, e: Error) {
    match e
    case CannotParseProtocolId => NoField(flat, limit, 0)
    case InvalidProtocolId => exists n :: FieldIs(flat, limit, 0, n) && !IsName(n)
    case InvalidProtocolVersion => exists n :: WrongVersion(flat, limit, n)
    case PacketTooShort => exists n :: EndsEarly(flat, limit, n)
    case CannotParseWillTopic => exists n, i :: NoWillTopic(flat, limit, n, i)
    case CannotParseWillPayload => exists n, i, t :: NoWillPayload(flat, limit, n, i, t)
    case CannotParseUsername => exists n, i, w :: NoUsername(flat, limit, n, i, w)
    case CannotParsePassword => exists n, i, w, u :: NoPassword(flat, limit, n, i, w, u)
    case _ => false
  }

  /** The name, version and flags are read. */
  lemma NameRead(flat: Octets, limit: nat, n: Octets)
    requires FieldIs(flat, limit, 0, n) && (Decode(n) == MQTT || Decode(n) == MQISDP)
    requires |n| + 4 <= |flat| && (flat[|n| + 2] == 3 || flat[|n| + 2] == 4)
    ensures NameAt(flat, limit) == Part(Read(ConnectFields(n, flat[|n| + 2], flat[|n| + 3] / 2 % 2 == 1, 0, [], None, None, None)), |n| + 4)
  {
    FieldFound(flat, limit, 0, n);
  }

  /** The fields of a CONNECT with this name and client id, and these options. */
  function HeadFields(flat: Octets, n: Octets, i: Octets, w: Option<Will<Octets>>, u: Option<Octets>, b: Option<Octets>): (f: Fields<Octets>)
    requires |n| + 6 <= |flat|
    ensures f.ConnectFields?
  {
    ConnectFields(n, flat[|n| + 2], Flags(flat, n) / 2 % 2 == 1, flat[|n| + 4] as int * 256 + flat[|n| + 5] as int, i, w, u, b)
  }

  lemma ClientIdRead(flat: Octets, limit: nat, f: Fields<Octets>, pos: nat, i: Octets)
    requires f.ConnectFields? && pos + 2 <= |flat| && FieldIs(flat, limit, pos + 2, i)
    ensures ClientIdAt(flat, limit, f, pos)
         == Part(Read(f.(keepalive := flat[pos] as int * 256 + flat[pos + 1] as int, clientId := i)), pos + 4 + |i|)
  {
    FieldFound(flat, limit, pos + 2, i);
  }

  lemma ConnectGoesOn(flat: Octets, limit: nat, name: Part, client: Part)
    requires name == NameAt(flat, limit) && name.o.Read?
    requires client == ClientIdAt(flat, limit, name.o.f, name.pos) && client.o.Read?
    ensures ConnectAt(flat, limit) == OptionsAt(flat, limit, client.o.f, flat[name.pos - 1], client.pos)
  {
  }

  lemma HeadRead(flat: Octets, limit: nat, n: Octets, i: Octets)
    requires HeadLies(flat, limit, n, i)
    ensures HeadEnd(n, i) <= |flat|
    ensures ConnectAt(flat, limit) == OptionsAt(flat, limit, HeadFields(flat, n, i, None, None, None), Flags(flat, n), HeadEnd(n, i))
  {
    var f := ConnectFields(n, flat[|n| + 2], flat[|n| + 3] / 2 % 2 == 1, 0, [], None, None, None);
    NameVerdict(n);
    NameRead(flat, limit, n);
    ClientIdRead(flat, limit, f, |n| + 4, i);
    ConnectGoesOn(flat, limit, Part(Read(f), |n| + 4), Part(Read(HeadFields(flat, n, i, None, None, None)), HeadEnd(n, i)));
  }

  lemma WillRead(flat: Octets, limit: nat, f: Fields<Octets>, flags: Byte, pos: nat, w: Option<Will<Octets>>)
    requires f.ConnectFields? && f.will == None && pos <= |flat| && WillLies(flat, limit, pos, flags, w)
    ensures WillEnd(pos, w) <= |flat| && WillAt(flat, limit, f, flags, pos) == Part(Read(f.(will := w)), WillEnd(pos, w))
  {
    if flags / 4 % 2 != 0 {
      FieldFound(flat, limit, pos, w.value.topic);
      FieldFound(flat, limit, pos + 2 + |w.value.topic|, w.value.payload);
    }
  }

  lemma UsernameRead(flat: Octets, limit: nat, f: Fields<Octets>, flags: Byte, pos: nat, u: Option<Octets>)
    requires f.ConnectFields? && f.username == None && pos <= |flat| && OptionLies(flat, limit, pos, flags / 128 == 1, u)
    ensures OptionEnd(pos, u) <= |flat| && UsernameAt(flat, limit, f, flags, pos) == Part(Read(f.(username := u)), OptionEnd(pos, u))
  {
    if u.Some? { FieldFound(flat, limit, pos, u.value); }
  }

  lemma FieldsWith(flat: Octets, n: Octets, i: Octets, w: Option<Will<Octets>>, u: Option<Octets>)
    requires |n| + 6 <= |flat|
    ensures var f := HeadFields(flat, n, i, None, None, None); f.ConnectFields? && f.(will := w) == HeadFields(flat, n, i, w, None, None)
    ensures var f := HeadFields(flat, n, i, w, None, None); f.ConnectFields? && f.(username := u) == HeadFields(flat, n, i, w, u, None)
  {
  }

  lemma OptionsGoOn(flat: Octets, limit: nat, f: Fields<Octets>, flags: Byte, pos: nat, will: Part, user: Part)
    requires f.ConnectFields? && pos <= |flat| && will == WillAt(flat, limit, f, flags, pos) && will.o.Read?
    requires user == UsernameAt(flat, limit, will.o.f, flags, will.pos)
    ensures OptionsAt(flat, limit, f, flags, pos) == if user.o.Read? then PasswordAt(flat, limit, user.o.f, flags, user.pos) else user.o
  {
  }

  /** Up to the password. */
  lemma UpToPassword(flat: Octets, limit: nat, n: Octets, i: Octets, w: Option<Will<Octets>>, u: Option<Octets>)
    requires HeadLies(flat, limit, n, i) && WillLies(flat, limit, HeadEnd(n, i), Flags(flat, n), w)
    requires OptionLies(flat, limit, WillEnd(HeadEnd(n, i), w), Flags(flat, n) / 128 == 1, u)
    ensures OptionEnd(WillEnd(HeadEnd(n, i), w), u) <= |flat|
    ensures ConnectAt(flat, limit)
         == PasswordAt(flat, limit, HeadFields(flat, n, i, w, u, None), Flags(flat, n), OptionEnd(WillEnd(HeadEnd(n, i), w), u))
  {
    var f, g, flags, p := HeadFields(flat, n, i, None, None, None), HeadFields(flat, n, i, w, None, None), Flags(flat, n), HeadEnd(n, i);
    HeadRead(flat, limit, n, i);
    FieldsWith(flat, n, i, w, None);
    WillRead(flat, limit, f, flags, p, w);
    assert WillAt(flat, limit, f, flags, p) == Part(Read(g), WillEnd(p, w));
    UsernameRead(flat, limit, g, flags, WillEnd(p, w), u);
    FieldsWith(flat, n, i, w, u);
    OptionsGoOn(flat, limit, f, flags, p, Part(Read(g), WillEnd(p, w)), Part(Read(HeadFields(flat, n, i, w, u, None)), OptionEnd(WillEnd(p, w), u)));
  }

  lemma ConnectRead(flat: Octets, limit: nat, f: Fields<Octets>)
    requires ConnectLies(flat, limit, f)
    ensures ConnectAt(flat, limit) == Read(f)
  {
    var n, i, flags := f.protocolId, f.clientId, Flags(flat, f.protocolId);
    UpToPassword(flat, limit, n, i, f.will, f.username);
    if f.password.Some? { FieldFound(flat, limit, OptionEnd(WillEnd(HeadEnd(n, i), f.will), f.username), f.password.value); }
    assert f == HeadFields(flat, n, i, f.will, f.username, f.password);
  }

  lemma NoNameFaults(flat: Octets, limit: nat)
    requires NoField(flat, limit, 0)
    ensures ConnectAt(flat, limit) == Bad(CannotParseProtocolId)
  {
    FieldVerdict(flat, limit, 0);
  }

  lemma OtherNameFaults(flat: Octets, limit: nat, n: Octets)
    requires FieldIs(flat, limit, 0, n) && !IsName(n)
    ensures ConnectAt(flat, limit) == Bad(InvalidProtocolId)
  {
    FieldFound(flat, limit, 0, n);
    NameVerdict(n);
  }

  lemma VersionFaults(flat: Octets, limit: nat, n: Octets)
    requires FieldIs(flat, limit, 0, n) && IsName(n) && |n| + 2 < |flat| && flat[|n| + 2] != 3 && flat[|n| + 2] != 4
    ensures ConnectAt(flat, limit) == Bad(InvalidProtocolVersion)
  {
    FieldFound(flat, limit, 0, n);
    NameVerdict(n);
  }

  lemma EndFaults(flat: Octets, limit: nat, n: Octets)
    requires FieldIs(flat, limit, 0, n) && IsName(n) && (|flat| > |n| + 2 ==> flat[|n| + 2] == 3 || flat[|n| + 2] == 4)
    requires |flat| < |n| + 4
    ensures ConnectAt(flat, limit) == Bad(PacketTooShort)
  {
    FieldFound(flat, limit, 0, n);
    NameVerdict(n);
  }

  lemma ClientIdFaults(flat: Octets, limit: nat, n: Octets)
    requires FieldIs(flat, limit, 0, n) && IsName(n) && |n| + 4 <= |flat| && (flat[|n| + 2] == 3 || flat[|n| + 2] == 4)
    requires |flat| < |n| + 6 || NoField(flat, limit, |n| + 6)
    ensures ConnectAt(flat, limit) == Bad(PacketTooShort)
  {
    NameVerdict(n);
    NameRead(flat, limit, n);
    if |n| + 6 <= |flat| { FieldVerdict(flat, limit, |n| + 6); }
  }

  lemma EarlyFaults(flat: Octets, limit: nat, n: Octets)
    requires EndsEarly(flat, limit, n)
    ensures ConnectAt(flat, limit) == Bad(PacketTooShort)
  {
    if |flat| < |n| + 4 { EndFaults(flat, limit, n); } else { ClientIdFaults(flat, limit, n); }
  }

  lemma NoTopicRead(flat: Octets, limit: nat, f: Fields<Octets>, flags: Byte, pos: nat)
    requires f.ConnectFields? && pos <= |flat| && flags / 4 % 2 == 1 && NoField(flat, limit, pos)
    ensures OptionsAt(flat, limit, f, flags, pos) == Bad(CannotParseWillTopic)
  {
    FieldVerdict(flat, limit, pos);
  }

  lemma WillTopicFaults(flat: Octets, limit: nat)
    requires ConnectFault(flat, limit, CannotParseWillTopic)
    ensures ConnectAt(flat, limit) == Bad(CannotParseWillTopic)
  {
    var n, i :| NoWillTopic(flat, limit, n, i);
    HeadRead(flat, limit, n, i);
    NoTopicRead(flat, limit, HeadFields(flat, n, i, None, None, None), Flags(flat, n), HeadEnd(n, i));
  }

  lemma NoPayloadRead(flat: Octets, limit: nat, f: Fields<Octets>, flags: Byte, pos: nat, t: Octets, end: nat)
    requires f.ConnectFields? && pos <= |flat| && flags / 4 % 2 == 1
    requires FieldIs(flat, limit, pos, t) && end == pos + 2 + |t| && NoField(flat, limit, end)
    ensures OptionsAt(flat, limit, f, flags, pos) == Bad(CannotParseWillPayload)
  {
    FieldFound(flat, limit, pos, t);
    FieldVerdict(flat, limit, end);
  }

  lemma WillPayloadFaults(flat: Octets, limit: nat, n: Octets, i: Octets, t: Octets)
    requires NoWillPayload(flat, limit, n, i, t)
    ensures ConnectAt(flat, limit) == Bad(CannotParseWillPayload)
  {
    var f, flags, p := HeadFields(flat, n, i, None, None, None), Flags(flat, n), HeadEnd(n, i);
    HeadRead(flat, limit, n, i);
    NoPayloadRead(flat, limit, f, flags, p, t, TopicEnd(n, i, t));
  }

  lemma UsernameFaults(flat: Octets, limit: nat)
    requires ConnectFault(flat, limit, CannotParseUsername)
    ensures ConnectAt(flat, limit) == Bad(CannotParseUsername)
  {
    var n, i, w :| NoUsername(flat, limit, n, i, w);
    var f, g, flags, p := HeadFields(flat, n, i, None, None, None), HeadFields(flat, n, i, w, None, None), Flags(flat, n), HeadEnd(n, i);
    HeadRead(flat, limit, n, i);
    FieldsWith(flat, n, i, w, None);
    WillRead(flat, limit, f, flags, p, w);
    assert WillAt(flat, limit, f, flags, p) == Part(Read(g), WillEnd(p, w));
    FieldVerdict(flat, limit, WillEnd(p, w));
    OptionsGoOn(flat, limit, f, flags, p, Part(Read(g), WillEnd(p, w)), UsernameAt(flat, limit, g, flags, WillEnd(p, w)));
  }

  lemma PasswordFaults(flat: Octets, limit: nat)
    requires ConnectFault(flat, limit, CannotParsePassword)
    ensures ConnectAt(flat, limit) == Bad(CannotParsePassword)
  {
    var n, i, w, u :| NoPassword(flat, limit, n, i, w, u);
    UpToPassword(flat, limit, n, i, w, u);
    FieldVerdict(flat, limit, OptionEnd(WillEnd(HeadEnd(n, i), w), u));
  }

  /** Each fault gives its error. */
  lemma ConnectFaults(flat: Octets, limit: nat, e: Error)
    requires ConnectFault(flat, limit, e)
    ensures ConnectAt(flat, limit) == Bad(e)
  {
    match e
    case CannotParseProtocolId => NoNameFaults(flat, limit);
    case InvalidProtocolId =>
      var n :| FieldIs(flat, limit, 0, n) && !IsName(n);
      OtherNameFaults(flat, limit, n);
    case InvalidProtocolVersion =>
      var n :| WrongVersion(flat, limit, n);
      VersionFaults(flat, limit, n);
    case PacketTooShort =>
      var n :| EndsEarly(flat, limit, n);
      EarlyFaults(flat, limit, n);
    case CannotParseWillTopic => WillTopicFaults(flat, limit);
    case CannotParseWillPayload =>
      var n, i, t :| NoWillPayload(flat, limit, n, i, t);
      WillPayloadFaults(flat, limit, n, i, t);
    case CannotParseUsername => UsernameFaults(flat, limit);
    case CannotParsePassword => PasswordFaults(flat, limit);
  }

  /** Some fault, or fields. */
  ghost predicate HasVerdict(flat: Octets, limit: nat) {
    (exists f :: ConnectLies(flat, limit, f)) || exists e :: ConnectFault(flat, limit, e)
  }

  lemma VerdictFromPassword(flat: Octets, limit: nat, n: Octets, i: Octets, w: Option<Will<Octets>>, u: Option<Octets>)
    requires HeadLies(flat, limit, n, i) && WillLies(flat, limit, HeadEnd(n, i), Flags(flat, n), w)
    requires OptionLies(flat, limit, WillEnd(HeadEnd(n, i), w), Flags(flat, n) / 128 == 1, u)
    ensures HasVerdict(flat, limit)
  {
    var p := OptionEnd(WillEnd(HeadEnd(n, i), w), u);
    FieldOrNot(flat, limit, p);
    if Flags(flat, n) / 64 % 2 == 0 {
      assert ConnectLies(flat, limit, HeadFields(flat, n, i, w, u, None));
    } else if b :| FieldIs(flat, limit, p, b) {
      assert ConnectLies(flat, limit, HeadFields(flat, n, i, w, u, Some(b)));
    } else {
      assert NoPassword(flat, limit, n, i, w, u);
      assert ConnectFault(flat, limit, CannotParsePassword);
    }
  }

  lemma VerdictFromUsername(flat: Octets, limit: nat, n: Octets, i: Octets, w: Option<Will<Octets>>)
    requires HeadLies(flat, limit, n, i) && WillLies(flat, limit, HeadEnd(n, i), Flags(flat, n), w)
    ensures HasVerdict(flat, limit)
  {
    FieldOrNot(flat, limit, WillEnd(HeadEnd(n, i), w));
    if Flags(flat, n) / 128 == 0 {
      VerdictFromPassword(flat, limit, n, i, w, None);
    } else if b :| FieldIs(flat, limit, WillEnd(HeadEnd(n, i), w), b) {
      VerdictFromPassword(flat, limit, n, i, w, Some(b));
    } else {
      assert NoUsername(flat, limit, n, i, w);
      assert ConnectFault(flat, limit, CannotParseUsername);
    }
  }

  lemma VerdictFromTopic(flat: Octets, limit: nat, n: Octets, i: Octets, t: Octets)
    requires HeadLies(flat, limit, n, i) && Flags(flat, n) / 4 % 2 == 1 && FieldIs(flat, limit, HeadEnd(n, i), t)
    ensures HasVerdict(flat, limit)
  {
    var p, flags := TopicEnd(n, i, t), Flags(flat, n);
    FieldOrNot(flat, limit, p);
    if b :| FieldIs(flat, limit, p, b) {
      var w := Will(t, b, flags / 8 % 4, flags / 32 % 2 == 1);
      assert WillLies(flat, limit, HeadEnd(n, i), flags, Some(w));
      VerdictFromUsername(flat, limit, n, i, Some(w));
    } else {
      assert NoWillPayload(flat, limit, n, i, t);
      assert ConnectFault(flat, limit, CannotParseWillPayload);
    }
  }

  lemma VerdictFromWill(flat: Octets, limit: nat, n: Octets, i: Octets)
    requires HeadLies(flat, limit, n, i)
    ensures HasVerdict(flat, limit)
  {
    var p := HeadEnd(n, i);
    FieldOrNot(flat, limit, p);
    if Flags(flat, n) / 4 % 2 == 0 {
      VerdictFromUsername(flat, limit, n, i, None);
    } else if t :| FieldIs(flat, limit, p, t) {
      VerdictFromTopic(flat, limit, n, i, t);
    } else {
      assert NoWillTopic(flat, limit, n, i);
      assert ConnectFault(flat, limit, CannotParseWillTopic);
    }
  }

  lemma VerdictFromName(flat: Octets, limit: nat)
    ensures HasVerdict(flat, limit)
  {
    FieldOrNot(flat, limit, 0);
    if n :| FieldIs(flat, limit, 0, n) {
      if !IsName(n) {
        assert ConnectFault(flat, limit, InvalidProtocolId);
      } else if |n| + 2 < |flat| && flat[|n| + 2] != 3 && flat[|n| + 2] != 4 {
        assert WrongVersion(flat, limit, n);
        assert ConnectFault(flat, limit, InvalidProtocolVersion);
      } else if |flat| < |n| + 6 || NoField(flat, limit, |n| + 6) {
        assert EndsEarly(flat, limit, n);
        assert ConnectFault(flat, limit, PacketTooShort);
      } else {
        FieldOrNot(flat, limit, |n| + 6);
        var i :| FieldIs(flat, limit, |n| + 6, i);
        VerdictFromWill(flat, limit, n, i);
      }
    } else {
      assert ConnectFault(flat, limit, CannotParseProtocolId);
    }
  }

  /** A CONNECT is read exactly when its bytes are laid out as one, with exactly these fields, and each error has exactly its fault. */
  lemma ConnectVerdict(flat: Octets, limit: nat, f: Fields<Octets>, e: Error)
    ensures ConnectAt(flat, limit) == Read(f) <==> ConnectLies(flat, limit, f)
    ensures ConnectAt(flat, limit) == Bad(e) <==> ConnectFault(flat, limit, e)
    ensures ConnectAt(flat, limit) != Thrown
  {
    VerdictFromName(flat, limit);
    if g :| ConnectLies(flat, limit, g) {
      ConnectRead(flat, limit, g);
    } else {
      var d :| ConnectFault(flat, limit, d);
      ConnectFaults(flat, limit, d);
    }
    if ConnectLies(flat, limit, f) { ConnectRead(flat, limit, f); }
    if ConnectFault(flat, limit, e) { ConnectFaults(flat, limit, e); }
  }

  // ---------------------------------------------------------------- lists

  /** A packet's two-byte id, or -1 when not even two bytes are buffered. */
  function IdOf(flat: Octets): int {
    if |flat| < 2 then -1 else flat[0] as int * 256 + flat[1] as int
  }

  function IdEnd(flat: Octets): nat {
    if |flat| < 2 then 0 else 2
  }

  /** From pos to the end of the packet, one topic behind the other. */
  predicate TopicsLie(flat: Octets, limit: nat, pos: nat, ts: seq<Octets>)
    decreases |ts|
  {
    if ts == [] then pos >= limit
    else pos < limit && FieldIs(flat, limit, pos, ts[0]) && TopicsLie(flat, limit, pos + 2 + |ts[0]|, ts[1..])
  }

  /** The same with a QoS byte behind each topic; the last one may be the byte behind the packet. */
  predicate SubscriptionsLie(flat: Octets, limit: nat, pos: nat, subs: seq<Subscription<Octets>>)
    decreases |subs|
  {
    if subs == [] then pos >= limit
    else
      && pos < limit && FieldIs(flat, limit, pos, subs[0].topic)
      && var p := pos + 2 + |subs[0].topic|;
      p < |flat| && subs[0].qos == flat[p] && SubscriptionsLie(flat, limit, p + 1, subs[1..])
  }

  /** Behind these subscriptions the list goes on with topic t, and the buffer ends behind it. */
  predicate RunsOut(flat: Octets, limit: nat, pos: nat, subs: seq<Subscription<Octets>>, t: Octets)
    decreases |subs|
  {
    && pos < limit
    && if subs == [] then FieldIs(flat, limit, pos, t) && pos + 2 + |t| == |flat|
       else
         && FieldIs(flat, limit, pos, subs[0].topic)
         && var p := pos + 2 + |subs[0].topic|;
         p < |flat| && subs[0].qos == flat[p] && RunsOut(flat, limit, p + 1, subs[1..], t)
  }

  lemma {:induction false} TopicsRead(flat: Octets, limit: nat, pos: nat, id: int, done: seq<Octets>, ts: seq<Octets>)
    requires pos <= |flat| && TopicsLie(flat, limit, pos, ts)
    ensures TopicsAt(flat, limit, pos, id, done) == Read(UnsubscribeFields(Some(id), done + ts))
    decreases |ts|
  {
    if ts == [] {
      assert done + ts == done;
    } else {
      FieldFound(flat, limit, pos, ts[0]);
      TopicsRead(flat, limit, pos + 2 + |ts[0]|, id, done + [ts[0]], ts[1..]);
      assert done + [ts[0]] + ts[1..] == done + ts;
    }
  }

  lemma {:induction false} TopicsFoundAt(flat: Octets, limit: nat, pos: nat, id: int, done: seq<Octets>) returns (ts: seq<Octets>)
    requires pos <= |flat| && TopicsAt(flat, limit, pos, id, done).Read?
    ensures TopicsLie(flat, limit, pos, ts)
    decreases |flat| - pos
  {
    if pos >= limit {
      ts := [];
    } else {
      FieldVerdict(flat, limit, pos);
      var (t, p) := FieldAt(flat, limit, pos);
      var rest := TopicsFoundAt(flat, limit, p, id, done + [t.value]);
      ts := [t.value] + rest;
      assert ts[1..] == rest;
    }
  }

  lemma {:induction false} OtherwiseCannotParse(flat: Octets, limit: nat, pos: nat, id: int, done: seq<Octets>)
    requires pos <= |flat|
    ensures TopicsAt(flat, limit, pos, id, done).Read? || TopicsAt(flat, limit, pos, id, done) == Bad(CannotParseTopic)
    decreases |flat| - pos
  {
    if pos < limit {
      var (t, p) := FieldAt(flat, limit, pos);
      if t.Some? { OtherwiseCannotParse(flat, limit, p, id, done + [t.value]); }
    }
  }

  lemma UnsubscribeReads(flat: Octets, limit: nat, ts: seq<Octets>)
    requires TopicsLie(flat, limit, IdEnd(flat), ts)
    ensures UnsubscribeAt(flat, limit) == Read(UnsubscribeFields(Some(IdOf(flat)), ts))
  {
    TopicsRead(flat, limit, IdEnd(flat), IdOf(flat), [], ts);
    assert [] + ts == ts;
  }

  ghost predicate UnsubscribeCase(flat: Octets, limit: nat, o: Outcome) {
    || (exists ts :: TopicsLie(flat, limit, IdEnd(flat), ts) && o == Read(UnsubscribeFields(Some(IdOf(flat)), ts)))
    || o == Bad(CannotParseTopic)
  }

  /** An UNSUBSCRIBE is read exactly when topics fill the packet behind its id, and as these topics. */
  lemma UnsubscribeVerdict(flat: Octets, limit: nat)
    ensures UnsubscribeCase(flat, limit, UnsubscribeAt(flat, limit))
    ensures forall ts | TopicsLie(flat, limit, IdEnd(flat), ts) :: UnsubscribeAt(flat, limit) == Read(UnsubscribeFields(Some(IdOf(flat)), ts))
  {
    var o := UnsubscribeAt(flat, limit);
    OtherwiseCannotParse(flat, limit, IdEnd(flat), IdOf(flat), []);
    if o.Read? {
      var ts := TopicsFoundAt(flat, limit, IdEnd(flat), IdOf(flat), []);
      UnsubscribeReads(flat, limit, ts);
    }
    forall ts | TopicsLie(flat, limit, IdEnd(flat), ts) { UnsubscribeReads(flat, limit, ts); }
  }

  lemma {:induction false} SubscriptionsRead(flat: Octets, limit: nat, pos: nat, id: int, done: seq<Subscription<Octets>>, subs: seq<Subscription<Octets>>)
    requires pos <= |flat| && SubscriptionsLie(flat, limit, pos, subs)
    ensures SubscriptionsAt(flat, limit, pos, id, done) == Read(SubscribeFields(Some(id), done + subs))
    decreases |subs|
  {
    if subs == [] {
      assert done + subs == done;
    } else {
      FieldFound(flat, limit, pos, subs[0].topic);
      SubscriptionsRead(flat, limit, pos + 2 + |subs[0].topic| + 1, id, done + [subs[0]], subs[1..]);
      assert done + [subs[0]] + subs[1..] == done + subs;
    }
  }

  lemma {:induction false} SubscriptionsFoundAt(flat: Octets, limit: nat, pos: nat, id: int, done: seq<Subscription<Octets>>) returns (subs: seq<Subscription<Octets>>)
    requires pos <= |flat| && SubscriptionsAt(flat, limit, pos, id, done).Read?
    ensures SubscriptionsLie(flat, limit, pos, subs)
    decreases |flat| - pos
  {
    if pos >= limit {
      subs := [];
    } else {
      FieldVerdict(flat, limit, pos);
      var (t, p) := FieldAt(flat, limit, pos);
      var s := Subscription(t.value, flat[p] as int);
      var rest := SubscriptionsFoundAt(flat, limit, p + 1, id, done + [s]);
      subs := [s] + rest;
      assert subs[1..] == rest;
    }
  }

  lemma {:induction false} RunsOutThrows(flat: Octets, limit: nat, pos: nat, id: int, done: seq<Subscription<Octets>>, subs: seq<Subscription<Octets>>, t: Octets)
    requires pos <= |flat| && RunsOut(flat, limit, pos, subs, t)
    ensures SubscriptionsAt(flat, limit, pos, id, done) == Thrown
    decreases |subs|
  {
    if subs == [] {
      FieldFound(flat, limit, pos, t);
    } else {
      FieldFound(flat, limit, pos, subs[0].topic);
      RunsOutThrows(flat, limit, pos + 2 + |subs[0].topic| + 1, id, done + [subs[0]], subs[1..], t);
    }
  }

  lemma {:induction false} RunsOutAt(flat: Octets, limit: nat, pos: nat, id: int, done: seq<Subscription<Octets>>) returns (subs: seq<Subscription<Octets>>, t: Octets)
    requires pos <= |flat| && SubscriptionsAt(flat, limit, pos, id, done) == Thrown
    ensures RunsOut(flat, limit, pos, subs, t)
    decreases |flat| - pos
  {
    FieldVerdict(flat, limit, pos);
    var (b, p) := FieldAt(flat, limit, pos);
    if p == |flat| {
      subs, t := [], b.value;
    } else {
      var s := Subscription(b.value, flat[p] as int);
      var rest;
      rest, t := RunsOutAt(flat, limit, p + 1, id, done + [s]);
      subs := [s] + rest;
      assert subs[1..] == rest;
    }
  }

  lemma {:induction false} OtherwiseNoTopic(flat: Octets, limit: nat, pos: nat, id: int, done: seq<Subscription<Octets>>)
    requires pos <= |flat|
    ensures var o := SubscriptionsAt(flat, limit, pos, id, done); o.Read? || o == Thrown || o == Bad(CannotParseTopic)
    decreases |flat| - pos
  {
    if pos < limit {
      var (t, p) := FieldAt(flat, limit, pos);
      if t.Some? && p < |flat| { OtherwiseNoTopic(flat, limit, p + 1, id, done + [Subscription(t.value, flat[p])]); }
    }
  }

  lemma SubscribeReads(flat: Octets, limit: nat, subs: seq<Subscription<Octets>>)
    requires SubscriptionsLie(flat, limit, IdEnd(flat), subs)
    ensures SubscribeAt(flat, limit, 1) == Read(SubscribeFields(Some(IdOf(flat)), subs))
  {
    SubscriptionsRead(flat, limit, IdEnd(flat), IdOf(flat), [], subs);
    assert [] + subs == subs;
  }

  lemma SubscribeThrows(flat: Octets, limit: nat, subs: seq<Subscription<Octets>>, t: Octets)
    requires RunsOut(flat, limit, IdEnd(flat), subs, t)
    ensures SubscribeAt(flat, limit, 1) == Thrown
  {
    RunsOutThrows(flat, limit, IdEnd(flat), IdOf(flat), [], subs, t);
  }

  /** What a SUBSCRIBE's bytes can be. */
  ghost predicate SubscribeCase(flat: Octets, limit: nat, o: Outcome) {
    || (exists subs :: SubscriptionsLie(flat, limit, IdEnd(flat), subs) && o == Read(SubscribeFields(Some(IdOf(flat)), subs)))
    || (o == Thrown && exists subs, t :: RunsOut(flat, limit, IdEnd(flat), subs, t))
    || o == Bad(CannotParseTopic)
  }

  lemma SubscribeCases(flat: Octets, limit: nat)
    ensures SubscribeCase(flat, limit, SubscribeAt(flat, limit, 1))
  {
    var o := SubscribeAt(flat, limit, 1);
    OtherwiseNoTopic(flat, limit, IdEnd(flat), IdOf(flat), []);
    if o.Read? {
      var subs := SubscriptionsFoundAt(flat, limit, IdEnd(flat), IdOf(flat), []);
      SubscribeReads(flat, limit, subs);
    } else if o == Thrown {
      var subs, t := RunsOutAt(flat, limit, IdEnd(flat), IdOf(flat), []);
    }
  }

  /**
    A SUBSCRIBE must have QoS 1 in its header.  Then it is read exactly when topics, each with a QoS byte, fill it behind its
    id, it throws exactly when the buffer ends behind a topic, and otherwise a topic cannot be parsed.
  */
  lemma SubscribeVerdict(flat: Octets, limit: nat, qos: nat)
    ensures var o := SubscribeAt(flat, limit, qos);
            && (qos != 1 ==> o == Bad(WrongSubscribeHeader))
            && (qos == 1 ==> SubscribeCase(flat, limit, o))
            && (qos == 1 ==> forall subs | SubscriptionsLie(flat, limit, IdEnd(flat), subs) :: o == Read(SubscribeFields(Some(IdOf(flat)), subs)))
            && (qos == 1 ==> forall subs, t | RunsOut(flat, limit, IdEnd(flat), subs, t) :: o == Thrown)
  {
    if qos == 1 {
      SubscribeCases(flat, limit);
      forall subs | SubscriptionsLie(flat, limit, IdEnd(flat), subs) { SubscribeReads(flat, limit, subs); }
      forall subs, t | RunsOut(flat, limit, IdEnd(flat), subs, t) { SubscribeThrows(flat, limit, subs, t); }
    }
  }

  lemma {:induction false} GrantedRead(flat: Octets, limit: nat, pos: nat, id: int, done: seq<int>)
    requires pos <= limit <= |flat|
    ensures GrantedAt(flat, limit, pos, id, done) == Read(SubackFields(Some(id), done + flat[pos..limit]))
    decreases limit - pos
  {
    if pos == limit {
      assert done + flat[pos..limit] == done;
    } else {
      GrantedRead(flat, limit, pos + 1, id, done + [flat[pos]]);
      assert done + [flat[pos]] + flat[pos + 1..limit] == done + flat[pos..limit];
    }
  }

  // ---------------------------------------------------------------- every packet

  /** The bytes can be read as a packet of this command. */
  ghost predicate Readable(flat: Octets, cmd: Command, qos: nat, limit: nat) {
    match cmd
    case Reserved => false
    case Connect => exists f :: ConnectLies(flat, limit, f)
    case Publish => exists t :: FieldIs(flat, limit, 0, t)
    case Subscribe => qos == 1 && exists subs :: SubscriptionsLie(flat, limit, IdEnd(flat), subs)
    case Unsubscribe => exists ts :: TopicsLie(flat, limit, IdEnd(flat), ts)
    case _ => true
  }

  lemma PublishVerdict(bufs: seq<Octets>, limit: nat, qos: nat)
    ensures PublishAt(bufs, limit, qos).Read? <==> exists t :: FieldIs(Flat(bufs), limit, 0, t)
    ensures PublishAt(bufs, limit, qos).Read? || PublishAt(bufs, limit, qos) == Bad(CannotParseTopic)
  {
    FieldVerdict(Flat(bufs), limit, 0);
  }

  /** A packet that is buffered to its end is read exactly when its bytes can be, and nothing is read of a reserved command. */
  lemma ReadExactly(bufs: seq<Octets>, cmd: Command, qos: nat, limit: nat)
    requires limit <= |Flat(bufs)|
    ensures FieldsAt(bufs, cmd, qos, limit).Read? <==> Readable(Flat(bufs), cmd, qos, limit)
    ensures cmd == Reserved ==> FieldsAt(bufs, cmd, qos, limit) == Bad(NotSupported)
  {
    var flat := Flat(bufs);
    match cmd
    case Connect => ConnectReadable(flat, limit);
    case Publish => PublishVerdict(bufs, limit, qos);
    case Subscribe => SubscribeVerdict(flat, limit, qos);
    case Unsubscribe => UnsubscribeVerdict(flat, limit);
    case Suback => if IdEnd(flat) <= limit { GrantedRead(flat, limit, IdEnd(flat), IdOf(flat), []); }
    case _ =>
  }

  lemma ConnectReadable(flat: Octets, limit: nat)
    ensures ConnectAt(flat, limit).Read? <==> exists f :: ConnectLies(flat, limit, f)
  {
    if ConnectAt(flat, limit).Read? { ConnectVerdict(flat, limit, ConnectAt(flat, limit).f, NotSupported); }
    if f :| ConnectLies(flat, limit, f) { ConnectVerdict(flat, limit, f, NotSupported); }
  }

  /** What the fields of the short packets are, when they lie inside the packet. */
  lemma FieldsSay(bufs: seq<Octets>, cmd: Command, qos: nat, limit: nat)
    requires 2 <= limit <= |Flat(bufs)|
    ensures var flat := Flat(bufs);
            var o := FieldsAt(bufs, cmd, qos, limit);
            && (cmd == Connack ==> o == Read(ConnackFields(flat[0] % 2 == 1, flat[1])))
            && (IsConfirmation(cmd) ==> o == Read(IdFields(Some(flat[0] as int * 256 + flat[1] as int))))
            && (cmd == Suback ==> o == Read(SubackFields(Some(flat[0] as int * 256 + flat[1] as int), flat[2..limit])))
            && (cmd == Pingreq || cmd == Pingresp || cmd == Disconnect ==> o == Read(Nothing))
  {
    var flat := Flat(bufs);
    GrantedRead(flat, limit, 2, IdOf(flat), []);
    assert [] + flat[2..limit] == flat[2..limit];
  }

  /** Topic, id unless QoS 0, and the rest is the payload. */
  lemma PublishSays(bufs: seq<Octets>, qos: nat, limit: nat, t: Octets)
    requires limit <= |Flat(bufs)| && FieldIs(Flat(bufs), limit, 0, t) && (qos > 0 ==> |t| + 4 <= limit)
    ensures var flat, p := Flat(bufs), |t| + 2;
            FieldsAt(bufs, Publish, qos, limit)
            == if qos == 0 then Read(PublishFields(t, None, flat[p..limit]))
               else Read(PublishFields(t, Some(flat[p] as int * 256 + flat[p + 1] as int), flat[p + 2..limit]))
  {
    var flat, p := Flat(bufs), if qos == 0 then |t| + 2 else |t| + 4;
    FieldFound(flat, limit, 0, t);
    SliceIsFlatSlice(bufs, p, limit);
  }
}
