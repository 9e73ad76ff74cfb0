/**
  Cutting a stream right behind a packet.  For a packet of any contents, well-formed or not, the parser emits the same
  whether the bytes behind it come along or later, exactly when a test on the packet alone says so.  Lists of
  packets that pass it can be cut anywhere.
*/
module CutPoints {
  import opened Common
  import opened MqttPacket
  import opened BufferList
  import Utf8
  import opened ParserSpec
  import opened CodecRoundTrip
  import opened StreamRoundTrip
  import opened ChunkIndependence

  // ---------------------------------------------------------------- one packet

  /** A first byte, the length and that many bytes. */
  function HeadAndBody(z: Byte, body: Octets): (b: Octets) {
    [z] + (RemainingLength(|body|) + body)
  }

  /** Nothing, or one chunk: what is left of a single chunk. */
  function Chunk(b: Octets): seq<Octets> {
    if b == [] then [] else [b]
  }

  function PacketOf(z: Byte, body: Octets, f: Fields<Utf8.JsString>): Packet {
    Packet(CommandOf(z / 16), z / 8 % 2 == 1, z / 2 % 4, z % 2 == 1, |body|, f)
  }

  /** What is read for the packet when nothing else is buffered. */
  function OwnFields(z: Byte, body: Octets): Outcome {
    FieldsAt([body], CommandOf(z / 16), z / 2 % 4, |body|)
  }

  function Starting(bufs: seq<Octets>, evs: seq<Event>): State {
    Initial.(bufs := bufs, events := evs)
  }

  /** The parser in front of the payload. */
  function AtPayload(z: Byte, body: Octets, bufs: seq<Octets>, evs: seq<Event>): (st: State)
    ensures Sane(st)
  {
    State(2, PacketOf(z, body, Nothing), None, bufs, evs)
  }

  lemma FlatChunk(b: Octets)
    ensures Flat(Chunk(b)) == b
  {
    if b != [] { FlatOne(b); }
  }

  lemma OneConsumed(a: Octets, b: Octets)
    requires a != []
    ensures Consumed([a + b], |a|) == Chunk(b)
  {
    assert [a + b][1..] == [];
    if b != [] { assert (a + b)[|a|..] == b; }
  }

  /** Header and length of a packet are taken off the first chunk. */
  lemma ToPayload(z: Byte, body: Octets, rest: Octets, evs: seq<Event>)
    requires |body| < MAX_LENGTH
    ensures Drain(Starting([HeadAndBody(z, body) + rest], evs)) == Drain(AtPayload(z, body, Chunk(body + rest), evs))
  {
    var code, all := RemainingLength(|body|), HeadAndBody(z, body) + rest;
    var s0 := Starting([all], evs);
    FlatOne(all);
    assert all == [z] + (code + (body + rest));
    OneConsumed([z], code + (body + rest));
    var s1 := HeaderTurn(s0);
    assert Turn(s0) == Go(s1) && s1.bufs == [code + (body + rest)];
    LengthToPayload(z, body, rest, evs, s1);
  }

  lemma LengthToPayload(z: Byte, body: Octets, rest: Octets, evs: seq<Event>, s1: State)
    requires |body| < MAX_LENGTH
    requires s1 == State(1, PacketOf(z, body, Nothing).(length := -1), None, [RemainingLength(|body|) + (body + rest)], evs)
    ensures Sane(s1) && Drain(s1) == Drain(AtPayload(z, body, Chunk(body + rest), evs))
  {
    var code := RemainingLength(|body|);
    FlatOne(code + (body + rest));
    LengthReadBack(|body|, body + rest);
    LengthLength(|body|);
    OneConsumed(code, body + rest);
    assert Turn(s1) == Go(AtPayload(z, body, Chunk(body + rest), evs));
  }

  /** The payload is read and the packet emitted. */
  lemma PayloadRead(z: Byte, body: Octets, bufs: seq<Octets>, rest: Octets, evs: seq<Event>, f: Fields<Octets>)
    requires |body| <= |Flat(bufs)| && Consumed(bufs, |body|) == Chunk(rest)
    requires FieldsAt(bufs, CommandOf(z / 16), z / 2 % 4, |body|) == Read(f)
    ensures Drain(AtPayload(z, body, bufs, evs)) == Drain(Starting(Chunk(rest), evs + [Got(PacketOf(z, body, Text(f)))]))
  {
    var s2 := AtPayload(z, body, bufs, evs);
    var s3 := s2.(phase := 3, packet := PacketOf(z, body, Text(f)));
    assert Turn(s2) == Go(s3);
    assert Turn(s3) == Go(PacketTurn(s3));
    assert PacketTurn(s3) == Starting(Chunk(rest), evs + [Got(PacketOf(z, body, Text(f)))]);
  }

  lemma PayloadBad(z: Byte, body: Octets, bufs: seq<Octets>, evs: seq<Event>, e: Error)
    requires |body| <= |Flat(bufs)| && FieldsAt(bufs, CommandOf(z / 16), z / 2 % 4, |body|) == Bad(e)
    ensures Drain(AtPayload(z, body, bufs, evs)) == Rest(AtPayload(z, body, bufs, evs).(error := Some(e), events := evs + [Failed(e)]))
  {
  }

  lemma PayloadThrown(z: Byte, body: Octets, bufs: seq<Octets>, evs: seq<Event>)
    requires |body| <= |Flat(bufs)| && FieldsAt(bufs, CommandOf(z / 16), z / 2 % 4, |body|) == Thrown
    ensures Drain(AtPayload(z, body, bufs, evs)) == Threw(AtPayload(z, body, bufs, evs))
  {
  }

  /** Nothing buffered: the loop ends at once. */
  lemma NothingToDo(bufs: seq<Octets>, evs: seq<Event>)
    requires Flat(bufs) == []
    ensures Drain(Starting(bufs, evs)) == Rest(Starting(bufs, evs))
  {
  }

  lemma OneFed(evs: seq<Event>, a: Octets)
    ensures Fed(Starting([], evs), a) == Drain(Starting([a], evs))
    ensures FedAll(Starting([], evs), [a]) == Drain(Starting([a], evs)).st
  {
    var st, one: seq<Octets> := Starting([], evs), [a];
    assert [] + one == one && one[1..] == [];
    assert st.(bufs := st.bufs + [a]) == Starting([a], evs);
    assert FedAll(st, one) == FedAll(Fed(st, one[0]).st, one[1..]);
  }

  lemma TwoFed(evs: seq<Event>, a: Octets, b: Octets)
    ensures FedAll(Starting([], evs), [a, b]) == Fed(Drain(Starting([a], evs)).st, b).st
  {
    var st, two: seq<Octets> := Starting([], evs), [a, b];
    var mid := Fed(st, two[0]).st;
    OneFed(evs, a);
    assert two[1..] == [b] && [b][1..] == [];
    assert FedAll(st, two) == FedAll(mid, [b]) == FedAll(Fed(mid, b).st, []);
  }

  lemma {:induction false} EventsGrow(st: State)
    requires Sane(st)
    ensures st.events <= Drain(st).st.events
    decreases Left(st)
  {
    var t := Turn(st);
    if t.Go? { EventsGrow(t.st); }
  }

  lemma FedGrows(st: State, chunk: Octets)
    requires Sane(st)
    ensures st.events <= Fed(st, chunk).st.events
  {
    var s := if st.error.Some? then Reset(st) else st;
    EventsGrow(s.(bufs := s.bufs + [chunk]));
  }

  // ---------------------------------------------------------------- a cut behind the packet

  /** The bytes behind the packet come along with it, or later. */
  ghost predicate SameEvents(z: Byte, body: Octets, rest: Octets) {
    var b := HeadAndBody(z, body);
    FedAll(Initial, [b + rest]).events == FedAll(Initial, [b, rest]).events
  }

  /** Both sides, up to the payload. */
  lemma BothSides(z: Byte, body: Octets, rest: Octets)
    requires |body| < MAX_LENGTH
    ensures var b := HeadAndBody(z, body);
            && FedAll(Initial, [b + rest]) == Drain(AtPayload(z, body, Chunk(body + rest), [])).st
            && FedAll(Initial, [b, rest]) == Fed(Drain(AtPayload(z, body, Chunk(body), [])).st, rest).st
  {
    var b := HeadAndBody(z, body);
    OneFed([], b + rest);
    TwoFed([], b, rest);
    ToPayload(z, body, rest, []);
    ToPayload(z, body, [], []);
    assert b + [] == b && body + [] == body;
  }

  lemma OwnChunk(z: Byte, body: Octets)
    ensures FieldsAt(Chunk(body), CommandOf(z / 16), z / 2 % 4, |body|) == OwnFields(z, body)
  {
    FlatOne(body);
    if body == [] { assert FieldAt([], 0, 0).0 == None; }
  }

  lemma ConsumedChunk(body: Octets, rest: Octets)
    ensures Consumed(Chunk(body + rest), |body|) == Chunk(rest)
  {
    if body != [] { OneConsumed(body, rest); } else if rest != [] { assert [rest][0][0..] == rest && [] + rest == rest; }
  }

  /** A self-contained packet is emitted, and the rest finds the parser as it began. */
  lemma ReadIsCutFree(z: Byte, body: Octets, rest: Octets)
    requires |body| < MAX_LENGTH && OwnFields(z, body).Read? && SelfContained(CommandOf(z / 16), z / 2 % 4, body)
    ensures SameEvents(z, body, rest)
  {
    var f := OwnFields(z, body).f;
    var evs := [Got(PacketOf(z, body, Text(f)))];
    BothSides(z, body, rest);
    FlatChunk(body + rest);
    FlatChunk(body);
    SelfContainedAgrees(Chunk(body + rest), CommandOf(z / 16), z / 2 % 4, body);
    ConsumedChunk(body, rest);
    PayloadRead(z, body, Chunk(body + rest), rest, [], f);
    OwnChunk(z, body);
    ConsumedChunk(body, []);
    assert body + [] == body && [] + evs == evs;
    PayloadRead(z, body, Chunk(body), [], [], f);
    NothingToDo([], evs);
    OneFed(evs, rest);
    if rest == [] {
      FlatOne(rest);
      NothingToDo([rest], evs);
      NothingToDo([], evs);
    }
  }

  lemma {:induction false} GrantedNeverThrows(flat: Octets, limit: int, pos: nat, id: int, done: seq<int>)
    requires pos <= |flat| && limit <= |flat|
    ensures GrantedAt(flat, limit, pos, id, done) != Thrown
    decreases |flat| - pos
  {
    if pos < limit { GrantedNeverThrows(flat, limit, pos + 1, id, done + [flat[pos]]); }
  }

  lemma {:induction false} TopicsNeverThrow(flat: Octets, limit: int, pos: nat, id: int, done: seq<Octets>)
    requires pos <= |flat|
    ensures TopicsAt(flat, limit, pos, id, done) != Thrown
    decreases |flat| - pos
  {
    if pos < limit {
      var (topic, p) := FieldAt(flat, limit, pos);
      if topic.Some? { TopicsNeverThrow(flat, limit, p, id, done + [topic.value]); }
    }
  }

  /** Only a SUBSCRIBE that ends behind a topic throws. */
  lemma OnlySubscribeThrows(z: Byte, body: Octets)
    requires OwnFields(z, body) == Thrown
    ensures CommandOf(z / 16) == Subscribe && body != []
  {
    FlatOne(body);
    var (id, p) := NumAt(body, 0);
    GrantedNeverThrows(body, |body|, p, id, []);
    TopicsNeverThrow(body, |body|, p, id, []);
  }

  /** What the packet and a SUBSCRIBE's fields come to depends on the concatenation only. */
  lemma SubscribeOnFlat(a: seq<Octets>, b: seq<Octets>, qos: nat, limit: int)
    requires Flat(a) == Flat(b)
    ensures FieldsAt(a, Subscribe, qos, limit) == FieldsAt(b, Subscribe, qos, limit)
  {
  }

  /** The exception leaves the packet where it is: with more bytes it is read again. */
  lemma ThrownIsCutFree(z: Byte, body: Octets, rest: Octets)
    requires |body| < MAX_LENGTH && OwnFields(z, body) == Thrown
    ensures SameEvents(z, body, rest)
  {
    var bufs := Chunk(body) + [rest];
    BothSides(z, body, rest);
    OnlySubscribeThrows(z, body);
    OwnChunk(z, body);
    FlatChunk(body);
    PayloadThrown(z, body, Chunk(body), []);
    assert Fed(AtPayload(z, body, Chunk(body), []), rest) == Drain(AtPayload(z, body, bufs, []));
    FlatChunk(body + rest);
    FlatConcat(Chunk(body), [rest]);
    FlatOne(rest);
    SubscribeOnFlat(Chunk(body + rest), bufs, z / 2 % 4, |body|);
    SameFromThere(z, body, rest);
  }

  lemma SameFromThere(z: Byte, body: Octets, rest: Octets)
    requires body != [] && Flat(Chunk(body) + [rest]) == Flat(Chunk(body + rest)) == body + rest
    requires FieldsAt(Chunk(body + rest), CommandOf(z / 16), z / 2 % 4, |body|)
             == FieldsAt(Chunk(body) + [rest], CommandOf(z / 16), z / 2 % 4, |body|)
    ensures Drain(AtPayload(z, body, Chunk(body + rest), [])).st.events == Drain(AtPayload(z, body, Chunk(body) + [rest], [])).st.events
  {
    var one, two := Chunk(body + rest), Chunk(body) + [rest];
    match FieldsAt(one, CommandOf(z / 16), z / 2 % 4, |body|)
    case Read(f) =>
      ConsumedChunk(body, rest);
      assert two[1..] == [rest] && [rest][1..] == [];
      if rest != [] { assert rest[0..] == rest; }
      assert Consumed(two, |body|) == Chunk(rest);
      PayloadRead(z, body, one, rest, [], f);
      PayloadRead(z, body, two, rest, [], f);
    case Bad(e) =>
      PayloadBad(z, body, one, [], e);
      PayloadBad(z, body, two, [], e);
    case Thrown =>
      PayloadThrown(z, body, one, []);
      PayloadThrown(z, body, two, []);
  }

  const PING: Octets := [0xC0, 0x00]

  lemma PingParsed(evs: seq<Event>)
    ensures Drain(Starting([PING], evs)).st.events == evs + [Got(PacketOf(0xC0, [], Nothing))]
  {
    assert PING == HeadAndBody(0xC0, []) + [];
    ToPayload(0xC0, [], [], evs);
    PayloadRead(0xC0, [], [], [], evs, Nothing);
    NothingToDo([], evs + [Got(PacketOf(0xC0, [], Nothing))]);
  }

  /** What the events begin with when reading the payload comes to this. */
  predicate Leads(z: Byte, body: Octets, o: Outcome, events: seq<Event>) {
    if o.Read? then events != [] && events[0] == Got(PacketOf(z, body, Text(o.f)))
    else if o.Bad? then events == [Failed(o.error)]
    else events == []
  }

  lemma PayloadEvents(z: Byte, body: Octets, bufs: seq<Octets>, rest: Octets)
    requires |body| <= |Flat(bufs)| && Consumed(bufs, |body|) == Chunk(rest)
    ensures Leads(z, body, FieldsAt(bufs, CommandOf(z / 16), z / 2 % 4, |body|), Drain(AtPayload(z, body, bufs, [])).st.events)
  {
    match FieldsAt(bufs, CommandOf(z / 16), z / 2 % 4, |body|)
    case Read(f) =>
      PayloadRead(z, body, bufs, rest, [], f);
      EventsGrow(Starting(Chunk(rest), [] + [Got(PacketOf(z, body, Text(f)))]));
    case Bad(e) => PayloadBad(z, body, bufs, [], e);
    case Thrown => PayloadThrown(z, body, bufs, []);
  }

  /** All in one chunk: the same for what is read with `rest` behind the body. */
  lemma TogetherEvents(z: Byte, body: Octets, rest: Octets)
    requires |body| < MAX_LENGTH
    ensures Leads(z, body, FieldsAt(Chunk(body + rest), CommandOf(z / 16), z / 2 % 4, |body|),
                  FedAll(Initial, [HeadAndBody(z, body) + rest]).events)
  {
    BothSides(z, body, rest);
    FlatChunk(body + rest);
    ConsumedChunk(body, rest);
    PayloadEvents(z, body, Chunk(body + rest), rest);
  }

  /** The body first: an error is forgotten by the next chunk. */
  lemma ApartAfterError(z: Byte, body: Octets)
    requires |body| < MAX_LENGTH && OwnFields(z, body).Bad?
    ensures |FedAll(Initial, [HeadAndBody(z, body), PING]).events| == 2
    ensures FedAll(Initial, [HeadAndBody(z, body), PING]).events[0] == Failed(OwnFields(z, body).error)
  {
    var e := OwnFields(z, body).error;
    BothSides(z, body, PING);
    OwnChunk(z, body);
    FlatChunk(body);
    PayloadBad(z, body, Chunk(body), [], e);
    var mid := AtPayload(z, body, Chunk(body), []).(error := Some(e), events := [] + [Failed(e)]);
    AfterError(mid, e);
  }

  lemma AfterError(mid: State, e: Error)
    requires Sane(mid) && mid.error == Some(e) && mid.events == [Failed(e)]
    ensures Fed(mid, PING).st.events == [Failed(e)] + [Got(PacketOf(0xC0, [], Nothing))]
  {
    assert [] + [PING] == [PING];
    assert Fed(mid, PING) == Drain(Starting([PING], [Failed(e)]));
    PingParsed([Failed(e)]);
  }

  /** The body first: its packet is the first event whatever comes later. */
  lemma ApartAfterPacket(z: Byte, body: Octets, rest: Octets)
    requires |body| < MAX_LENGTH && OwnFields(z, body).Read?
    ensures var events := FedAll(Initial, [HeadAndBody(z, body), rest]).events;
            events != [] && events[0] == Got(PacketOf(z, body, Text(OwnFields(z, body).f)))
  {
    BothSides(z, body, rest);
    OwnChunk(z, body);
    FlatChunk(body);
    ConsumedChunk(body, []);
    assert body + [] == body;
    PayloadEvents(z, body, Chunk(body), []);
    FedGrows(Drain(AtPayload(z, body, Chunk(body), [])).st, rest);
  }

  /** An error drops what stands behind it in the same chunk, and nothing that comes later. */
  lemma ErrorsShowCuts(z: Byte, body: Octets)
    requires |body| < MAX_LENGTH && OwnFields(z, body).Bad?
    ensures !SameEvents(z, body, PING)
  {
    ApartAfterError(z, body);
    TogetherEvents(z, body, PING);
  }

  /** The two readings of a packet that is not self-contained differ in what is emitted, not only in bytes. */
  lemma ReadingsDiffer(cmd: Command, qos: nat, body: Octets, f: Fields<Octets>, g: Fields<Octets>)
    requires !SelfContained(cmd, qos, body)
    requires FieldsAt([body], cmd, qos, |body|) == Read(f) && FieldsAt([body + [0, 0]], cmd, qos, |body|) == Read(g)
    ensures Text(f) != Text(g)
  {
    var flat := body + [0, 0];
    FlatOne(body);
    FlatOne(flat);
    FieldSame(body, flat, 0);
    if |body| < 2 {
      NoRoomForId(body);
      IdFromBeyond(flat, |body|);
    }
  }

  /** A packet that is not self-contained takes fields from the bytes behind it when they are there. */
  lemma MissingFieldsShowCuts(z: Byte, body: Octets)
    requires |body| < MAX_LENGTH && OwnFields(z, body).Read? && !SelfContained(CommandOf(z / 16), z / 2 % 4, body)
    ensures !SameEvents(z, body, [0, 0])
  {
    ApartAfterPacket(z, body, [0, 0]);
    TogetherEvents(z, body, [0, 0]);
    var o := FieldsAt([body + [0, 0]], CommandOf(z / 16), z / 2 % 4, |body|);
    if o.Read? { ReadingsDiffer(CommandOf(z / 16), z / 2 % 4, body, OwnFields(z, body).f, o.f); }
  }

  /** The packet stands for itself: it is read without an error from nothing but its own bytes, or it throws. */
  predicate StandsAlone(z: Byte, body: Octets) {
    var own := OwnFields(z, body);
    own.Thrown? || (own.Read? && SelfContained(CommandOf(z / 16), z / 2 % 4, body))
  }

  /** Whatever follows, cutting behind a packet leaves the events as they are exactly when it stands for itself. */
  lemma CutFreeExactly(z: Byte, body: Octets)
    requires |body| < MAX_LENGTH
    ensures (forall rest: Octets :: SameEvents(z, body, rest)) <==> StandsAlone(z, body)
  {
    match OwnFields(z, body)
    case Bad(_) => ErrorsShowCuts(z, body);
    case Thrown => forall rest: Octets { ThrownIsCutFree(z, body, rest); }
    case Read(_) =>
      if SelfContained(CommandOf(z / 16), z / 2 % 4, body) {
        forall rest: Octets { ReadIsCutFree(z, body, rest); }
      } else {
        MissingFieldsShowCuts(z, body);
      }
  }

  /** For one: a CONNACK without a body takes its fields from the two bytes behind it, or has none. */
  lemma MalformedDependsOnChunks(rest: Octets)
    requires |rest| >= 2
    ensures FedAll(Initial, [[0x20, 0x00] + rest]).events != FedAll(Initial, [[0x20, 0x00], rest]).events
  {
    assert [0x20, 0x00] == HeadAndBody(0x20, []) && [] + rest == rest;
    FlatChunk(rest);
    assert OwnFields(0x20, []) == Read(Nothing);
    TogetherEvents(0x20, [], rest);
    ApartAfterPacket(0x20, [], rest);
  }

  // ---------------------------------------------------------------- streams

  /** A packet of any contents. */
  datatype Raw = Raw(z: Byte, body: Octets)

  /** Short enough for the format, read without an error, and self-contained. */
  predicate Clean(r: Raw) {
    |r.body| < MAX_LENGTH && OwnFields(r.z, r.body).Read? && SelfContained(CommandOf(r.z / 16), r.z / 2 % 4, r.body)
  }

  predicate AllClean(rs: seq<Raw>) {
    rs == [] || (Clean(rs[0]) && AllClean(rs[1..]))
  }

  function RawStream(rs: seq<Raw>): Octets {
    if rs == [] then [] else HeadAndBody(rs[0].z, rs[0].body) + RawStream(rs[1..])
  }

  function FrameFor(r: Raw): Frame
    requires Clean(r)
  {
    Frame(r.z, r.body, PacketOf(r.z, r.body, Text(OwnFields(r.z, r.body).f)))
  }

  function FramesFor(rs: seq<Raw>): seq<Frame>
    requires AllClean(rs)
  {
    if rs == [] then [] else [FrameFor(rs[0])] + FramesFor(rs[1..])
  }

  lemma CleanIsSound(r: Raw)
    requires Clean(r)
    ensures Sound(FrameFor(r)) && FrameBytes(FrameFor(r)) == HeadAndBody(r.z, r.body)
  {
    var fr := FrameFor(r);
    forall bufs: seq<Octets> | Cursor(Flat(bufs), |fr.body|, 0, fr.body) ensures Yields(bufs, fr.packet) {
      assert Flat(bufs)[0..|fr.body|] == fr.body;
      SelfContainedAgrees(bufs, fr.packet.cmd, fr.packet.qos, fr.body);
    }
  }

  lemma {:induction false} CleanAreSound(rs: seq<Raw>)
    requires AllClean(rs)
    ensures AllSound(FramesFor(rs)) && Stream(FramesFor(rs)) == RawStream(rs)
  {
    if rs != [] {
      CleanIsSound(rs[0]);
      CleanAreSound(rs[1..]);
    }
  }

  /**
    Packets of any contents that are read without an error from their own bytes: however the stream is cut, each is
    emitted once, in order, with what its own bytes say.
  */
  lemma CleanStream(st: State, rs: seq<Raw>, chunks: seq<Octets>)
    requires Ready(st) && AllClean(rs) && Flat(chunks) == RawStream(rs)
    ensures Sane(st) && Ready(FedAll(st, chunks)) && FedAll(st, chunks).events == st.events + Emissions(FramesFor(rs))
  {
    CleanAreSound(rs);
    FrameStream(st, FramesFor(rs), chunks);
  }

  /** So two ways to cut such a stream cannot be told apart. */
  lemma CutsAgree(st: State, rs: seq<Raw>, a: seq<Octets>, b: seq<Octets>)
    requires Ready(st) && AllClean(rs) && Flat(a) == RawStream(rs) == Flat(b)
    ensures Sane(st) && FedAll(st, a).events == FedAll(st, b).events
  {
    CleanStream(st, rs, a);
    CleanStream(st, rs, b);
  }
}
