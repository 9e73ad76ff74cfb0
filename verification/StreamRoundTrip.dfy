/**
  Whole streams: packets cut into chunks anywhere, one byte at a time or many packets at once, come out of
  the parser one by one, each as soon as its last byte is there.
*/
module StreamRoundTrip {
  import opened Common
  import opened MqttPacket
  import opened BufferList
  import opened ParserSpec
  import opened CodecRoundTrip

  // ---------------------------------------------------------------- framing

  /** A packet on the wire: its first byte, what follows the Remaining Length, and what the parser emits. */
  datatype Frame = Frame(header: Byte, body: Octets, packet: Packet)

  function FrameBytes(fr: Frame): (b: Octets)
    ensures b != []
  {
    [fr.header] + (RemainingLength(|fr.body|) + fr.body)
  }

  predicate HeaderReads(z: Byte, p: Packet) {
    && CommandOf(z / 16) == p.cmd && (z % 2 == 1 <==> p.retain) && z / 2 % 4 == p.qos && (z / 8 % 2 == 1 <==> p.dup)
  }

  ghost predicate Yields(bufs: seq<Octets>, p: Packet) {
    var o := FieldsAt(bufs, p.cmd, p.qos, p.length);
    o.Read? && Text(o.f) == p.fields
  }

  /** Header and body read back as the packet, in whatever buffer they stand. */
  ghost predicate Sound(fr: Frame) {
    && |fr.body| == fr.packet.length < MAX_LENGTH && HeaderReads(fr.header, fr.packet)
    && forall bufs: seq<Octets> {:trigger Yields(bufs, fr.packet)} ::
         Cursor(Flat(bufs), |fr.body|, 0, fr.body) ==> Yields(bufs, fr.packet)
  }

  ghost predicate AllSound(frs: seq<Frame>) {
    frs == [] || (Sound(frs[0]) && AllSound(frs[1..]))
  }

  function Stream(frs: seq<Frame>): Octets {
    if frs == [] then [] else FrameBytes(frs[0]) + Stream(frs[1..])
  }

  function Emissions(frs: seq<Frame>): seq<Event> {
    if frs == [] then [] else [Got(frs[0].packet)] + Emissions(frs[1..])
  }

  // ---------------------------------------------------------------- the invariant between turns

  /** The packet object once the header is read, and once the length is. */
  function Headed(p: Packet): Packet {
    Packet(p.cmd, p.dup, p.qos, p.retain, -1, Nothing)
  }

  function Sized(p: Packet): Packet {
    Packet(p.cmd, p.dup, p.qos, p.retain, p.length, Nothing)
  }

  /**
    The parser is somewhere inside the first of the frames still to come: the buffer and the bytes in the
    future are what is left of it, and the other frames.
  */
  ghost predicate OnTrack(st: State, frs: seq<Frame>, future: Octets) {
    var left := Flat(st.bufs) + future;
    && st.error == None && st.phase < 4 && AllSound(frs)
    && (if st.phase == 0 then st.packet == BLANK && left == Stream(frs)
        else
          && frs != []
          && var fr := frs[0];
             if st.phase == 1 then st.packet == Headed(fr.packet) && left == RemainingLength(|fr.body|) + (fr.body + Stream(frs[1..]))
             else
               && left == fr.body + Stream(frs[1..])
               && if st.phase == 2 then st.packet == Sized(fr.packet) else st.packet == fr.packet && |fr.body| <= |Flat(st.bufs)|)
  }

  lemma Taken(bufs: seq<Octets>, n: nat, future: Octets, rest: Octets)
    requires n <= |Flat(bufs)| && n <= |Flat(bufs) + future| && (Flat(bufs) + future)[n..] == rest
    ensures Flat(Consumed(bufs, n)) + future == rest
  {
    FlatConsumed(bufs, n);
  }

  lemma HeaderKeeps(st: State, frs: seq<Frame>, future: Octets)
    requires OnTrack(st, frs, future) && st.phase == 0 && Flat(st.bufs) != []
    ensures Sane(st) && Turn(st).Go? && OnTrack(Turn(st).st, frs, future) && Turn(st).st.events == st.events
  {
    var fr := frs[0];
    var rest := RemainingLength(|fr.body|) + fr.body;
    Associate([fr.header], rest, Stream(frs[1..]));
    Associate(RemainingLength(|fr.body|), fr.body, Stream(frs[1..]));
    assert (Flat(st.bufs) + future)[0] == fr.header;
    Taken(st.bufs, 1, future, rest + Stream(frs[1..]));
  }

  /** Two ways to cut a sequence: one first part begins with the other. */
  lemma TwoCuts<T>(a: seq<T>, b: seq<T>, c: seq<T>, d: seq<T>)
    requires a + b == c + d
    ensures |c| <= |a| ==> a == c + a[|c|..]
    ensures |a| < |c| ==> a < c
  {
    var all := a + b;
    assert a == all[..|a|] && c == all[..|c|];
  }

  /** The length is read when all its bytes are there, and waited for otherwise. */
  lemma LengthReads(flat: Octets, future: Octets, n: nat, rest: Octets)
    requires flat != [] && n < MAX_LENGTH && flat + future == RemainingLength(n) + rest
    ensures var code := RemainingLength(n);
            ReadLength(flat, 0, 1, 0) == if |code| <= |flat| then Some((n, |code|)) else None
  {
    var code := RemainingLength(n);
    TwoCuts(flat, future, code, rest);
    if |code| <= |flat| {
      LengthLength(n);
      LengthReadBack(n, flat[|code|..]);
    } else {
      LengthIncomplete(n, flat);
    }
  }

  lemma LengthKeeps(st: State, frs: seq<Frame>, future: Octets)
    requires OnTrack(st, frs, future) && st.phase == 1 && Flat(st.bufs) != []
    ensures Sane(st)
    ensures var code := RemainingLength(|frs[0].body|);
            if |code| <= |Flat(st.bufs)| then Turn(st).Go? && OnTrack(Turn(st).st, frs, future) && Turn(st).st.events == st.events
            else Turn(st) == Rest(st)
  {
    var fr := frs[0];
    var code := RemainingLength(|fr.body|);
    LengthReads(Flat(st.bufs), future, |fr.body|, fr.body + Stream(frs[1..]));
    if |code| <= |Flat(st.bufs)| { Taken(st.bufs, |code|, future, fr.body + Stream(frs[1..])); }
  }

  lemma PayloadKeeps(st: State, frs: seq<Frame>, future: Octets)
    requires OnTrack(st, frs, future) && st.phase == 2
    ensures Sane(st)
    ensures if |frs[0].body| <= |Flat(st.bufs)| then Turn(st).Go? && OnTrack(Turn(st).st, frs, future) && Turn(st).st.events == st.events
            else Turn(st) == Rest(st)
  {
    var fr := frs[0];
    if |fr.body| <= |Flat(st.bufs)| {
      assert Flat(st.bufs)[0..|fr.body|] == (Flat(st.bufs) + future)[..|fr.body|] == fr.body;
      assert Yields(st.bufs, fr.packet);
    }
  }

  lemma PacketKeeps(st: State, frs: seq<Frame>, future: Octets)
    requires OnTrack(st, frs, future) && st.phase == 3
    ensures Sane(st) && Turn(st).Go? && OnTrack(Turn(st).st, frs[1..], future)
    ensures Turn(st).st.events == st.events + [Got(frs[0].packet)]
  {
    Taken(st.bufs, |frs[0].body|, future, Stream(frs[1..]));
  }

  // ---------------------------------------------------------------- the loop, and all chunks

  /** Nothing more can be done until bytes arrive: the next packet is not complete. */
  ghost predicate Waiting(frs: seq<Frame>, future: Octets) {
    |future| <= |Stream(frs)| && (frs != [] ==> |future| > |Stream(frs[1..])|)
  }

  lemma StuckWaits(st: State, frs: seq<Frame>, future: Octets)
    requires OnTrack(st, frs, future) && Sane(st) && Turn(st) == Rest(st)
    ensures Waiting(frs, future)
  {
    if st.phase == 0 {
      if Flat(st.bufs) != [] { HeaderKeeps(st, frs, future); }
    } else if st.phase == 1 {
      if Flat(st.bufs) != [] { LengthKeeps(st, frs, future); }
    } else if st.phase == 2 {
      PayloadKeeps(st, frs, future);
    } else {
      PacketKeeps(st, frs, future);
    }
  }

  /** One turn: it emits nothing and stays within the frame, or emits it and moves to the next. */
  lemma TurnKeeps(st: State, frs: seq<Frame>, future: Octets) returns (done: bool)
    requires OnTrack(st, frs, future)
    ensures Sane(st) && (Turn(st).Go? || Turn(st) == Rest(st))
    ensures !done ==> OnTrack(Turn(st).st, frs, future) && Turn(st).st.events == st.events
    ensures done ==> Turn(st).Go? && frs != [] && OnTrack(Turn(st).st, frs[1..], future)
    ensures done ==> Turn(st).st.events == st.events + [Got(frs[0].packet)]
  {
    done := st.phase == 3;
    if st.packet.length == -1 && Flat(st.bufs) == [] {
    } else if st.phase == 0 {
      HeaderKeeps(st, frs, future);
    } else if st.phase == 1 {
      LengthKeeps(st, frs, future);
    } else if st.phase == 2 {
      PayloadKeeps(st, frs, future);
    } else {
      PacketKeeps(st, frs, future);
    }
  }

  /** After the first n frames have been emitted behind `events`, the parser waits within the rest. */
  ghost predicate Reached(st: State, events: seq<Event>, frs: seq<Frame>, n: nat, future: Octets)
    requires n <= |frs|
    decreases n
  {
    if n == 0 then OnTrack(st, frs, future) && Waiting(frs, future) && st.events == events
    else Reached(st, events + [Got(frs[0].packet)], frs[1..], n - 1, future)
  }

  lemma {:induction false} ReachedMeans(st: State, events: seq<Event>, frs: seq<Frame>, n: nat, future: Octets)
    requires n <= |frs| && Reached(st, events, frs, n, future)
    ensures OnTrack(st, frs[n..], future) && Waiting(frs[n..], future) && st.events == events + Emissions(frs[..n])
    decreases n
  {
    if n == 0 {
      assert frs[0..] == frs && events + [] == events;
    } else {
      ReachedMeans(st, events + [Got(frs[0].packet)], frs[1..], n - 1, future);
      assert frs[1..][n - 1..] == frs[n..] && frs[..n][1..] == frs[1..][..n - 1];
    }
  }

  /** From `mid`, where n frames are done, m more are done at `st`. */
  lemma {:induction false} Onwards(st: State, mid: State, events: seq<Event>, frs: seq<Frame>, n: nat, m: nat, between: Octets, future: Octets)
    requires n + m <= |frs| && Reached(mid, events, frs, n, between)
    requires Reached(st, mid.events, frs[n..], m, future)
    ensures Reached(st, events, frs, n + m, future)
    decreases n
  {
    if n == 0 {
      assert frs[0..] == frs;
    } else {
      assert frs[1..][n - 1..] == frs[n..];
      Onwards(st, mid, events + [Got(frs[0].packet)], frs[1..], n - 1, m, between, future);
    }
  }

  /** The whole loop of parse. */
  lemma {:induction false} DrainKeeps(st: State, frs: seq<Frame>, future: Octets) returns (n: nat)
    requires OnTrack(st, frs, future)
    ensures Sane(st) && n <= |frs| && Drain(st).Rest? && Reached(Drain(st).st, st.events, frs, n, future)
    decreases Left(st)
  {
    var done := TurnKeeps(st, frs, future);
    var t := Turn(st);
    if t.Rest? {
      StuckWaits(st, frs, future);
      n := 0;
    } else if done {
      n := DrainKeeps(t.st, frs[1..], future);
      n := n + 1;
    } else {
      n := DrainKeeps(t.st, frs, future);
    }
  }

  /** One chunk. */
  lemma FedKeeps(st: State, frs: seq<Frame>, chunk: Octets, future: Octets) returns (n: nat)
    requires Sane(st) && OnTrack(st, frs, chunk + future)
    ensures n <= |frs| && Fed(st, chunk).Rest? && Reached(Fed(st, chunk).st, st.events, frs, n, future)
  {
    FlatConcat(st.bufs, [chunk]);
    FlatOne(chunk);
    Associate(Flat(st.bufs), chunk, future);
    n := DrainKeeps(st.(bufs := st.bufs + [chunk]), frs, future);
  }

  /**
    However the bytes so far are cut into chunks, exactly the packets they complete have been emitted:
    `future` is what is still missing, and it begins within the first packet that has not been.
  */
  lemma {:induction false} ChunksKeep(st: State, frs: seq<Frame>, chunks: seq<Octets>, future: Octets) returns (n: nat)
    requires Sane(st) && OnTrack(st, frs, Flat(chunks) + future) && Waiting(frs, Flat(chunks) + future)
    ensures n <= |frs| && Reached(FedAll(st, chunks), st.events, frs, n, future)
    decreases |chunks|
  {
    if chunks == [] {
      n := 0;
      assert [] + future == future;
    } else {
      var rest := Flat(chunks[1..]) + future;
      Associate(chunks[0], Flat(chunks[1..]), future);
      n := FedKeeps(st, frs, chunks[0], rest);
      var mid := Fed(st, chunks[0]).st;
      ReachedMeans(mid, st.events, frs, n, rest);
      var m := ChunksKeep(mid, frs[n..], chunks[1..], future);
      Onwards(FedAll(st, chunks), mid, st.events, frs, n, m, rest, future);
      n := n + m;
    }
  }

  // ---------------------------------------------------------------- packets

  ghost predicate AllValid(ps: seq<Packet>) {
    ps == [] || (Valid(ps[0]) && AllValid(ps[1..]))
  }

  function Encodings(ps: seq<Packet>): Octets
    requires AllValid(ps)
  {
    if ps == [] then [] else PacketBytes(ps[0]) + Encodings(ps[1..])
  }

  /** What the other side hears. */
  function Heard(ps: seq<Packet>): seq<Event>
    requires AllValid(ps)
  {
    if ps == [] then [] else [Got(Normal(ps[0]))] + Heard(ps[1..])
  }

  function FrameOf(p: Packet): Frame
    requires Valid(p)
  {
    var n := Normal(p);
    Frame(HeaderByte(n.cmd, n.dup, n.qos, n.retain), Body(Wire(n.fields)), n)
  }

  function Frames(ps: seq<Packet>): seq<Frame>
    requires AllValid(ps)
  {
    if ps == [] then [] else [FrameOf(ps[0])] + Frames(ps[1..])
  }

  lemma HeaderBits(c: nat, dup: bool, qos: nat, retain: bool, z: nat)
    requires qos < 4 && z == c * 16 + Bit(dup, 8) + qos * 2 + Bit(retain, 1)
    ensures z / 16 == c && (z / 8 % 2 == 1 <==> dup) && z / 2 % 4 == qos && (z % 2 == 1 <==> retain)
  {
    var h3: nat := 2 * c + Bit(dup, 1);
    var h1: nat := 4 * h3 + qos;
    LowBit(z, retain, h1);
    LowPair(qos, h3);
    LowBit(h3, dup, c);
    Eighths(z);
  }

  lemma Eighths(z: nat)
    ensures z / 8 == z / 2 / 4 && z / 16 == z / 8 / 2
  {
  }

  lemma FrameSound(p: Packet)
    requires Valid(p)
    ensures Sound(FrameOf(p)) && FrameBytes(FrameOf(p)) == PacketBytes(p)
  {
    var n, fr := Normal(p), FrameOf(p);
    HeaderBits(Code(n.cmd), n.dup, n.qos, n.retain, fr.header);
    forall bufs: seq<Octets> | Cursor(Flat(bufs), |fr.body|, 0, fr.body) ensures Yields(bufs, fr.packet) {
      PacketReadBack(bufs, p);
    }
  }

  lemma {:induction false} FramesSound(ps: seq<Packet>)
    requires AllValid(ps)
    ensures AllSound(Frames(ps)) && Stream(Frames(ps)) == Encodings(ps) && Emissions(Frames(ps)) == Heard(ps)
  {
    if ps != [] {
      FrameSound(ps[0]);
      FramesSound(ps[1..]);
    }
  }

  /** No error is pending, and nothing is buffered or half read. */
  ghost predicate Ready(st: State) {
    st.phase == 0 && st.packet == BLANK && st.error == None && Flat(st.bufs) == []
  }

  lemma {:induction false} SomeFrames(ps: seq<Packet>, n: nat)
    requires AllValid(ps) && n <= |ps|
    ensures |Frames(ps)| == |ps| && AllValid(ps[..n]) && Frames(ps)[..n] == Frames(ps[..n])
  {
    FramesCount(ps);
    if n > 0 {
      SomeFrames(ps[1..], n - 1);
      assert ps[..n][1..] == ps[1..][..n - 1] && ps[..n][0] == ps[0];
      assert Frames(ps)[..n] == [FrameOf(ps[0])] + Frames(ps[1..])[..n - 1];
    }
  }

  lemma {:induction false} OtherFrames(ps: seq<Packet>, n: nat)
    requires AllValid(ps) && n <= |ps|
    ensures |Frames(ps)| == |ps| && AllValid(ps[n..]) && Frames(ps)[n..] == Frames(ps[n..])
  {
    FramesCount(ps);
    if n == 0 {
      assert ps[0..] == ps;
    } else {
      OtherFrames(ps[1..], n - 1);
      assert ps[n..] == ps[1..][n - 1..];
      assert Frames(ps)[n..] == Frames(ps[1..])[n - 1..];
    }
  }

  lemma {:induction false} FramesCount(ps: seq<Packet>)
    requires AllValid(ps)
    ensures |Frames(ps)| == |ps|
  {
    if ps != [] { FramesCount(ps[1..]); }
  }

  /** The missing bytes begin within the first packet, or there is none and nothing is missing. */
  ghost predicate Incomplete(ps: seq<Packet>, missing: Octets)
    requires AllValid(ps)
  {
    |missing| <= |Encodings(ps)| && (ps != [] ==> |missing| > |Encodings(ps[1..])|)
  }

  lemma WaitingIsIncomplete(ps: seq<Packet>, missing: Octets)
    requires AllValid(ps) && Waiting(Frames(ps), missing)
    ensures Incomplete(ps, missing)
  {
    FramesSound(ps);
    if ps != [] { FramesSound(ps[1..]); }
  }

  lemma FirstHeard(ps: seq<Packet>, n: nat)
    requires AllValid(ps) && n <= |ps|
    ensures AllValid(ps[..n]) && n <= |Frames(ps)| && Emissions(Frames(ps)[..n]) == Heard(ps[..n])
  {
    SomeFrames(ps, n);
    FramesSound(ps[..n]);
  }

  /**
    However the bytes so far are cut into chunks, exactly the packets they complete have been emitted:
    `missing` is the rest of the stream, and it begins within the first packet that has not been.
  */
  lemma {:induction false} StreamPrefix(st: State, ps: seq<Packet>, chunks: seq<Octets>, missing: Octets) returns (n: nat)
    requires Ready(st) && AllValid(ps) && Flat(chunks) + missing == Encodings(ps)
    ensures n <= |ps| && AllValid(ps[..n]) && AllValid(ps[n..]) && Incomplete(ps[n..], missing)
    ensures FedAll(st, chunks).events == st.events + Heard(ps[..n]) && FedAll(st, chunks).error == None
  {
    FramesSound(ps);
    assert Flat(st.bufs) + (Flat(chunks) + missing) == Encodings(ps);
    n := ChunksKeep(st, Frames(ps), chunks, missing);
    ReachedMeans(FedAll(st, chunks), st.events, Frames(ps), n, missing);
    FramesCount(ps);
    FirstHeard(ps, n);
    OtherFrames(ps, n);
    WaitingIsIncomplete(ps[n..], missing);
  }

  /** Sound frames, in whatever chunks, are emitted one after the other, and nothing else. */
  lemma FrameStream(st: State, frs: seq<Frame>, chunks: seq<Octets>)
    requires Ready(st) && AllSound(frs) && Flat(chunks) == Stream(frs)
    ensures Sane(st) && Ready(FedAll(st, chunks))
    ensures FedAll(st, chunks).events == st.events + Emissions(frs)
  {
    assert Flat(st.bufs) + (Flat(chunks) + []) == Stream(frs);
    var n := ChunksKeep(st, frs, chunks, []);
    var r := FedAll(st, chunks);
    ReachedMeans(r, st.events, frs, n, []);
    assert n == |frs| && frs[..n] == frs && Stream(frs[n..]) == [];
    assert Flat(r.bufs) + [] == Flat(r.bufs);
  }

  /**
    The stream round trip.  Whatever chunks the encodings of valid packets come in, the parser emits exactly
    those packets, in order, and is ready for more.
  */
  lemma StreamRoundTrip(st: State, ps: seq<Packet>, chunks: seq<Octets>)
    requires Ready(st) && AllValid(ps) && Flat(chunks) == Encodings(ps)
    ensures Sane(st) && Ready(FedAll(st, chunks))
    ensures FedAll(st, chunks).events == st.events + Heard(ps)
  {
    FramesSound(ps);
    FrameStream(st, Frames(ps), chunks);
  }
}
