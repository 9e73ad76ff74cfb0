/**
  writeToStream and generate of www/libs/mqtt.js: the writer with its length cache, and the accumulator it
  writes into.  The methods are proved to write what WriterSpec says.
*/
module Writer {
  import opened Common
  import opened MqttPacket
  import opened Utf8
  import opened WriterSpec
  import BL = BufferList

  lemma {:induction false} OverlayFits(dst: Octets, at: nat, data: Octets)
    requires at + |data| <= |dst|
    ensures var r := BL.Overlay(dst, at, data); r[..at + |data|] == dst[..at] + data
  {
    if data != [] {
      var n := |data| - 1;
      OverlayFits(dst, at, data[..n]);
      var r := BL.Overlay(dst, at, data[..n]);
      assert r[at + n := data[n]][..at + n + 1] == r[..at + n] + [data[n]];
    }
  }

  lemma Regroup<T>(s: seq<T>, a: seq<T>, b: seq<T>, c: seq<T>, d: seq<T>, e: seq<T>, f: seq<T>, g: seq<T>, h: seq<T>)
    ensures s + a + b + c + d + e + f + g + h == s + (a + (b + (c + (d + (e + (f + (g + h)))))))
  {
    Associate(f, g, h);
    Associate(e, f + g, h);
    Associate(d, e + (f + g), h);
    RegroupFour(s + a + b + c, d, e, f, g);
    RegroupFour(s, a, b, c, d + (e + (f + (g + h))));
    Associate(s + a + b + c, d + (e + (f + g)), h);
  }

  lemma RegroupFour<T>(s: seq<T>, a: seq<T>, b: seq<T>, c: seq<T>, d: seq<T>)
    ensures s + a + b + c + d == s + (a + (b + (c + d)))
  {
    Associate(b, c, d);
    Associate(a, b + c, d);
    Associate(a, b, c);
    Associate(s, a + (b + c), d);
    Associate(s, a, b + c);
    Associate(s + a, b, c);
  }

  /** The next digit of the code, and what is left of it. */
  lemma CodeStep(rest: nat)
    ensures var code, digit := RemainingLength(rest), rest % 128;
            if rest / 128 > 0 then code == [digit + 128] + RemainingLength(rest / 128) else code == [digit]
  {
  }

  class Accumulator {
    var chunks: seq<Chunk>
    var errors: seq<WriteError>

    constructor ()
      ensures chunks == [] && errors == []
    {
      chunks, errors := [], [];
    }

    method Write(chunk: Chunk) returns (ok: bool)
      modifies this`chunks
      ensures ok && chunks == old(chunks) + [chunk]
    {
      chunks := chunks + [chunk];
      ok := true;
    }

    method EmitError(e: WriteError)
      modifies this`errors
      ensures errors == old(errors) + [e]
    {
      errors := errors + [e];
    }

    /** The lengths of the chunks up to the first falsy one, and their sum. */
    method Measure() returns (lengths: seq<nat>, length: nat)
      ensures length == |Joined(chunks)| && |lengths| <= |chunks|
      ensures forall k | 0 <= k < |lengths| :: Truthy(chunks[k]) && lengths[k] == |ChunkBytes(chunks[k])|
      ensures |lengths| < |chunks| ==> !Truthy(chunks[|lengths|])
    {
      lengths, length := [], 0;
      var i := 0;
      assert chunks[0..] == chunks;
      while i < |chunks| && Truthy(chunks[i])
        invariant 0 <= i <= |chunks| && i == |lengths|
        invariant length + |Joined(chunks[i..])| == |Joined(chunks)|
        invariant forall k | 0 <= k < i :: Truthy(chunks[k]) && lengths[k] == |ChunkBytes(chunks[k])|
      {
        assert chunks[i..][1..] == chunks[i + 1..];
        var l: nat;
        if chunks[i].Str? {
          var bytes := Utf8ToBytes(chunks[i].s, None);
          l := |bytes|;
        } else {
          l := |chunks[i].b|;
        }
        lengths := lengths + [l];
        length := length + l;
        i := i + 1;
      }
    }

    /** copy or write of one chunk at pos, where it fits. */
    method Place(c: Chunk, result: array<Byte>, pos: nat)
      requires Truthy(c) && pos + |ChunkBytes(c)| <= result.Length
      modifies result
      ensures result[..pos + |ChunkBytes(c)|] == old(result[..pos]) + ChunkBytes(c)
    {
      OverlayFits(result[..], pos, ChunkBytes(c));
      assert result[..][..pos] == result[..pos];
      var bytes: Octets;
      if c.Str? {
        bytes := Utf8ToBytes(c.s, Some(result.Length - pos));
        EncodedLength(c.s, None);
      } else {
        bytes := c.b;
      }
      var n := BL.CopyChunk(bytes, result, pos);
      assert result[..][..pos + |ChunkBytes(c)|] == result[..pos + |ChunkBytes(c)|];
    }

    method Concat() returns (r: Octets)
      ensures r == Joined(chunks)
    {
      var lengths, length := Measure();
      var result := new Byte[length];
      var pos: nat, i := 0, 0;
      ghost var goal := Joined(chunks);
      assert chunks[0..] == chunks && result[..0] == [] && [] + goal == goal;
      while i < |chunks| && Truthy(chunks[i])
        invariant 0 <= i <= |lengths| && pos <= length && pos + |Joined(chunks[i..])| == length
        invariant result[..pos] + Joined(chunks[i..]) == goal
      {
        assert chunks[i..][1..] == chunks[i + 1..];
        var c, rest := ChunkBytes(chunks[i]), Joined(chunks[i + 1..]);
        Associate(result[..pos], c, rest);
        Place(chunks[i], result, pos);
        pos := pos + lengths[i];
        i := i + 1;
      }
      assert Joined(chunks[i..]) == [] && result[..pos] == result[..];
      r := result[..];
    }
  }

  class Writer {
    var lengthCache: map<nat, Octets>

    ghost predicate Valid()
      reads this
    {
      forall k | k in lengthCache :: k < 16384 && lengthCache[k] == LengthBuffer(k)
    }

    constructor ()
      ensures Valid() && lengthCache == map[]
    {
      lengthCache := map[];
    }

    /** The do-while loop; bytes that do not fit the buffer are dropped. */
    method GenBufLength(length: nat) returns (buffer: Octets)
      ensures buffer == LengthBuffer(length)
      ensures |buffer| == CalcLengthLength(length)
    {
      LengthLength(length);
      var b := new Byte[CalcLengthLength(length)];
      var rest: nat, pos: nat := length, 0;
      var more := true;
      ghost var code, tail := RemainingLength(length), RemainingLength(length);
      assert b[..0] == [] && [] + tail == code;
      while more
        invariant pos + |tail| == |code| && tail == (if more then RemainingLength(rest) else [])
        invariant b.Length == |code| ==> b[..pos] + tail == code
        decreases |code| - pos
      {
        CodeStep(rest);
        var digit: Byte := rest % 128;
        rest := rest / 128;
        if rest > 0 { digit := digit + 128; }
        ghost var before := if pos <= b.Length then b[..pos] else [];
        if pos < b.Length { b[pos] := digit; }
        pos := pos + 1;
        more := rest > 0;
        tail := if more then RemainingLength(rest) else [];
        if b.Length == |code| {
          assert b[..pos] == before + [digit];
          Associate(before, [digit], tail);
        }
      }
      buffer := b[..];
      if length < MAX_LENGTH { assert b[..pos] + [] == b[..]; }
    }

    method WriteLength(stream: Accumulator, length: nat)
      requires Valid()
      modifies this, stream`chunks
      ensures Valid() && stream.chunks == old(stream.chunks) + [Buf(LengthBuffer(length))]
    {
      var buffer: Octets;
      if length in lengthCache {
        buffer := lengthCache[length];
      } else {
        buffer := GenBufLength(length);
        if length < 16384 { lengthCache := lengthCache[length := buffer]; }
      }
      var _ := stream.Write(Buf(buffer));
    }

    method WriteNumber(stream: Accumulator, n: int)
      modifies stream`chunks
      ensures stream.chunks == old(stream.chunks) + [NumCache(n)]
    {
      var _ := stream.Write(NumCache(n));
    }

    method WriteString(stream: Accumulator, s: JsString)
      modifies stream`chunks
      ensures stream.chunks == old(stream.chunks) + StringChunks(s)
    {
      var bytes := Utf8ToBytes(s, None);
      WriteNumber(stream, |bytes|);
      var _ := stream.Write(Str(s));
    }

    method WriteStringOrNothing(stream: Accumulator, s: JsString)
      modifies stream`chunks
      ensures stream.chunks == old(stream.chunks) + StringOrNothing(s)
    {
      if s != [] { WriteString(stream, s); } else { WriteNumber(stream, 0); }
    }

    method WriteBuffer(stream: Accumulator, b: Octets)
      modifies stream`chunks
      ensures stream.chunks == old(stream.chunks) + BufferChunks(b)
    {
      WriteNumber(stream, |b|);
      var _ := stream.Write(Buf(b));
    }

    method WriteByte(stream: Accumulator, b: Byte)
      modifies stream`chunks
      ensures stream.chunks == old(stream.chunks) + [Buf([b])]
    {
      var _ := stream.Write(Buf([b]));
    }

    /** Header byte and length. */
    method WriteHead(stream: Accumulator, header: Byte, length: nat)
      requires Valid()
      modifies this, stream`chunks
      ensures Valid() && stream.chunks == old(stream.chunks) + [Buf([header])] + [Buf(LengthBuffer(length))]
    {
      WriteByte(stream, header);
      WriteLength(stream, length);
    }

    // -------------------------------------------------------------- CONNECT

    /** The checks, in order, and the length added up along the way. */
    method CheckConnect(f: Fields<JsString>) returns (refusal: Option<WriteError>, length: nat)
      requires f.ConnectFields?
      ensures refusal == ConnectRefusal(f)
      ensures refusal.None? ==> length == ConnectLength(f)
    {
      length := |f.protocolId| + 2;
      if f.protocolVersion != 3 && f.protocolVersion != 4 { return Some(InvalidProtocolVersion), length; }
      length := length + 1;
      if (f.clientId != [] || f.protocolVersion == 4) && (f.clientId != [] || f.clean) {
        length := length + |f.clientId| + 2;
      } else {
        if f.protocolVersion < 4 { return Some(ClientIdRequiredBefore311), length; }
        if !f.clean { return Some(ClientIdRequiredUnlessClean), length; }
      }
      if f.keepalive < 0 || f.keepalive > 65535 { return Some(InvalidKeepalive), length; }
      length := length + 2 + 1;
      if f.will.Some? {
        if f.will.value.topic == [] { return Some(InvalidWillTopic), length; }
        var topic := Utf8ToBytes(f.will.value.topic, None);
        length := length + |topic| + 2 + |f.will.value.payload| + 2;
      }
      if f.username.Some? {
        var username := Utf8ToBytes(f.username.value, None);
        length := length + |username| + 2;
      }
      if f.password.Some? {
        if f.password.value == [] { return Some(InvalidPassword), length; }
        length := length + |f.password.value| + 2;
      }
      refusal := None;
    }

    /** The optional parts. */
    method WriteOptions(stream: Accumulator, f: Fields<JsString>)
      requires f.ConnectFields?
      modifies stream`chunks
      ensures stream.chunks == old(stream.chunks) + (WillChunks(f.will) + (UsernameChunks(f.username) + PasswordChunks(f.password)))
    {
      if f.will.Some? {
        WriteString(stream, f.will.value.topic);
        WriteBuffer(stream, f.will.value.payload);
      }
      if f.username.Some? { WriteStringOrNothing(stream, f.username.value); }
      if f.password.Some? { WriteBuffer(stream, f.password.value); }
    }

    method WriteConnect(stream: Accumulator, p: Packet) returns (ok: Option<bool>)
      requires Valid() && p.fields.ConnectFields? && Shaped(p.cmd, p.fields)
      modifies this, stream
      ensures Valid() && Did(Attempted(p), ok, old(stream.chunks), stream.chunks, old(stream.errors), stream.errors)
    {
      var f := Normalized(p);
      var refusal, length := CheckConnect(f);
      if refusal.Some? {
        stream.EmitError(refusal.value);
        return Some(false);
      }
      WriteAccepted(stream, f, length);
      ok := Some(true);
    }

    /** What is written once every check has passed. */
    method WriteAccepted(stream: Accumulator, f: Fields<JsString>, length: nat)
      requires Valid() && f.ConnectFields? && length == ConnectLength(f)
      modifies this, stream`chunks
      ensures Valid() && stream.chunks == old(stream.chunks) + ConnectChunks(f)
    {
      ghost var options := WillChunks(f.will) + (UsernameChunks(f.username) + PasswordChunks(f.password));
      ghost var version := [Buf([if f.protocolVersion == 4 then 4 else 3])];
      Regroup(stream.chunks, [Buf([0x10])], [Buf(LengthBuffer(length))], StringOrNothing(f.protocolId), version,
              [Buf([OredFlags(f)])], [NumCache(f.keepalive)], StringOrNothing(f.clientId), options);
      WriteHead(stream, 0x10, length);
      WriteStringOrNothing(stream, f.protocolId);
      WriteByte(stream, if f.protocolVersion == 4 then 4 else 3);
      WriteByte(stream, OredFlags(f));
      WriteNumber(stream, f.keepalive);
      WriteStringOrNothing(stream, f.clientId);
      WriteOptions(stream, f);
    }

    // -------------------------------------------------------------- the other packets

    method WriteConnack(stream: Accumulator, p: Packet) returns (ok: Option<bool>)
      requires Valid() && p.fields.ConnackFields? && Shaped(p.cmd, p.fields)
      modifies this, stream
      ensures Valid() && Did(Attempted(p), ok, old(stream.chunks), stream.chunks, old(stream.errors), stream.errors)
    {
      WriteHead(stream, 0x20, 2);
      WriteByte(stream, Bit(p.fields.sessionPresent, 1));
      WriteByte(stream, Octet(p.fields.returnCode));
      ok := Some(true);
    }

    method WritePublish(stream: Accumulator, p: Packet) returns (ok: Option<bool>)
      requires Valid() && p.fields.PublishFields? && Shaped(p.cmd, p.fields)
      modifies this, stream
      ensures Valid() && Did(Attempted(p), ok, old(stream.chunks), stream.chunks, old(stream.errors), stream.errors)
    {
      var topic := Utf8ToBytes(p.fields.topic, None);
      var length := |topic| + 2 + |p.fields.payload|;
      if p.qos > 0 {
        if p.fields.messageId.None? {
          stream.EmitError(InvalidMessageId);
          return Some(false);
        }
        length := length + 2;
      }
      if p.qos > 2 { return None; }
      WriteHead(stream, HeaderByte(Publish, p.dup, p.qos, p.retain), length);
      WriteString(stream, p.fields.topic);
      if p.qos > 0 { WriteNumber(stream, p.fields.messageId.value); }
      var _ := stream.Write(Buf(p.fields.payload));
      ok := Some(true);
    }

    method WriteConfirmation(stream: Accumulator, p: Packet) returns (ok: Option<bool>)
      requires Valid() && p.fields.IdFields? && Shaped(p.cmd, p.fields)
      modifies this, stream
      ensures Valid() && Did(Attempted(p), ok, old(stream.chunks), stream.chunks, old(stream.errors), stream.errors)
    {
      if p.fields.messageId.None? {
        stream.EmitError(InvalidMessageId);
        return Some(false);
      }
      if p.cmd == Pubrel && p.dup { return None; }
      WriteHead(stream, FixedHeader(p.cmd, false, if p.cmd == Pubrel then 1 else 0), 2);
      WriteNumber(stream, p.fields.messageId.value);
      ok := Some(true);
    }

    method WriteSubscribe(stream: Accumulator, p: Packet) returns (ok: Option<bool>)
      requires Valid() && p.fields.SubscribeFields? && Shaped(p.cmd, p.fields)
      modifies this, stream
      ensures Valid() && Did(Attempted(p), ok, old(stream.chunks), stream.chunks, old(stream.errors), stream.errors)
    {
      var subs := p.fields.subscriptions;
      if p.fields.messageId.None? {
        stream.EmitError(InvalidMessageId);
        return Some(false);
      }
      if subs == [] {
        stream.EmitError(InvalidSubscriptions);
        return Some(false);
      }
      var length := MeasureSubscriptions(subs);
      WriteHead(stream, FixedHeader(Subscribe, p.dup, 1), 2 + length);
      WriteNumber(stream, p.fields.messageId.value);
      WriteSubscriptions(stream, subs);
      ok := Some(true);
    }

    method MeasureSubscriptions(subs: seq<Subscription<JsString>>) returns (length: nat)
      ensures length == SubscriptionsLength(subs)
    {
      length := 0;
      var i := 0;
      assert subs[0..] == subs;
      while i < |subs|
        invariant 0 <= i <= |subs| && length + SubscriptionsLength(subs[i..]) == SubscriptionsLength(subs)
      {
        assert subs[i..][1..] == subs[i + 1..];
        var topic := Utf8ToBytes(subs[i].topic, None);
        length := length + |topic| + 2 + 1;
        i := i + 1;
      }
    }

    method WriteSubscriptions(stream: Accumulator, subs: seq<Subscription<JsString>>)
      modifies stream`chunks
      ensures stream.chunks == old(stream.chunks) + SubscriptionChunks(subs)
    {
      ghost var goal := stream.chunks + SubscriptionChunks(subs);
      var i := 0;
      assert subs[0..] == subs;
      while i < |subs|
        invariant 0 <= i <= |subs| && stream.chunks + SubscriptionChunks(subs[i..]) == goal
      {
        assert subs[i..][1..] == subs[i + 1..];
        ghost var before, rest := stream.chunks, SubscriptionChunks(subs[i + 1..]);
        Associate(before, StringChunks(subs[i].topic), [QosChunk(subs[i].qos)] + rest);
        WriteString(stream, subs[i].topic);
        Associate(stream.chunks, [QosChunk(subs[i].qos)], rest);
        var _ := stream.Write(QosChunk(subs[i].qos));
        i := i + 1;
      }
    }

    method WriteSuback(stream: Accumulator, p: Packet) returns (ok: Option<bool>)
      requires Valid() && p.fields.SubackFields? && Shaped(p.cmd, p.fields)
      modifies this, stream
      ensures Valid() && Did(Attempted(p), ok, old(stream.chunks), stream.chunks, old(stream.errors), stream.errors)
    {
      if p.fields.messageId.None? {
        stream.EmitError(InvalidMessageId);
        return Some(false);
      }
      if p.fields.granted == [] {
        stream.EmitError(InvalidQosVector);
        return Some(false);
      }
      WriteHead(stream, FixedHeader(Suback, false, 0), 2 + |p.fields.granted|);
      WriteNumber(stream, p.fields.messageId.value);
      var _ := stream.Write(Buf(AllOctets(p.fields.granted)));
      ok := Some(true);
    }

    method WriteUnsubscribe(stream: Accumulator, p: Packet) returns (ok: Option<bool>)
      requires Valid() && p.fields.UnsubscribeFields? && Shaped(p.cmd, p.fields)
      modifies this, stream
      ensures Valid() && Did(Attempted(p), ok, old(stream.chunks), stream.chunks, old(stream.errors), stream.errors)
    {
      var topics := p.fields.unsubscriptions;
      if p.fields.messageId.None? {
        stream.EmitError(InvalidMessageId);
        return Some(false);
      }
      if topics == [] {
        stream.EmitError(InvalidUnsubscriptions);
        return Some(false);
      }
      var length := MeasureTopics(topics);
      WriteHead(stream, FixedHeader(Unsubscribe, p.dup, 1), 2 + length);
      WriteNumber(stream, p.fields.messageId.value);
      WriteTopics(stream, topics);
      ok := Some(true);
    }

    method MeasureTopics(topics: seq<JsString>) returns (length: nat)
      ensures length == TopicsLength(topics)
    {
      length := 0;
      var i := 0;
      assert topics[0..] == topics;
      while i < |topics|
        invariant 0 <= i <= |topics| && length + TopicsLength(topics[i..]) == TopicsLength(topics)
      {
        assert topics[i..][1..] == topics[i + 1..];
        var topic := Utf8ToBytes(topics[i], None);
        length := length + |topic| + 2;
        i := i + 1;
      }
    }

    method WriteTopics(stream: Accumulator, topics: seq<JsString>)
      modifies stream`chunks
      ensures stream.chunks == old(stream.chunks) + TopicChunks(topics)
    {
      ghost var goal := stream.chunks + TopicChunks(topics);
      var i := 0;
      assert topics[0..] == topics;
      while i < |topics|
        invariant 0 <= i <= |topics| && stream.chunks + TopicChunks(topics[i..]) == goal
      {
        assert topics[i..][1..] == topics[i + 1..];
        Associate(stream.chunks, StringChunks(topics[i]), TopicChunks(topics[i + 1..]));
        WriteString(stream, topics[i]);
        i := i + 1;
      }
    }

    method WriteEmpty(stream: Accumulator, p: Packet) returns (ok: Option<bool>)
      requires p.fields.Nothing? && Shaped(p.cmd, p.fields)
      modifies stream
      ensures Did(Attempted(p), ok, old(stream.chunks), stream.chunks, old(stream.errors), stream.errors)
    {
      if p.cmd == Reserved {
        stream.EmitError(UnknownCommand);
        return Some(false);
      }
      var _ := stream.Write(Buf([Code(p.cmd) * 16, 0]));
      ok := Some(true);
    }

    /** writeToStream: the writer for the packet's command.  None is a TypeError. */
    method WriteToStream(stream: Accumulator, p: Packet) returns (ok: Option<bool>)
      requires Valid() && Shaped(p.cmd, p.fields)
      modifies this, stream
      ensures Valid() && Did(Attempted(p), ok, old(stream.chunks), stream.chunks, old(stream.errors), stream.errors)
    {
      match p.fields
      case ConnectFields(_, _, _, _, _, _, _, _) => ok := WriteConnect(stream, p);
      case ConnackFields(_, _) => ok := WriteConnack(stream, p);
      case PublishFields(_, _, _) => ok := WritePublish(stream, p);
      case IdFields(_) => ok := WriteConfirmation(stream, p);
      case SubscribeFields(_, _) => ok := WriteSubscribe(stream, p);
      case SubackFields(_, _) => ok := WriteSuback(stream, p);
      case UnsubscribeFields(_, _) => ok := WriteUnsubscribe(stream, p);
      case Nothing => ok := WriteEmpty(stream, p);
    }

    /**
      generate: a fresh accumulator and what it holds in the end.  Nobody listens to this accumulator, so the 'error'
      event of a refusal is thrown.
    */
    method Generate(p: Packet) returns (g: Generated)
      requires Valid() && Shaped(p.cmd, p.fields)
      modifies this
      ensures Valid()
      ensures match Attempted(p)
              case Refused(e) => g == Throws(Some(e))
              case Crashed => g == Throws(None)
              case Written(cs) => g == Bytes(Joined(cs))
    {
      var stream := new Accumulator();
      var ok := WriteToStream(stream, p);
      if ok.None? { return Throws(None); }
      if !ok.value { return Throws(Some(stream.errors[0])); }
      ghost var a := Attempted(p);
      assert [] + a.cs == a.cs;
      var all := stream.Concat();
      g := Bytes(all);
    }
  }

  /** The bytes, or what is thrown: the writer's own error, or a TypeError. */
  datatype Generated = Bytes(b: Octets) | Throws(e: Option<WriteError>)

  /** What an attempt to write does to a stream: its chunks and errors before and after. */
  predicate Did(a: Attempt, ok: Option<bool>, c0: seq<Chunk>, c1: seq<Chunk>, e0: seq<WriteError>, e1: seq<WriteError>) {
    match a
    case Refused(e) => ok == Some(false) && c1 == c0 && e1 == e0 + [e]
    case Crashed => ok == None && c1 == c0 && e1 == e0
    case Written(cs) => ok == Some(true) && c1 == c0 + cs && e1 == e0
  }
}
