/**
  The delivery half of a session as a value: the in-flight window, the bounded pending queue, the send
  queue and the handshake replies.  Every function is one atomic step of session/session.go or
  session/msg-handler.go; the class `Session` performs the same steps in place and is proved to agree.

  `written`, `issued`, `admitted`, `completed`, `born` and `windowed` are histories the theorems speak about.
*/
module Engine {
  import opened Common

  datatype Message = Message(topic: string, payload: seq<Byte>)

  datatype Packet =
    | Publish(id: Id, qos: nat, body: Message)
    | Puback(id: Id)
    | Pubrec(id: Id)
    | Pubrel(id: Id)
    | Pubcomp(id: Id)
    | Subscribe(id: Id, topics: seq<string>)
    | Suback(id: Id, codes: seq<Byte>)
    | Unsubscribe(id: Id, filters: seq<string>)
    | Unsuback(id: Id)
    | Connect
    | Connack
    | Pingreq
    | Pingresp
    | Disconnect
  {
    /** `Details().MessageID`: packets that carry no identifier report 0. */
    function MessageId(): Id {
      if Connect? || Connack? || Pingreq? || Pingresp? || Disconnect? then 0 else id
    }
  }

  /** A completion token; `serial` is the counter value it was created with and identifies it. */
  datatype Token =
    | PublishToken(serial: nat)
    | SubscribeToken(serial: nat, subs: seq<string>)
    | UnsubscribeToken(serial: nat)

  datatype PacketAndToken = PacketAndToken(p: Packet, t: Option<Token>)

  /** An in-flight entry; `born` and `windowed` record when and by which path it was inserted. */
  datatype InflightMsg = InflightMsg(pt: PacketAndToken, timeout: int, retryCnt: nat, born: int, windowed: bool)

  datatype ConfigValues = ConfigValues(maxSizeOfInflight: nat, maxSizeOfPublishMsg: nat, sentTimeout: nat)

  type Config = c: ConfigValues | c.maxSizeOfInflight > 0 && c.maxSizeOfPublishMsg > 0 && c.sentTimeout > 0
    witness ConfigValues(1, 1, 1)

  datatype Engine = Engine(
    lastMsgId: nat,
    stopped: bool,                 // the channel has stopped
    crashed: bool,                 // a handler panicked
    inflight: seq<InflightMsg>,
    pending: seq<PacketAndToken>,
    tokens: nat,                   // bytes buffered in peddingChan
    blocked: seq<PacketAndToken>,  // Publish calls waiting for room in peddingChan, first come first
    sendq: seq<Packet>,
    written: seq<Packet>,
    issued: seq<nat>,
    admitted: seq<Admission>,
    completed: seq<nat>)

  /** insert2Inflight put the publish of `serial` at position `at` of everything ever queued for the wire. */
  datatype Admission = Admission(serial: nat, at: nat)

  const Initial := Engine(0, false, false, [], [], 0, [], [], [], [], [], [])

  function IdOf(serial: nat): Id {
    serial % 65536
  }

  /** The serial of a packet's token, 0 when it has none. */
  function SerialOf(pt: PacketAndToken): nat {
    match pt.t
    case None => 0
    case Some(t) => t.serial
  }

  function PtSerials(pts: seq<PacketAndToken>): (ss: seq<nat>) {
    seq(|pts|, i requires 0 <= i < |pts| => SerialOf(pts[i]))
  }

  function EntrySerials(es: seq<InflightMsg>): (ss: seq<nat>) {
    seq(|es|, i requires 0 <= i < |es| => SerialOf(es[i].pt))
  }

  // ---------------------------------------------------------------- channel.Send

  function Enqueue(e: Engine, p: Packet): Engine {
    if e.stopped then e else e.(sendq := e.sendq + [p])
  }

  // ---------------------------------------------------------------- sending side

  /** insert2Inflight: only publishes and the QoS 2 handshake packets are tracked. */
  function Insert(c: Config, e: Engine, pt: PacketAndToken, now: int): Engine {
    if e.stopped then e else
      var tracked := pt.p.Publish? || pt.p.Pubrec? || pt.p.Pubrel?;
      var entry := InflightMsg(pt, now + c.sentTimeout, 0, now, true);
      e.(inflight := if tracked then e.inflight + [entry] else e.inflight,
         sendq := e.sendq + [pt.p],
         admitted := e.admitted + [Admission(SerialOf(pt), |e.written| + |e.sendq|)])
  }

  datatype Outcome = Accepted | Blocked | Refused

  /** The packet and token a Publish call creates. */
  function FreshPublish(e: Engine, qos: nat, body: Message): PacketAndToken {
    var serial := e.lastMsgId + 1;
    PacketAndToken(Publish(IdOf(serial), qos, body), Some(PublishToken(serial)))
  }

  function PublishOutcome(c: Config, e: Engine, live: bool): Outcome {
    if !live then Refused
    else if |e.inflight| < c.maxSizeOfInflight && |e.sendq| < c.maxSizeOfPublishMsg then Accepted
    else if e.tokens < c.maxSizeOfPublishMsg then Accepted
    else Blocked
  }

  /** Session.Publish; `live` is "connected and not closed".  The counter moves even on refusal. */
  function PublishStep(c: Config, e: Engine, live: bool, qos: nat, body: Message, now: int): Engine {
    var pt := FreshPublish(e, qos, body);
    var e0 := e.(lastMsgId := e.lastMsgId + 1);
    if !live then e0 else
      var e1 := e0.(issued := e0.issued + [e0.lastMsgId]);
      if |e.inflight| < c.maxSizeOfInflight && |e.sendq| < c.maxSizeOfPublishMsg then
        Insert(c, e1, pt, now)
      else if e.tokens < c.maxSizeOfPublishMsg then
        e1.(tokens := e1.tokens + 1, pending := e1.pending + [pt])
      else
        e1.(blocked := e1.blocked + [pt])
  }

  /** What Session.Send gives its packet: a fresh identifier for three of the packet types. */
  function Numbered(p: Packet, serial: nat): (pt: PacketAndToken) {
    match p
    case Publish(_, qos, body) => PacketAndToken(Publish(IdOf(serial), qos, body), Some(PublishToken(serial)))
    case Subscribe(_, topics) => PacketAndToken(Subscribe(IdOf(serial), topics), Some(SubscribeToken(serial, topics)))
    case Unsubscribe(_, fs) => PacketAndToken(Unsubscribe(IdOf(serial), fs), Some(UnsubscribeToken(serial)))
    case _ => PacketAndToken(p, None)
  }

  predicate TakesSerial(p: Packet) {
    p.Publish? || p.Subscribe? || p.Unsubscribe?
  }

  predicate TrackedBySend(p: Packet) {
    TakesSerial(p) || p.Pubrec? || p.Pubrel?
  }

  /** Session.Send: no window and no pending queue, straight to the in-flight list and the wire. */
  function SendStep(c: Config, e: Engine, p: Packet, now: int): Engine {
    if e.stopped then e else
      var serial := e.lastMsgId + 1;
      var pt := Numbered(p, serial);
      var e1 := if TakesSerial(p) then e.(lastMsgId := serial, issued := e.issued + [serial]) else e;
      var entry := InflightMsg(pt, now + c.sentTimeout, 0, now, false);
      e1.(inflight := if TrackedBySend(p) then e1.inflight + [entry] else e1.inflight,
          sendq := e1.sendq + [pt.p])
  }

  // ---------------------------------------------------------------- the window pump

  /**
    Receive from peddingChan without blocking.  When a publisher waits on the full channel the runtime
    gives it the freed slot, so its packet joins the pending queue and the count stays.
  */
  function TakeToken(e: Engine): Engine {
    if e.tokens == 0 then e
    else if e.blocked == [] then e.(tokens := e.tokens - 1)
    else e.(pending := e.pending + [e.blocked[0]], blocked := e.blocked[1..])
  }

  /** Take one token and move the head of the pending queue into the window. */
  function Refill(c: Config, e: Engine, now: int): Engine {
    var e1 := TakeToken(e);
    if e1.pending == [] then e1 else Insert(c, e1.(pending := e1.pending[1..]), e1.pending[0], now)
  }

  /** The tail of onInflightDone. */
  function Pump(c: Config, e: Engine, now: int): Engine {
    if |e.inflight| < c.maxSizeOfInflight then Refill(c, e, now) else e
  }

  // ---------------------------------------------------------------- acknowledgements

  /** The first in-flight entry with this identifier, or |es|. */
  function FirstWithId(es: seq<InflightMsg>, id: Id): (k: nat)
    ensures k <= |es|
    ensures k < |es| ==> es[k].pt.p.MessageId() == id
    ensures forall j | 0 <= j < k :: es[j].pt.p.MessageId() != id
  {
    if es == [] || es[0].pt.p.MessageId() == id then 0 else 1 + FirstWithId(es[1..], id)
  }

  /** removeInflightMsg and flowComplete; a SUBACK for a token of another kind panics. */
  function Finish(e: Engine, ack: Packet): Engine {
    var k := FirstWithId(e.inflight, ack.MessageId());
    if k == |e.inflight| then e else
      var t := e.inflight[k].pt.t;
      var e1 := e.(inflight := e.inflight[..k] + e.inflight[k + 1..]);
      if t.None? then e1
      else if ack.Suback? && !(t.value.SubscribeToken? && |t.value.subs| <= |ack.codes|) then e1.(crashed := true)
      else e1.(completed := e1.completed + [t.value.serial])
  }

  predicate EndsFlow(p: Packet) {
    (p.Publish? && p.qos == 0) || p.Puback? || p.Pubcomp? || p.Suback? || p.Unsuback?
  }

  /** onInflightDone. */
  function InflightDone(c: Config, e: Engine, p: Packet, now: int): Engine {
    var e1 := if EndsFlow(p) then Finish(e, p) else e;
    if e1.crashed then e1 else Pump(c, e1, now)
  }

  function Released(es: seq<InflightMsg>, id: Id): (r: seq<InflightMsg>)
    ensures |r| == |es|
    ensures forall j | 0 <= j < |es| ::
              r[j] == if es[j].pt.p.MessageId() == id then es[j].(pt := es[j].pt.(p := Pubrel(id))) else es[j]
  {
    seq(|es|, j requires 0 <= j < |es| =>
      if es[j].pt.p.MessageId() == id then es[j].(pt := es[j].pt.(p := Pubrel(id))) else es[j])
  }

  /** onPubrec: answer with PUBREL and make PUBREL what a resend will send. */
  function OnPubrec(e: Engine, id: Id): Engine {
    var e1 := Enqueue(e, Pubrel(id));
    e1.(inflight := Released(e1.inflight, id))
  }

  /** A packet arriving at the sending side of an open session. */
  function ReceiveStep(c: Config, e: Engine, p: Packet, now: int): Engine {
    match p
    case Puback(_) => InflightDone(c, e, p, now)
    case Pubcomp(_) => InflightDone(c, e, p, now)
    case Suback(_, _) => InflightDone(c, e, p, now)
    case Unsuback(_) => InflightDone(c, e, p, now)
    case Pubrec(id) => OnPubrec(e, id)
    case Pingreq => Enqueue(e, Pingresp)
    case _ => e
  }

  /** sendRun writes the head of the send queue; writing a QoS 0 publish ends its flow. */
  function WriteStep(c: Config, e: Engine, open: bool, now: int): Engine {
    if e.sendq == [] then e else
      var p := e.sendq[0];
      var e1 := e.(sendq := e.sendq[1..], written := e.written + [p]);
      if open && p.Publish? && p.qos == 0 then InflightDone(c, e1, p, now) else e1
  }

  // ---------------------------------------------------------------- the resend timer

  predicate Due(m: InflightMsg, now: int) {
    m.timeout <= now
  }

  function Rearmed(c: Config, m: InflightMsg, now: int): InflightMsg {
    if Due(m, now) then m.(retryCnt := m.retryCnt + 1, timeout := now + c.sentTimeout) else m
  }

  function RearmAll(c: Config, es: seq<InflightMsg>, now: int): (r: seq<InflightMsg>)
    ensures |r| == |es| && forall j | 0 <= j < |es| :: r[j] == Rearmed(c, es[j], now)
  {
    seq(|es|, j requires 0 <= j < |es| => Rearmed(c, es[j], now))
  }

  /** The packets of the due entries, in list order. */
  function DuePackets(es: seq<InflightMsg>, now: int): (ps: seq<Packet>) {
    if es == [] then []
    else DuePackets(es[..|es| - 1], now) + (if Due(es[|es| - 1], now) then [es[|es| - 1].pt.p] else [])
  }

  function Resend(c: Config, e: Engine, now: int): Engine {
    e.(inflight := RearmAll(c, e.inflight, now),
       sendq := if e.stopped then e.sendq else e.sendq + DuePackets(e.inflight, now))
  }

  /** checkInflightList: resend, then refill one place when both the window and the send queue allow it. */
  function TickStep(c: Config, e: Engine, now: int): Engine {
    var e1 := Resend(c, e, now);
    if |e1.inflight| < c.maxSizeOfInflight && |e1.sendq| < c.maxSizeOfPublishMsg then Refill(c, e1, now) else e1
  }

  /** Session.Close as the engine sees it: the channel stops and waiting publishers give up. */
  function StopStep(e: Engine): Engine {
    e.(stopped := true, blocked := [])
  }

  /** A failed write: its packet is gone and sendRun ends, which stops the channel but not the session. */
  function FailStep(e: Engine): Engine {
    if e.sendq == [] then e else e.(sendq := e.sendq[1..], stopped := true)
  }

  // ---------------------------------------------------------------- receiving side

  /** A message handed to the subscribers or to the callback. */
  datatype Delivery = Delivery(id: Id, qos: nat, body: Message)

  /** The receiver: its engine, its stored QoS 2 messages, and everything delivered so far. */
  datatype Receiver = Receiver(e: Engine, store: map<Id, Message>, delivered: seq<Delivery>)

  /** onPublish: QoS 1 acknowledges and delivers, QoS 2 answers PUBREC and stores the first copy. */
  function OnPublish(r: Receiver, id: Id, qos: nat, body: Message): Receiver {
    if qos == 0 then r.(delivered := r.delivered + [Delivery(id, qos, body)])
    else if qos == 1 then
      r.(e := Enqueue(r.e, Puback(id)), delivered := r.delivered + [Delivery(id, qos, body)])
    else if qos == 2 then
      r.(e := Enqueue(r.e, Pubrec(id)), store := if id in r.store then r.store else r.store[id := body])
    else r
  }

  /** onPubrel: always answer PUBCOMP; deliver and forget the stored message if there is one. */
  function OnPubrel(r: Receiver, id: Id): Receiver {
    var r1 := r.(e := Enqueue(r.e, Pubcomp(id)));
    if id in r.store then
      r1.(store := r.store - {id}, delivered := r.delivered + [Delivery(id, 2, r.store[id])])
    else r1
  }

  /** A packet arriving at the receiving side; `codes` is the subscription manager's verdict per filter. */
  function ReceiverStep(r: Receiver, p: Packet, codes: seq<Byte>): Receiver {
    match p
    case Publish(id, qos, body) => OnPublish(r, id, qos, body)
    case Pubrel(id) => OnPubrel(r, id)
    case Subscribe(id, _) => r.(e := Enqueue(r.e, Suback(id, codes)))
    case Unsubscribe(id, _) => r.(e := Enqueue(r.e, Unsuback(id)))
    case _ => r
  }

  // ---------------------------------------------------------------- whole runs

  datatype Event =
    | PublishEv(now: int, live: bool, qos: nat, body: Message)
    | SendEv(now: int, sent: Packet)
    | ReceiveEv(now: int, arrived: Packet)
    | WriteEv(now: int, open: bool)
    | TickEv(now: int)
    | WriteFailEv(now: int)
    | StopEv(now: int)

  function Apply(c: Config, e: Engine, ev: Event): Engine {
    if e.crashed then e else
      match ev
      case PublishEv(now, live, qos, body) => PublishStep(c, e, live, qos, body, now)
      case SendEv(now, p) => SendStep(c, e, p, now)
      case ReceiveEv(now, p) => ReceiveStep(c, e, p, now)
      case WriteEv(now, open) => WriteStep(c, e, open, now)
      case TickEv(now) => TickStep(c, e, now)
      case WriteFailEv(_) => FailStep(e)
      case StopEv(_) => StopStep(e)
  }

  function Run(c: Config, evs: seq<Event>): (e: Engine) {
    if evs == [] then Initial else Apply(c, Run(c, evs[..|evs| - 1]), evs[|evs| - 1])
  }
}
