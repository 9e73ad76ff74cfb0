/**
  Two sessions back to back, each publishing to the other over the same two connections, so that requests
  of one direction and replies of the other share the send queues and the wires.  Every move of either
  session is a step of `Qos2Protocol` in one direction and changes nothing in the other, so the
  handshake's safety carries over to both directions at once.
*/
module Qos2Sessions {
  import opened Common
  import opened Engine
  import opened EngineInvariants
  import opened EngineOrder
  import opened Qos2Protocol
  import opened Qos2Progress

  /** One side: its engine, its stored messages and deliveries, and what its own identifiers were issued for. */
  datatype Peer = Peer(r: Receiver, orig: map<Id, Packet>)

  /** Both sides, what a has written and b not yet read, and the reverse. */
  datatype System = System(a: Peer, b: Peer, ab: seq<Packet>, ba: seq<Packet>)

  datatype Act =
    | Publishing(now: int, qos: nat, body: Message)
    | Sending(now: int, sent: Packet)
    | Ticking(now: int)
    | Writing(now: int)
    | Taking(now: int, codes: seq<Byte>)  // the oldest packet off the incoming wire

  datatype Move = Move(byB: bool, act: Act)

  const NewPeer := Peer(Receiver(Initial, map[], []), map[])

  const Start := System(NewPeer, NewPeer, [], [])

  /** The same system seen from the other side. */
  function Flip(s: System): System {
    System(s.b, s.a, s.ba, s.ab)
  }

  predicate IsRequest(p: Packet) {
    TakesSerial(p) || p.Pubrel?
  }

  predicate IsReply(p: Packet) {
    p.Puback? || p.Pubrec? || p.Pubcomp? || p.Suback? || p.Unsuback?
  }

  /** A session is both: requests go to its receiving side, everything else to its sending side. */
  function Take(c: Config, r: Receiver, p: Packet, now: int, codes: seq<Byte>): Receiver {
    if IsRequest(p) then ReceiverStep(r, p, codes) else r.(e := ReceiveStep(c, r.e, p, now))
  }

  function With(s: System, e: Engine): System {
    s.(a := s.a.(r := s.a.r.(e := e)))
  }

  function Issued(s: System, p: Packet): System {
    s.(a := s.a.(orig := s.a.orig[p.MessageId() := p]))
  }

  /** The packet a caller of Send asks for, under this identifier. */
  function WithId(p: Packet, id: Id): Packet {
    match p
    case Publish(_, qos, body) => Publish(id, qos, body)
    case Subscribe(_, topics) => Subscribe(id, topics)
    case Unsubscribe(_, filters) => Unsubscribe(id, filters)
    case _ => p
  }

  /** A step of side a.  What an identifier is issued for is read off the act, not off the packet that is made for it. */
  function ActStep(c: Config, s: System, act: Act): System {
    var e := s.a.r.e;
    match act
    case Publishing(now, qos, body) => 
      Issued(With(s, PublishStep(c, e, true, qos, body, now)), Publish(IdOf(e.lastMsgId + 1), qos, body))
    case Sending(now, sent) =>
      var s' := With(s, SendStep(c, e, sent, now));
      if TakesSerial(sent) then Issued(s', WithId(sent, IdOf(e.lastMsgId + 1))) else s'
    case Ticking(now) => With(s, TickStep(c, e, now))
    case Writing(now) =>
      if e.sendq == [] then s else With(s.(ab := s.ab + [e.sendq[0]]), WriteStep(c, e, true, now))
    case Taking(now, codes) =>
      if s.ba == [] then s else s.(a := s.a.(r := Take(c, s.a.r, s.ba[0], now, codes)), ba := s.ba[1..])
  }

  function Step(c: Config, s: System, m: Move): System {
    if m.byB then Flip(ActStep(c, Flip(s), m.act)) else ActStep(c, s, m.act)
  }

  /** Side a uses fewer than 65536 identifiers, and its subscription manager answers every filter. */
  ghost predicate AllowedAct(s: System, act: Act) {
    match act
    case Publishing(_, _, _) => s.a.r.e.lastMsgId + 1 < 65536
    case Sending(_, p) => (s.a.r.e.lastMsgId + 1 < 65536 && TakesSerial(p)) || p.Pingreq?
    case Taking(_, codes) => s.ba != [] ==> CodesFor(s.ba[0], codes)
    case _ => true
  }

  ghost predicate Allowed(s: System, m: Move) {
    AllowedAct(if m.byB then Flip(s) else s, m.act)
  }

  function Play(c: Config, ms: seq<Move>): (s: System) {
    if ms == [] then Start else Step(c, Play(c, ms[..|ms| - 1]), ms[|ms| - 1])
  }

  ghost predicate AllowedRun(c: Config, ms: seq<Move>) {
    ms == [] || (AllowedRun(c, ms[..|ms| - 1]) && Allowed(Play(c, ms[..|ms| - 1]), ms[|ms| - 1]))
  }

  // ---------------------------------------------------------------- the two kinds of packets on one wire

  function Requests(q: seq<Packet>): (r: seq<Packet>) {
    if q == [] then [] else Requests(q[..|q| - 1]) + (if IsRequest(q[|q| - 1]) then [q[|q| - 1]] else [])
  }

  function Replies(q: seq<Packet>): (r: seq<Packet>) {
    if q == [] then [] else Replies(q[..|q| - 1]) + (if IsReply(q[|q| - 1]) then [q[|q| - 1]] else [])
  }

  lemma {:induction false} RequestsConcat(q: seq<Packet>, r: seq<Packet>)
    ensures Requests(q + r) == Requests(q) + Requests(r)
  {
    if r == [] {
      assert q + r == q;
    } else {
      var n := |r| - 1;
      RequestsConcat(q, r[..n]);
      assert (q + r)[..|q| + n] == q + r[..n] && (q + r)[|q| + n] == r[n];
      Associate(Requests(q), Requests(r[..n]), if IsRequest(r[n]) then [r[n]] else []);
    }
  }

  lemma {:induction false} RepliesConcat(q: seq<Packet>, r: seq<Packet>)
    ensures Replies(q + r) == Replies(q) + Replies(r)
  {
    if r == [] {
      assert q + r == q;
    } else {
      var n := |r| - 1;
      RepliesConcat(q, r[..n]);
      assert (q + r)[..|q| + n] == q + r[..n] && (q + r)[|q| + n] == r[n];
      Associate(Replies(q), Replies(r[..n]), if IsReply(r[n]) then [r[n]] else []);
    }
  }

  lemma KindsOne(p: Packet)
    ensures Requests([p]) == (if IsRequest(p) then [p] else []) && Replies([p]) == (if IsReply(p) then [p] else [])
  {
    assert [p][..0] == [];
  }

  lemma KindsPushed(q: seq<Packet>, p: Packet)
    ensures Requests(q + [p]) == Requests(q) + Requests([p]) && Replies(q + [p]) == Replies(q) + Replies([p])
  {
    RequestsConcat(q, [p]);
    RepliesConcat(q, [p]);
  }

  lemma KindsPopped(q: seq<Packet>)
    requires q != []
    ensures Requests(q) == Requests([q[0]]) + Requests(q[1..]) && Replies(q) == Replies([q[0]]) + Replies(q[1..])
  {
    RequestsConcat([q[0]], q[1..]);
    RepliesConcat([q[0]], q[1..]);
    assert q == [q[0]] + q[1..];
  }

  lemma KindsHead(q: seq<Packet>)
    requires q != []
    ensures Requests(q) == (if IsRequest(q[0]) then [q[0]] else []) + Requests(q[1..])
    ensures Replies(q) == (if IsReply(q[0]) then [q[0]] else []) + Replies(q[1..])
  {
    KindsOne(q[0]);
    KindsPopped(q);
  }

  lemma {:induction false} AllRequests(ps: seq<Packet>)
    requires forall k | 0 <= k < |ps| :: IsRequest(ps[k])
    ensures Requests(ps) == ps && Replies(ps) == []
  {
    if ps != [] {
      AllRequests(ps[..|ps| - 1]);
      assert IsRequest(ps[|ps| - 1]);
      assert ps == ps[..|ps| - 1] + [ps[|ps| - 1]];
    }
  }

  /** A request put behind a queue is put behind its requests. */
  lemma RequestPushed(ab: seq<Packet>, q: seq<Packet>, p: Packet)
    requires IsRequest(p)
    ensures ab + Requests(q + [p]) == ab + Requests(q) + [p] && Replies(q + [p]) == Replies(q)
  {
    KindsOne(p);
    KindsPushed(q, p);
    Associate(ab, Requests(q), [p]);
  }

  lemma ReplyPushed(ba: seq<Packet>, q: seq<Packet>, p: Packet)
    requires IsReply(p)
    ensures ba + Replies(q + [p]) == ba + Replies(q) + [p] && Requests(q + [p]) == Requests(q)
  {
    KindsOne(p);
    KindsPushed(q, p);
    Associate(ba, Replies(q), [p]);
  }

  /** Writing the head of a send queue to the wire keeps both kinds in their order. */
  lemma KindsMoved(wire: seq<Packet>, q: seq<Packet>)
    requires q != []
    ensures Requests(wire + [q[0]]) + Requests(q[1..]) == Requests(wire) + Requests(q)
    ensures Replies(wire + [q[0]]) + Replies(q[1..]) == Replies(wire) + Replies(q)
  {
    KindsPushed(wire, q[0]);
    KindsPopped(q);
    Associate(Requests(wire), Requests([q[0]]), Requests(q[1..]));
    Associate(Replies(wire), Replies([q[0]]), Replies(q[1..]));
  }

  // ---------------------------------------------------------------- the abstraction

  ghost function PtPackets(pts: seq<PacketAndToken>): set<Packet> {
    set k | 0 <= k < |pts| :: pts[k].p
  }

  ghost function EntryPackets(es: seq<InflightMsg>): set<Packet> {
    set k | 0 <= k < |es| :: es[k].pt.p
  }

  ghost function Ids(ss: seq<nat>): set<Id> {
    set k | 0 <= k < |ss| :: IdOf(ss[k])
  }

  /** What the protocol sees of a sender `e` whose written requests still under way are `ab`. */
  ghost function View(e: Engine, orig: map<Id, Packet>, ab: seq<Packet>, ba: seq<Packet>, store: map<Id, Message>, delivered: seq<Delivery>): Proto {
    Proto(orig, PtPackets(e.pending) + PtPackets(e.blocked), EntryPackets(e.inflight), Ids(e.completed),
          ab + Requests(e.sendq), ba, store, delivered)
  }

  /** The direction from a to b. */
  ghost function Abs(s: System): Proto {
    View(s.a.r.e, s.a.orig, Requests(s.ab), RepliesTo(s), s.b.r.store, s.b.r.delivered)
  }

  ghost function RepliesTo(s: System): seq<Packet> {
    Replies(s.ba) + Replies(s.b.r.e.sendq)
  }

  // ---------------------------------------------------------------- refinement of the sender's steps

  /** Every entry carries the token its packet was issued with; no serial is in two places. */
  ghost predicate Sender(c: Config, e: Engine, orig: map<Id, Packet>) {
    && Inv(c, e) && Running(e) && e.lastMsgId < 65536
    && Keyed(orig, e.lastMsgId)
    && (forall k | 0 <= k < |e.inflight| :: TokenMatches(e.inflight[k].pt, orig))
  }

  /** Identifiers 1..n have been issued, and no other. */
  ghost predicate Keyed(orig: map<Id, Packet>, n: nat) {
    forall i: Id :: i in orig <==> 1 <= i <= n
  }

  ghost predicate TokenMatches(pt: PacketAndToken, orig: map<Id, Packet>) {
    var s := SerialOf(pt);
    pt.t.Some? && IdOf(s) in orig && pt.t == Numbered(orig[IdOf(s)], s).t
  }

  lemma SerialsAreIssued(e: Engine, s: nat)
    requires Accounted(e) && s >= 1 && Tally(e, s) > 0
    ensures Tally(e, s) == 1 && s <= e.lastMsgId
  {
    AscendingOnce(e.issued, e.lastMsgId, s);
    CountBounds(e.issued, s);
    assert Tally(e, s) <= Count(e.issued, s);
  }

  lemma EntriesInWindow(c: Config, e: Engine, orig: map<Id, Packet>)
    requires Sender(c, e, orig)
    ensures InWindow(e)
  {
    forall k | 0 <= k < |e.inflight| ensures 1 <= SerialOf(e.inflight[k].pt) <= e.lastMsgId {
      var s := SerialOf(e.inflight[k].pt);
      assert TokenOk(e.inflight[k].pt);
      assert EntrySerials(e.inflight)[k] == s;
      CountBounds(EntrySerials(e.inflight), s);
      SerialsAreIssued(e, s);
    }
    forall j, k | 0 <= j < k < |e.inflight| ensures SerialOf(e.inflight[j].pt) != SerialOf(e.inflight[k].pt) {
      if SerialOf(e.inflight[j].pt) == SerialOf(e.inflight[k].pt) {
        CountTwice(EntrySerials(e.inflight), j, k);
        SerialsAreIssued(e, SerialOf(e.inflight[j].pt));
      }
    }
  }

  /** The head of the pending queue is nowhere else among the waiting packets. */
  lemma PendingHeadOnce(e: Engine)
    requires TokensOk(e) && Accounted(e) && e.lastMsgId < 65536 && e.pending != []
    ensures e.pending[0].p !in PtPackets(e.pending[1..]) + PtPackets(e.blocked)
    ensures var x := SerialOf(e.pending[0]); 1 <= x <= e.lastMsgId && e.pending[0].p.MessageId() == x
  {
    var x := SerialOf(e.pending[0]);
    assert QueuedOk(e.pending[0]);
    PtPopped(e.pending, x);
    SerialsAreIssued(e, x);
    forall k | 0 <= k < |e.pending[1..]| ensures e.pending[1..][k].p != e.pending[0].p {
      NotTwice(e, e.pending[1..], k, x);
    }
    forall k | 0 <= k < |e.blocked| ensures e.blocked[k].p != e.pending[0].p {
      NotTwice(e, e.blocked, k, x);
    }
  }

  lemma NotTwice(e: Engine, pts: seq<PacketAndToken>, k: nat, x: nat)
    requires TokensOk(e) && Accounted(e) && e.lastMsgId < 65536 && e.pending != []
    requires x == SerialOf(e.pending[0]) && Tally(e, x) == 1 && 1 <= x <= e.lastMsgId
    requires k < |pts| && (pts == e.pending[1..] || pts == e.blocked)
    ensures pts[k].p != e.pending[0].p
  {
    var y := SerialOf(pts[k]);
    assert QueuedOk(pts[k]) by { assert pts == e.pending[1..] ==> pts[k] == e.pending[k + 1]; }
    assert QueuedOk(e.pending[0]);
    assert PtSerials(pts)[k] == y;
    CountBounds(PtSerials(pts), y);
    PtPopped(e.pending, y);
    assert y != x;
    SerialsAreIssued(e, y);
  }

  lemma PushPackets(pts: seq<PacketAndToken>, pt: PacketAndToken)
    ensures PtPackets(pts + [pt]) == PtPackets(pts) + {pt.p}
  {
    var q := pts + [pt];
    assert q[|pts|] == pt;
    forall p | p in PtPackets(pts) ensures p in PtPackets(q) {
      var k :| 0 <= k < |pts| && pts[k].p == p;
      assert q[k].p == p;
    }
  }

  lemma PopPackets(pts: seq<PacketAndToken>)
    requires pts != []
    ensures PtPackets(pts) == {pts[0].p} + PtPackets(pts[1..])
  {
    forall p | p in PtPackets(pts[1..]) ensures p in PtPackets(pts) {
      var k :| 0 <= k < |pts[1..]| && pts[1..][k].p == p;
      assert pts[k + 1].p == p;
    }
    forall p | p in PtPackets(pts) && p != pts[0].p ensures p in PtPackets(pts[1..]) {
      var k :| 0 <= k < |pts| && pts[k].p == p;
      assert pts[1..][k - 1].p == p;
    }
  }

  lemma PushEntry(es: seq<InflightMsg>, m: InflightMsg)
    ensures EntryPackets(es + [m]) == EntryPackets(es) + {m.pt.p}
  {
    var q := es + [m];
    assert q[|es|] == m;
    forall p | p in EntryPackets(es) ensures p in EntryPackets(q) {
      var k :| 0 <= k < |es| && es[k].pt.p == p;
      assert q[k].pt.p == p;
    }
  }

  lemma TokenKeepsWaiting(e: Engine)
    ensures PtPackets(TakeToken(e).pending) + PtPackets(TakeToken(e).blocked) == PtPackets(e.pending) + PtPackets(e.blocked)
  {
    if e.tokens != 0 && e.blocked != [] {
      PushPackets(e.pending, e.blocked[0]);
      PopPackets(e.blocked);
    }
  }

  lemma TakeTokenInv(c: Config, e: Engine)
    requires Inv(c, e)
    ensures TokensOk(TakeToken(e)) && Accounted(TakeToken(e))
  {
    forall s: nat { TakeTokenTally(e, s); }
  }

  /** What is left waiting once the head of the pending queue is taken. */
  lemma WaitingAfterRefill(c: Config, e: Engine)
    requires Inv(c, e) && e.lastMsgId < 65536 && TakeToken(e).pending != []
    ensures var e1 := TakeToken(e);
            && e1.pending[0].p in PtPackets(e.pending) + PtPackets(e.blocked)
            && PtPackets(e1.pending[1..]) + PtPackets(e1.blocked) == PtPackets(e.pending) + PtPackets(e.blocked) - {e1.pending[0].p}
            && QueuedOk(e1.pending[0])
  {
    var e1 := TakeToken(e);
    TokenKeepsWaiting(e);
    TakeTokenInv(c, e);
    PendingHeadOnce(e1);
    PopPackets(e1.pending);
    assert QueuedOk(e1.pending[0]);
  }

  /** A refill is a launch of the packet at the head of the pending queue, or nothing. */
  lemma RefillRefines(c: Config, e: Engine, now: int, orig: map<Id, Packet>, ab: seq<Packet>, ba: seq<Packet>, store: map<Id, Message>, ds: seq<Delivery>)
    requires Inv(c, e) && Running(e) && e.lastMsgId < 65536
    ensures var e1 := TakeToken(e);
            var v, v' := View(e, orig, ab, ba, store, ds), View(Refill(c, e, now), orig, ab, ba, store, ds);
            if e1.pending == [] then v' == v
            else e1.pending[0].p in v.waiting && v' == Launch(v, e1.pending[0].p)
    ensures Replies(Refill(c, e, now).sendq) == Replies(e.sendq)
  {
    var e1, e' := TakeToken(e), Refill(c, e, now);
    if e1.pending == [] {
      TokenKeepsWaiting(e);
    } else {
      var pt := e1.pending[0];
      var m := InflightMsg(pt, now + c.sentTimeout, 0, now, true);
      WaitingAfterRefill(c, e);
      PushEntry(e.inflight, m);
      assert e'.inflight == e.inflight + [m] && e'.pending == e1.pending[1..] && e'.blocked == e1.blocked;
      RequestPushed(ab, e.sendq, pt.p);
    }
  }

  lemma EntriesWithout(es: seq<InflightMsg>, k: nat)
    requires k < |es|
    requires forall j | 0 <= j < |es| && j != k :: es[j].pt.p.MessageId() != es[k].pt.p.MessageId()
    ensures EntryPackets(es[..k] + es[k + 1..]) == Without(EntryPackets(es), es[k].pt.p.MessageId())
  {
    var r, i := es[..k] + es[k + 1..], es[k].pt.p.MessageId();
    forall p | p in EntryPackets(r) ensures p in Without(EntryPackets(es), i) {
      var j :| 0 <= j < |r| && r[j].pt.p == p;
      var j' := if j < k then j else j + 1;
      assert es[j'].pt.p == p;
    }
    forall p | p in Without(EntryPackets(es), i) ensures p in EntryPackets(r) {
      var j :| 0 <= j < |es| && es[j].pt.p == p;
      var j' := if j < k then j else j - 1;
      assert r[j'].pt.p == p;
    }
  }

  /** Inside the window no two entries answer to the same identifier. */
  lemma EntryIdsDistinct(e: Engine, j: nat, k: nat)
    requires TokensOk(e) && InWindow(e) && j < |e.inflight| && k < |e.inflight| && j != k
    ensures e.inflight[j].pt.p.MessageId() != e.inflight[k].pt.p.MessageId()
  {
    assert TokenOk(e.inflight[j].pt) && TokenOk(e.inflight[k].pt);
    var s, t := SerialOf(e.inflight[j].pt), SerialOf(e.inflight[k].pt);
    if s < t { IdsDistinctInWindow(s, t); } else { IdsDistinctInWindow(t, s); }
  }

  lemma PushId(ss: seq<nat>, s: nat)
    ensures Ids(ss + [s]) == Ids(ss) + {IdOf(s)}
  {
    var q := ss + [s];
    assert q[|ss|] == s;
    forall i | i in Ids(ss) ensures i in Ids(q) {
      var k :| 0 <= k < |ss| && IdOf(ss[k]) == i;
      assert IdOf(q[k]) == i;
    }
  }

  /** An acknowledgement of the right type completes the entry it names, as the protocol says. */
  lemma FinishRefines(c: Config, e: Engine, ack: Packet, orig: map<Id, Packet>, ab: seq<Packet>, ba: seq<Packet>, store: map<Id, Message>, ds: seq<Delivery>)
    requires Sender(c, e, orig)
    requires ack.Suback? ==> ack.id in orig && orig[ack.id].Subscribe? && |orig[ack.id].topics| <= |ack.codes|
    ensures !Finish(e, ack).crashed
    ensures View(Finish(e, ack), orig, ab, ba, store, ds) == Complete(View(e, orig, ab, ba, store, ds), ack.MessageId())
  {
    var i := ack.MessageId();
    var k := FirstWithId(e.inflight, i);
    EntriesInWindow(c, e, orig);
    if k < |e.inflight| {
      var m := e.inflight[k];
      assert m.pt.p in EntryPackets(e.inflight);
      assert TokenOk(m.pt) && TokenMatches(m.pt, orig);
      forall j | 0 <= j < |e.inflight| && j != k ensures e.inflight[j].pt.p.MessageId() != i {
        EntryIdsDistinct(e, j, k);
      }
      EntriesWithout(e.inflight, k);
      PushId(e.completed, SerialOf(m.pt));
    } else {
      assert forall p | p in EntryPackets(e.inflight) :: p.MessageId() != i;
    }
  }

  lemma FinishSender(c: Config, e: Engine, ack: Packet, orig: map<Id, Packet>)
    requires Sender(c, e, orig) && !Finish(e, ack).crashed
    ensures Sender(c, Finish(e, ack), orig)
  {
    FinishKeeps(c, e, ack);
    FinishFrame(e, ack);
  }

  lemma RefillSender(c: Config, e: Engine, now: int, orig: map<Id, Packet>)
    requires Sender(c, e, orig) && |e.inflight| < c.maxSizeOfInflight
    requires forall p | p in PtPackets(e.pending) + PtPackets(e.blocked) :: p.MessageId() in orig && p == orig[p.MessageId()]
    ensures Sender(c, Refill(c, e, now), orig)
  {
    RefillKeeps(c, e, now);
    RefillFrame(c, e, now);
    var e1 := TakeToken(e);
    TokenKeepsWaiting(e);
    TakeTokenInv(c, e);
    if e1.pending != [] {
      PendingHeadOnce(e1);
      PopPackets(e1.pending);
      assert e1.pending[0].p in PtPackets(e1.pending);
      assert QueuedOk(e1.pending[0]);
      assert TokenMatches(e1.pending[0], orig);
    }
  }

  lemma ReleasedEntries(es: seq<InflightMsg>, i: Id)
    ensures EntryPackets(Released(es, i))
         == if exists p :: p in EntryPackets(es) && p.MessageId() == i then Without(EntryPackets(es), i) + {Pubrel(i)} else EntryPackets(es)
  {
    var r := Released(es, i);
    forall p | p in EntryPackets(es) && p.MessageId() != i ensures p in EntryPackets(r) {
      var k :| 0 <= k < |es| && es[k].pt.p == p;
      assert r[k].pt.p == p;
    }
    forall p | p in EntryPackets(r) ensures p == Pubrel(i) || p in Without(EntryPackets(es), i) {
      var k :| 0 <= k < |r| && r[k].pt.p == p;
      assert es[k].pt.p in EntryPackets(es);
    }
    if p :| p in EntryPackets(es) && p.MessageId() == i {
      var k :| 0 <= k < |es| && es[k].pt.p == p;
      assert r[k].pt.p == Pubrel(i);
    } else {
      forall p | p in EntryPackets(r) ensures p in EntryPackets(es) {
        var k :| 0 <= k < |r| && r[k].pt.p == p;
        assert es[k].pt.p in EntryPackets(es);
      }
    }
  }

  lemma PubrecSender(c: Config, e: Engine, i: Id, orig: map<Id, Packet>)
    requires Sender(c, e, orig)
    ensures Sender(c, OnPubrec(e, i), orig)
  {
    SameBookkeeping(c, e, OnPubrec(e, i));
  }

  lemma RearmedEntries(c: Config, e: Engine, now: int)
    ensures EntryPackets(Resend(c, e, now).inflight) == EntryPackets(e.inflight)
    ensures forall k | 0 <= k < |DuePackets(e.inflight, now)| :: DuePackets(e.inflight, now)[k] in EntryPackets(e.inflight)
  {
    var es := Resend(c, e, now).inflight;
    assert forall k | 0 <= k < |es| :: es[k].pt == e.inflight[k].pt;
    forall p | p in EntryPackets(e.inflight) ensures p in EntryPackets(es) {
      var k :| 0 <= k < |e.inflight| && e.inflight[k].pt.p == p;
      assert es[k].pt.p == p;
    }
    DuePacketsAt(e.inflight, now);
  }

  // ---------------------------------------------------------------- every move keeps the system safe

  ghost predicate Good(v: Proto) {
    Typed(v) && Live(v) && (forall i: Id :: SafeFor(v, i)) && (forall i: Id :: AckedFor(v, i))
  }

  ghost predicate Half(c: Config, s: System) {
    Sender(c, s.a.r.e, s.a.orig) && Good(Abs(s))
  }

  ghost predicate SysInv(c: Config, s: System) {
    Half(c, s) && Half(c, Flip(s))
  }

  /** A change at side a that the direction from b to a does not see. */
  ghost predicate Unnoticed(s: System, s': System) {
    s'.b == s.b && Abs(Flip(s')) == Abs(Flip(s))
  }

  lemma OtherDirection(c: Config, s: System, s': System)
    requires Half(c, Flip(s)) && Unnoticed(s, s')
    ensures Half(c, Flip(s'))
  {
  }

  /** Nothing a step of side a does as a sender is seen by the direction from b to a. */
  lemma SenderUnnoticed(s: System, s': System)
    requires s'.b == s.b && s'.ba == s.ba && s'.a.r.store == s.a.r.store && s'.a.r.delivered == s.a.r.delivered
    requires Replies(s'.ab) + Replies(s'.a.r.e.sendq) == Replies(s.ab) + Replies(s.a.r.e.sendq)
    ensures Unnoticed(s, s')
  {
  }

  /** Side a has done a sender's step, good for its own direction and without a reply. */
  lemma SenderMoved(c: Config, s: System, s': System, e: Engine, orig: map<Id, Packet>)
    requires Half(c, Flip(s)) && s' == s.(a := Peer(s.a.r.(e := e), orig))
    requires Sender(c, e, orig) && Good(View(e, orig, Requests(s.ab), RepliesTo(s), s.b.r.store, s.b.r.delivered))
    requires Replies(e.sendq) == Replies(s.a.r.e.sendq)
    ensures SysInv(c, s')
  {
    SenderUnnoticed(s, s');
    OtherDirection(c, s, s');
  }

  lemma {:induction false} NeverOut(ds: seq<Delivery>, i: Id)
    requires forall k | 0 <= k < |ds| && ds[k].qos == 2 :: ds[k].id != i
    ensures Times(ds, i) == 0
  {
    if ds != [] { NeverOut(ds[..|ds| - 1], i); }
  }

  lemma IssueGood(v: Proto, p: Packet)
    requires Good(v) && TakesSerial(p) && p.MessageId() !in v.orig
    ensures Good(Issue(v, p))
  {
    NeverOut(v.delivered, p.MessageId());
    IssueTyped(v, p);
    IssueLive(v, p);
    forall i: Id { IssueSafe(v, p, i); }
    forall i: Id { IssueAcked(v, p, i); }
  }

  lemma LaunchGood(v: Proto, p: Packet)
    requires Good(v) && p in v.waiting
    ensures Good(Launch(v, p))
  {
    LaunchTyped(v, p);
    LaunchLive(v, p);
    forall i: Id { LaunchSafe(v, p, i); }
    forall i: Id { AckedKeeps(v, Launch(v, p), i); }
  }

  lemma RetransmitGood(v: Proto, ps: seq<Packet>)
    requires Good(v) && forall k | 0 <= k < |ps| :: ps[k] in v.flying
    ensures Good(Retransmit(v, ps))
  {
    RetransmitTyped(v, ps);
    RetransmitLive(v, ps);
    forall i: Id { RetransmitSafe(v, ps, i); }
    forall i: Id { AckedKeeps(v, Retransmit(v, ps), i); }
  }

  lemma CompleteGood(v: Proto, j: Id)
    requires Good(v) && j in v.orig && Q0(v.orig[j]) && v.orig[j] in v.ab
    ensures Good(Complete(v, j))
  {
    CompleteTyped(v, j);
    CompleteLive(v, j);
    forall i: Id { CompleteSafe(v, j, i); }
    forall i: Id { AckedKeeps(v, Complete(v, j), i); }
  }

  lemma SenderReceivesGood(v: Proto)
    requires Good(v) && v.ba != []
    ensures Good(SenderReceives(v))
  {
    SenderReceivesTyped(v);
    SenderReceivesLive(v);
    forall i: Id { SenderReceivesSafe(v, i); }
    forall i: Id { SenderReceivesAcked(v, i); }
  }

  lemma ReceiverReceivesGood(v: Proto, codes: seq<Byte>)
    requires Good(v) && v.ab != [] && CodesFor(v.ab[0], codes)
    ensures Good(ReceiverReceives(v, codes))
  {
    ReceiverReceivesTyped(v, codes);
    ReceiverReceivesLive(v, codes);
    forall i: Id { ReceiverReceivesSafe(v, codes, i); }
    forall i: Id { ReceiverReceivesAcked(v, codes, i); }
  }

  lemma RefillGood(c: Config, e: Engine, now: int, orig: map<Id, Packet>, ab: seq<Packet>, ba: seq<Packet>, store: map<Id, Message>, ds: seq<Delivery>)
    requires Sender(c, e, orig) && Good(View(e, orig, ab, ba, store, ds)) && |e.inflight| < c.maxSizeOfInflight
    ensures Sender(c, Refill(c, e, now), orig) && Good(View(Refill(c, e, now), orig, ab, ba, store, ds))
    ensures Replies(Refill(c, e, now).sendq) == Replies(e.sendq)
  {
    var v := View(e, orig, ab, ba, store, ds);
    RefillSender(c, e, now, orig);
    RefillRefines(c, e, now, orig, ab, ba, store, ds);
    if TakeToken(e).pending != [] { LaunchGood(v, TakeToken(e).pending[0].p); }
  }

  /** Completing a flow, once the completion itself is known to be safe. */
  lemma FinishGood(c: Config, e: Engine, ack: Packet, orig: map<Id, Packet>, ab: seq<Packet>, ba: seq<Packet>, store: map<Id, Message>, ds: seq<Delivery>)
    requires Sender(c, e, orig)
    requires ack.Suback? ==> ack.id in orig && orig[ack.id].Subscribe? && |orig[ack.id].topics| <= |ack.codes|
    requires Good(Complete(View(e, orig, ab, ba, store, ds), ack.MessageId()))
    ensures var e1 := Finish(e, ack);
            !e1.crashed && Sender(c, e1, orig) && Good(View(e1, orig, ab, ba, store, ds)) && e1.sendq == e.sendq
  {
    FinishRefines(c, e, ack, orig, ab, ba, store, ds);
    FinishSender(c, e, ack, orig);
  }

  /** ... and pumping the window after it. */
  lemma InflightDoneGood(c: Config, e: Engine, ack: Packet, now: int, orig: map<Id, Packet>, ab: seq<Packet>, ba: seq<Packet>, store: map<Id, Message>, ds: seq<Delivery>)
    requires Sender(c, e, orig) && EndsFlow(ack)
    requires ack.Suback? ==> ack.id in orig && orig[ack.id].Subscribe? && |orig[ack.id].topics| <= |ack.codes|
    requires Good(Complete(View(e, orig, ab, ba, store, ds), ack.MessageId()))
    ensures Sender(c, InflightDone(c, e, ack, now), orig) && Good(View(InflightDone(c, e, ack, now), orig, ab, ba, store, ds))
    ensures Replies(InflightDone(c, e, ack, now).sendq) == Replies(e.sendq)
  {
    var e1 := Finish(e, ack);
    FinishGood(c, e, ack, orig, ab, ba, store, ds);
    if |e1.inflight| < c.maxSizeOfInflight { RefillGood(c, e1, now, orig, ab, ba, store, ds); }
  }

  /** The packet a Publish or Send call creates is issued under a new identifier. */
  lemma IssueFresh(c: Config, e: Engine, p: Packet, orig: map<Id, Packet>, ab: seq<Packet>, ba: seq<Packet>, store: map<Id, Message>, ds: seq<Delivery>)
    requires Sender(c, e, orig) && Good(View(e, orig, ab, ba, store, ds)) && e.lastMsgId + 1 < 65536
    requires TakesSerial(p) && p.MessageId() == e.lastMsgId + 1
    ensures var v := View(e, orig, ab, ba, store, ds); Good(Issue(v, p)) && p !in v.waiting
  {
    assert p.MessageId() !in orig;
    IssueGood(View(e, orig, ab, ba, store, ds), p);
  }

  /** Publish either issues and launches its packet or leaves it waiting. */
  lemma PublishRefines(c: Config, e: Engine, now: int, qos: nat, body: Message, orig: map<Id, Packet>, ab: seq<Packet>, ba: seq<Packet>, store: map<Id, Message>, ds: seq<Delivery>)
    requires Running(e) && FreshPublish(e, qos, body).p !in View(e, orig, ab, ba, store, ds).waiting
    ensures var p := FreshPublish(e, qos, body).p;
            var v := Issue(View(e, orig, ab, ba, store, ds), p);
            var v' := View(PublishStep(c, e, true, qos, body, now), v.orig, ab, ba, store, ds);
            v' == v || v' == Launch(v, p)
    ensures Replies(PublishStep(c, e, true, qos, body, now).sendq) == Replies(e.sendq)
  {
    var pt, e' := FreshPublish(e, qos, body), PublishStep(c, e, true, qos, body, now);
    if |e.inflight| < c.maxSizeOfInflight && |e.sendq| < c.maxSizeOfPublishMsg {
      var m := InflightMsg(pt, now + c.sentTimeout, 0, now, true);
      assert e'.inflight == e.inflight + [m];
      PushEntry(e.inflight, m);
      RequestPushed(ab, e.sendq, pt.p);
      assert PtPackets(e'.pending) + PtPackets(e'.blocked) == PtPackets(e.pending) + PtPackets(e.blocked) + {pt.p} - {pt.p};
    } else if e.tokens < c.maxSizeOfPublishMsg {
      PushPackets(e.pending, pt);
    } else {
      PushPackets(e.blocked, pt);
    }
  }

  lemma NewKeys(orig: map<Id, Packet>, n: nat, p: Packet)
    requires n + 1 < 65536 && p.MessageId() == n + 1
    requires Keyed(orig, n)
    ensures Keyed(orig[p.MessageId() := p], n + 1)
  {
  }

  lemma PublishSender(c: Config, e: Engine, now: int, qos: nat, body: Message, orig: map<Id, Packet>)
    requires Sender(c, e, orig) && e.lastMsgId + 1 < 65536
    ensures var p := FreshPublish(e, qos, body).p; Sender(c, PublishStep(c, e, true, qos, body, now), orig[p.MessageId() := p])
  {
    var pt, e' := FreshPublish(e, qos, body), PublishStep(c, e, true, qos, body, now);
    var orig' := orig[pt.p.MessageId() := pt.p];
    PublishKeeps(c, e, true, qos, body, now);
    PublishFrame(c, e, qos, body, now);
    NewKeys(orig, e.lastMsgId, pt.p);
    MatchesSurvive(e.inflight, orig, orig');
    assert TokenMatches(pt, orig');
    forall k | 0 <= k < |e'.inflight| ensures TokenMatches(e'.inflight[k].pt, orig') {
      if k < |e.inflight| { assert e'.inflight[k] == e.inflight[k]; } else { assert e'.inflight[k].pt == pt; }
    }
  }

  lemma PublishViewGood(c: Config, e: Engine, now: int, qos: nat, body: Message, orig: map<Id, Packet>, ab: seq<Packet>, ba: seq<Packet>, store: map<Id, Message>, ds: seq<Delivery>)
    requires Sender(c, e, orig) && Good(View(e, orig, ab, ba, store, ds)) && e.lastMsgId + 1 < 65536
    ensures var p, e' := FreshPublish(e, qos, body).p, PublishStep(c, e, true, qos, body, now);
            && Sender(c, e', orig[p.MessageId() := p]) && Good(View(e', orig[p.MessageId() := p], ab, ba, store, ds))
            && Replies(e'.sendq) == Replies(e.sendq)
  {
    var p := FreshPublish(e, qos, body).p;
    IssueFresh(c, e, p, orig, ab, ba, store, ds);
    PublishSender(c, e, now, qos, body, orig);
    PublishRefines(c, e, now, qos, body, orig, ab, ba, store, ds);
    LaunchGood(Issue(View(e, orig, ab, ba, store, ds), p), p);
  }

  lemma PublishMoves(c: Config, s: System, now: int, qos: nat, body: Message)
    ensures var e := s.a.r.e;
            var p := FreshPublish(e, qos, body).p;
            && p == Publish(IdOf(e.lastMsgId + 1), qos, body)
            && ActStep(c, s, Publishing(now, qos, body))
               == s.(a := Peer(s.a.r.(e := PublishStep(c, e, true, qos, body, now)), s.a.orig[p.MessageId() := p]))
  {
  }

  lemma PublishGood(c: Config, s: System, now: int, qos: nat, body: Message)
    requires SysInv(c, s) && s.a.r.e.lastMsgId + 1 < 65536
    ensures SysInv(c, ActStep(c, s, Publishing(now, qos, body)))
  {
    PublishMoves(c, s, now, qos, body);
    PublishedGood(c, s, now, qos, body, FreshPublish(s.a.r.e, qos, body).p, PublishStep(c, s.a.r.e, true, qos, body, now));
  }

  lemma PublishedGood(c: Config, s: System, now: int, qos: nat, body: Message, p: Packet, e: Engine)
    requires SysInv(c, s) && s.a.r.e.lastMsgId + 1 < 65536
    requires p == FreshPublish(s.a.r.e, qos, body).p && e == PublishStep(c, s.a.r.e, true, qos, body, now)
    ensures SysInv(c, s.(a := Peer(s.a.r.(e := e), s.a.orig[p.MessageId() := p])))
  {
    PublishViewGood(c, s.a.r.e, now, qos, body, s.a.orig, Requests(s.ab), RepliesTo(s), s.b.r.store, s.b.r.delivered);
    SenderMoved(c, s, s.(a := Peer(s.a.r.(e := e), s.a.orig[p.MessageId() := p])), e, s.a.orig[p.MessageId() := p]);
  }

  lemma MatchesSurvive(es: seq<InflightMsg>, orig: map<Id, Packet>, orig': map<Id, Packet>)
    requires forall k | 0 <= k < |es| :: TokenMatches(es[k].pt, orig)
    requires forall i | i in orig :: i in orig' && orig'[i] == orig[i]
    ensures forall k | 0 <= k < |es| :: TokenMatches(es[k].pt, orig')
  {
  }

  lemma SendShape(c: Config, e: Engine, now: int, sent: Packet)
    requires Running(e) && TakesSerial(sent)
    ensures var pt, e' := Numbered(sent, e.lastMsgId + 1), SendStep(c, e, sent, now);
            && e'.inflight == e.inflight + [InflightMsg(pt, now + c.sentTimeout, 0, now, false)]
            && e'.sendq == e.sendq + [pt.p]
            && e'.pending == e.pending && e'.blocked == e.blocked && e'.completed == e.completed
            && e'.lastMsgId == e.lastMsgId + 1 && Running(e')
            && pt.p.MessageId() == IdOf(e.lastMsgId + 1) && TakesSerial(pt.p) && pt.t == Numbered(pt.p, e.lastMsgId + 1).t
            && SerialOf(pt) == e.lastMsgId + 1 && pt.t.Some?
  {
  }

  lemma SendSender(c: Config, e: Engine, now: int, sent: Packet, orig: map<Id, Packet>)
    requires Sender(c, e, orig) && e.lastMsgId + 1 < 65536 && TakesSerial(sent)
    ensures var p := Numbered(sent, e.lastMsgId + 1).p; Sender(c, SendStep(c, e, sent, now), orig[p.MessageId() := p])
  {
    var pt, e' := Numbered(sent, e.lastMsgId + 1), SendStep(c, e, sent, now);
    var orig' := orig[pt.p.MessageId() := pt.p];
    SendKeeps(c, e, sent, now);
    SendShape(c, e, now, sent);
    NewKeys(orig, e.lastMsgId, pt.p);
    MatchesSurvive(e.inflight, orig, orig');
    assert TokenMatches(pt, orig');
    forall k | 0 <= k < |e'.inflight| ensures TokenMatches(e'.inflight[k].pt, orig') {
      if k < |e.inflight| { assert e'.inflight[k] == e.inflight[k]; } else { assert e'.inflight[k].pt == pt; }
    }
  }

  lemma SendRefines(c: Config, e: Engine, now: int, sent: Packet, orig: map<Id, Packet>, ab: seq<Packet>, ba: seq<Packet>, store: map<Id, Message>, ds: seq<Delivery>)
    requires Running(e) && TakesSerial(sent)
    requires Numbered(sent, e.lastMsgId + 1).p !in View(e, orig, ab, ba, store, ds).waiting
    ensures var p := Numbered(sent, e.lastMsgId + 1).p;
            var v := Issue(View(e, orig, ab, ba, store, ds), p);
            View(SendStep(c, e, sent, now), v.orig, ab, ba, store, ds) == Launch(v, p)
    ensures Replies(SendStep(c, e, sent, now).sendq) == Replies(e.sendq)
  {
    var pt, e' := Numbered(sent, e.lastMsgId + 1), SendStep(c, e, sent, now);
    SendShape(c, e, now, sent);
    PushEntry(e.inflight, InflightMsg(pt, now + c.sentTimeout, 0, now, false));
    RequestPushed(ab, e.sendq, pt.p);
    assert PtPackets(e.pending) + PtPackets(e.blocked) == PtPackets(e.pending) + PtPackets(e.blocked) + {pt.p} - {pt.p};
  }

  lemma SendLaunches(c: Config, e: Engine, now: int, sent: Packet, orig: map<Id, Packet>, ab: seq<Packet>, ba: seq<Packet>, store: map<Id, Message>, ds: seq<Delivery>)
    requires Running(e) && TakesSerial(sent)
    requires var p := Numbered(sent, e.lastMsgId + 1).p;
             p !in View(e, orig, ab, ba, store, ds).waiting && Good(Issue(View(e, orig, ab, ba, store, ds), p))
    ensures var p, e' := Numbered(sent, e.lastMsgId + 1).p, SendStep(c, e, sent, now);
            Good(View(e', orig[p.MessageId() := p], ab, ba, store, ds)) && Replies(e'.sendq) == Replies(e.sendq)
  {
    SendRefines(c, e, now, sent, orig, ab, ba, store, ds);
    LaunchGood(Issue(View(e, orig, ab, ba, store, ds), Numbered(sent, e.lastMsgId + 1).p), Numbered(sent, e.lastMsgId + 1).p);
  }

  lemma SendViewGood(c: Config, e: Engine, now: int, sent: Packet, orig: map<Id, Packet>, ab: seq<Packet>, ba: seq<Packet>, store: map<Id, Message>, ds: seq<Delivery>)
    requires Sender(c, e, orig) && Good(View(e, orig, ab, ba, store, ds)) && e.lastMsgId + 1 < 65536 && TakesSerial(sent)
    ensures var p, e' := Numbered(sent, e.lastMsgId + 1).p, SendStep(c, e, sent, now);
            && Sender(c, e', orig[p.MessageId() := p]) && Good(View(e', orig[p.MessageId() := p], ab, ba, store, ds))
            && Replies(e'.sendq) == Replies(e.sendq)
  {
    SendShape(c, e, now, sent);
    IssueFresh(c, e, Numbered(sent, e.lastMsgId + 1).p, orig, ab, ba, store, ds);
    SendSender(c, e, now, sent, orig);
    SendLaunches(c, e, now, sent, orig, ab, ba, store, ds);
  }

  lemma SendMoves(c: Config, s: System, now: int, sent: Packet)
    requires TakesSerial(sent)
    ensures var p := Numbered(sent, s.a.r.e.lastMsgId + 1).p;
            ActStep(c, s, Sending(now, sent))
            == s.(a := Peer(s.a.r.(e := SendStep(c, s.a.r.e, sent, now)), s.a.orig[p.MessageId() := p]))
  {
  }

  lemma SendGood(c: Config, s: System, now: int, sent: Packet)
    requires SysInv(c, s) && s.a.r.e.lastMsgId + 1 < 65536 && TakesSerial(sent)
    ensures SysInv(c, ActStep(c, s, Sending(now, sent)))
  {
    SendMoves(c, s, now, sent);
    SentGood(c, s, now, sent, Numbered(sent, s.a.r.e.lastMsgId + 1).p, SendStep(c, s.a.r.e, sent, now));
  }

  lemma SentGood(c: Config, s: System, now: int, sent: Packet, p: Packet, e: Engine)
    requires SysInv(c, s) && s.a.r.e.lastMsgId + 1 < 65536 && TakesSerial(sent)
    requires p == Numbered(sent, s.a.r.e.lastMsgId + 1).p && e == SendStep(c, s.a.r.e, sent, now)
    ensures SysInv(c, s.(a := Peer(s.a.r.(e := e), s.a.orig[p.MessageId() := p])))
  {
    SendViewGood(c, s.a.r.e, now, sent, s.a.orig, Requests(s.ab), RepliesTo(s), s.b.r.store, s.b.r.delivered);
    SenderMoved(c, s, s.(a := Peer(s.a.r.(e := e), s.a.orig[p.MessageId() := p])), e, s.a.orig[p.MessageId() := p]);
  }

  /** A packet of neither kind put into the send queue is seen by neither direction. */
  lemma OtherPacketGood(c: Config, s: System, p: Packet)
    requires SysInv(c, s) && !IsRequest(p) && !IsReply(p)
    ensures SysInv(c, With(s, Enqueue(s.a.r.e, p)))
  {
    var e, e' := s.a.r.e, Enqueue(s.a.r.e, p);
    KindsOne(p);
    KindsPushed(e.sendq, p);
    assert e'.sendq == e.sendq + [p];
    SameBookkeeping(c, e, e');
    assert Abs(With(s, e')) == Abs(s);
    SenderUnnoticed(s, With(s, e'));
    OtherDirection(c, s, With(s, e'));
  }

  lemma FlyingAreRequests(v: Proto, ps: seq<Packet>)
    requires Typed(v) && forall k | 0 <= k < |ps| :: ps[k] in v.flying
    ensures Requests(ps) == ps && Replies(ps) == []
  {
    forall k | 0 <= k < |ps| ensures IsRequest(ps[k]) {
      assert Known(v, ps[k]);
    }
    AllRequests(ps);
  }

  lemma ResendRefines(c: Config, e: Engine, now: int, orig: map<Id, Packet>, ab: seq<Packet>, ba: seq<Packet>, store: map<Id, Message>, ds: seq<Delivery>)
    requires !e.stopped
    requires Requests(DuePackets(e.inflight, now)) == DuePackets(e.inflight, now) && Replies(DuePackets(e.inflight, now)) == []
    ensures View(Resend(c, e, now), orig, ab, ba, store, ds) == Retransmit(View(e, orig, ab, ba, store, ds), DuePackets(e.inflight, now))
    ensures Replies(Resend(c, e, now).sendq) == Replies(e.sendq)
  {
    var ps := DuePackets(e.inflight, now);
    RearmedEntries(c, e, now);
    RequestsConcat(e.sendq, ps);
    RepliesConcat(e.sendq, ps);
    Associate(ab, Requests(e.sendq), ps);
  }

  lemma ResendGood(c: Config, e: Engine, now: int, orig: map<Id, Packet>, ab: seq<Packet>, ba: seq<Packet>, store: map<Id, Message>, ds: seq<Delivery>)
    requires Sender(c, e, orig) && Good(View(e, orig, ab, ba, store, ds))
    ensures Sender(c, Resend(c, e, now), orig) && Good(View(Resend(c, e, now), orig, ab, ba, store, ds))
    ensures Replies(Resend(c, e, now).sendq) == Replies(e.sendq)
  {
    var v, ps := View(e, orig, ab, ba, store, ds), DuePackets(e.inflight, now);
    RearmedEntries(c, e, now);
    FlyingAreRequests(v, ps);
    ResendSender(c, e, now, orig);
    ResendRefines(c, e, now, orig, ab, ba, store, ds);
    RetransmitGood(v, ps);
  }

  lemma ResendSender(c: Config, e: Engine, now: int, orig: map<Id, Packet>)
    requires Sender(c, e, orig)
    ensures Sender(c, Resend(c, e, now), orig)
  {
    SameBookkeeping(c, e, Resend(c, e, now));
  }

  lemma TickViewGood(c: Config, e: Engine, now: int, orig: map<Id, Packet>, ab: seq<Packet>, ba: seq<Packet>, store: map<Id, Message>, ds: seq<Delivery>)
    requires Sender(c, e, orig) && Good(View(e, orig, ab, ba, store, ds))
    ensures Sender(c, TickStep(c, e, now), orig) && Good(View(TickStep(c, e, now), orig, ab, ba, store, ds))
    ensures Replies(TickStep(c, e, now).sendq) == Replies(e.sendq)
  {
    var e1 := Resend(c, e, now);
    ResendGood(c, e, now, orig, ab, ba, store, ds);
    if |e1.inflight| < c.maxSizeOfInflight && |e1.sendq| < c.maxSizeOfPublishMsg {
      RefillGood(c, e1, now, orig, ab, ba, store, ds);
    }
  }

  lemma TickGood(c: Config, s: System, now: int)
    requires SysInv(c, s)
    ensures SysInv(c, ActStep(c, s, Ticking(now)))
  {
    TickViewGood(c, s.a.r.e, now, s.a.orig, Requests(s.ab), RepliesTo(s), s.b.r.store, s.b.r.delivered);
    SenderMoved(c, s, ActStep(c, s, Ticking(now)), TickStep(c, s.a.r.e, now), s.a.orig);
  }

  /** The head of the send queue on the wire: so far nothing has changed in either direction. */
  lemma PoppedGood(c: Config, s: System)
    requires SysInv(c, s) && s.a.r.e.sendq != []
    ensures var e := s.a.r.e;
            SysInv(c, With(s.(ab := s.ab + [e.sendq[0]]), e.(sendq := e.sendq[1..], written := e.written + [e.sendq[0]])))
  {
    var e := s.a.r.e;
    var e1 := e.(sendq := e.sendq[1..], written := e.written + [e.sendq[0]]);
    var s1 := With(s.(ab := s.ab + [e.sendq[0]]), e1);
    KindsMoved(s.ab, e.sendq);
    SameBookkeeping(c, e, e1);
    assert Abs(s1) == Abs(s);
    SenderUnnoticed(s, s1);
    OtherDirection(c, s, s1);
  }

  lemma WriteGood(c: Config, s: System, now: int)
    requires SysInv(c, s)
    ensures SysInv(c, ActStep(c, s, Writing(now)))
  {
    var e := s.a.r.e;
    if e.sendq != [] {
      var p := e.sendq[0];
      var e1 := e.(sendq := e.sendq[1..], written := e.written + [p]);
      var s1 := With(s.(ab := s.ab + [p]), e1);
      PoppedGood(c, s);
      if p.Publish? && p.qos == 0 { WrittenAtQos0(c, s1, p, now); }
    }
  }

  /** A QoS 0 publish is done as soon as it is on the wire. */
  lemma WrittenAtQos0(c: Config, s: System, p: Packet, now: int)
    requires SysInv(c, s) && p.Publish? && p.qos == 0 && s.ab != [] && s.ab[|s.ab| - 1] == p
    ensures SysInv(c, With(s, InflightDone(c, s.a.r.e, p, now)))
  {
    var v := Abs(s);
    assert Requests(s.ab)[|Requests(s.ab)| - 1] == p;
    assert p in v.ab && Known(v, p);
    CompleteGood(v, p.id);
    InflightDoneGood(c, s.a.r.e, p, now, s.a.orig, Requests(s.ab), RepliesTo(s), s.b.r.store, s.b.r.delivered);
    SenderMoved(c, s, With(s, InflightDone(c, s.a.r.e, p, now)), InflightDone(c, s.a.r.e, p, now), s.a.orig);
  }

  lemma PubrecRefines(e: Engine, i: Id, orig: map<Id, Packet>, ab: seq<Packet>, ba: seq<Packet>, store: map<Id, Message>, ds: seq<Delivery>)
    requires !e.stopped && ba != [] && ba[0] == Pubrec(i)
    ensures View(OnPubrec(e, i), orig, ab, ba[1..], store, ds) == SenderReceives(View(e, orig, ab, ba, store, ds))
    ensures Replies(OnPubrec(e, i).sendq) == Replies(e.sendq)
  {
    ReleasedEntries(e.inflight, i);
    RequestPushed(ab, e.sendq, Pubrel(i));
  }

  lemma ReplyAtHead(s: System)
    requires s.ba != [] && IsReply(s.ba[0])
    ensures RepliesTo(s) != [] && RepliesTo(s)[0] == s.ba[0] && RepliesTo(s)[1..] == Replies(s.ba[1..]) + Replies(s.b.r.e.sendq)
    ensures Requests(s.ba) == Requests(s.ba[1..])
  {
    KindsHead(s.ba);
    Behind(s.ba[0], Replies(s.ba[1..]), Replies(s.b.r.e.sendq));
  }

  lemma Behind(p: Packet, q: seq<Packet>, r: seq<Packet>)
    ensures var t := ([p] + q) + r; t[0] == p && t[1..] == q + r
  {
  }

  lemma TakePubrecGood(c: Config, e: Engine, i: Id, orig: map<Id, Packet>, ab: seq<Packet>, ba: seq<Packet>, store: map<Id, Message>, ds: seq<Delivery>)
    requires Sender(c, e, orig) && Good(View(e, orig, ab, ba, store, ds)) && ba != [] && ba[0] == Pubrec(i)
    ensures Sender(c, OnPubrec(e, i), orig) && Good(View(OnPubrec(e, i), orig, ab, ba[1..], store, ds))
    ensures Replies(OnPubrec(e, i).sendq) == Replies(e.sendq)
  {
    SenderReceivesGood(View(e, orig, ab, ba, store, ds));
    PubrecSender(c, e, i, orig);
    PubrecRefines(e, i, orig, ab, ba, store, ds);
  }

  lemma TakeAckGood(c: Config, e: Engine, ack: Packet, now: int, orig: map<Id, Packet>, ab: seq<Packet>, ba: seq<Packet>, store: map<Id, Message>, ds: seq<Delivery>)
    requires Sender(c, e, orig) && Good(View(e, orig, ab, ba, store, ds)) && ba != [] && ba[0] == ack && !ack.Pubrec?
    ensures var e' := InflightDone(c, e, ack, now);
            Sender(c, e', orig) && Good(View(e', orig, ab, ba[1..], store, ds)) && Replies(e'.sendq) == Replies(e.sendq)
  {
    var v := View(e, orig, ab, ba, store, ds);
    assert ack in v.ba && ReplyOk(v, ack);
    SenderReceivesGood(v);
    assert SenderReceives(v) == Complete(View(e, orig, ab, ba[1..], store, ds), ack.MessageId());
    InflightDoneGood(c, e, ack, now, orig, ab, ba[1..], store, ds);
  }

  lemma TakeReplyViewGood(c: Config, e: Engine, p: Packet, now: int, orig: map<Id, Packet>, ab: seq<Packet>, ba: seq<Packet>, store: map<Id, Message>, ds: seq<Delivery>)
    requires Sender(c, e, orig) && Good(View(e, orig, ab, ba, store, ds)) && ba != [] && ba[0] == p && IsReply(p)
    ensures var e' := ReceiveStep(c, e, p, now);
            Sender(c, e', orig) && Good(View(e', orig, ab, ba[1..], store, ds)) && Replies(e'.sendq) == Replies(e.sendq)
  {
    if p.Pubrec? {
      TakePubrecGood(c, e, p.id, orig, ab, ba, store, ds);
    } else {
      TakeAckGood(c, e, p, now, orig, ab, ba, store, ds);
    }
  }

  lemma TakeReplyMoves(c: Config, s: System, now: int, codes: seq<Byte>)
    requires s.ba != [] && IsReply(s.ba[0])
    ensures ActStep(c, s, Taking(now, codes)) == With(s.(ba := s.ba[1..]), ReceiveStep(c, s.a.r.e, s.ba[0], now))
  {
  }

  /** A reply taken off the wire is none of the other direction's requests. */
  lemma ReplyTaken(c: Config, s: System, s': System, e: Engine)
    requires Half(c, Flip(s)) && s.ba != [] && RepliesTo(s) != [] && s' == With(s.(ba := s.ba[1..]), e)
    requires Sender(c, e, s.a.orig) && Good(View(e, s.a.orig, Requests(s.ab), RepliesTo(s)[1..], s.b.r.store, s.b.r.delivered))
    requires Replies(e.sendq) == Replies(s.a.r.e.sendq) && RepliesTo(s)[1..] == RepliesTo(s') && Requests(s'.ba) == Requests(s.ba)
    ensures SysInv(c, s')
  {
    assert Unnoticed(s, s');
    OtherDirection(c, s, s');
  }

  lemma TakeReplyGood(c: Config, s: System, now: int, codes: seq<Byte>)
    requires SysInv(c, s) && s.ba != [] && IsReply(s.ba[0])
    ensures SysInv(c, ActStep(c, s, Taking(now, codes)))
  {
    ReplyAtHead(s);
    TakeReplyViewGood(c, s.a.r.e, s.ba[0], now, s.a.orig, Requests(s.ab), RepliesTo(s), s.b.r.store, s.b.r.delivered);
    TakeReplyMoves(c, s, now, codes);
    ReplyTaken(c, s, ActStep(c, s, Taking(now, codes)), ReceiveStep(c, s.a.r.e, s.ba[0], now));
  }

  /** The receiving side's handlers compute exactly the protocol's reply, store and deliveries. */
  lemma ReceiverRefines(r: Receiver, p: Packet, codes: seq<Byte>)
    requires !r.e.stopped
    ensures var r' := ReceiverStep(r, p, codes);
            && r'.e == r.e.(sendq := r.e.sendq + ReplyTo(p, codes))
            && r'.store == StoreAfter(r.store, p)
            && r'.delivered == r.delivered + DeliveriesOf(r.store, p)
  {
  }

  lemma RepliesPushed(wire: seq<Packet>, q: seq<Packet>, p: Packet, codes: seq<Byte>)
    ensures wire + Replies(q + ReplyTo(p, codes)) == wire + Replies(q) + ReplyTo(p, codes)
    ensures Requests(q + ReplyTo(p, codes)) == Requests(q)
  {
    var r := ReplyTo(p, codes);
    if r == [] { assert q + r == q; } else { ReplyPushed(wire, q, r[0]); assert r == [r[0]]; }
  }

  lemma RequestAtHead(s: System)
    requires s.ba != [] && IsRequest(s.ba[0])
    ensures Abs(Flip(s)).ab == [s.ba[0]] + (Requests(s.ba[1..]) + Requests(s.b.r.e.sendq))
    ensures Replies(s.ba) == Replies(s.ba[1..])
  {
    KindsHead(s.ba);
  }

  /** A request taken off the wire: a step of the other direction's receiver, and none of this direction. */
  lemma TakeRequestRefines(c: Config, s: System, now: int, codes: seq<Byte>)
    requires s.ba != [] && IsRequest(s.ba[0]) && !s.a.r.e.stopped
    ensures var s', v := ActStep(c, s, Taking(now, codes)), Abs(Flip(s));
            && v.ab != [] && v.ab[0] == s.ba[0]
            && Abs(Flip(s')) == ReceiverReceives(v, codes) && Abs(s') == Abs(s) && s'.b == s.b
            && s'.a == s.a.(r := s'.a.r) && s'.a.r.e == s.a.r.e.(sendq := s'.a.r.e.sendq)
  {
    var v := Abs(Flip(s));
    RequestAtHead(s);
    assert v.ab[1..] == Requests(s.ba[1..]) + Requests(s.b.r.e.sendq);
    ReceiverRefines(s.a.r, s.ba[0], codes);
    RepliesPushed(Replies(s.ab), s.a.r.e.sendq, s.ba[0], codes);
  }

  lemma TakeRequestGood(c: Config, s: System, now: int, codes: seq<Byte>)
    requires SysInv(c, s) && s.ba != [] && IsRequest(s.ba[0]) && CodesFor(s.ba[0], codes)
    ensures SysInv(c, ActStep(c, s, Taking(now, codes)))
  {
    TakeRequestRefines(c, s, now, codes);
    ReceiverReceivesGood(Abs(Flip(s)), codes);
    SendqChanged(c, s.a.r.e, ActStep(c, s, Taking(now, codes)).a.r.e, s.a.orig);
  }

  lemma SendqChanged(c: Config, e: Engine, e': Engine, orig: map<Id, Packet>)
    requires Sender(c, e, orig) && e' == e.(sendq := e'.sendq)
    ensures Sender(c, e', orig)
  {
    SameBookkeeping(c, e, e');
  }

  lemma OtherUnseen(s: System)
    requires s.ba != [] && Requests([s.ba[0]]) == [] == Replies([s.ba[0]])
    ensures Requests(s.ba[1..]) == Requests(s.ba) && Replies(s.ba[1..]) == Replies(s.ba)
  {
    KindsPopped(s.ba);
  }

  lemma OtherDropped(c: Config, s: System, s1: System)
    requires SysInv(c, s) && s1 == s.(ba := s1.ba) && Requests(s1.ba) == Requests(s.ba) && Replies(s1.ba) == Replies(s.ba)
    ensures SysInv(c, s1)
  {
  }

  lemma OtherTaken(c: Config, s: System)
    requires SysInv(c, s) && s.ba != [] && !IsRequest(s.ba[0]) && !IsReply(s.ba[0])
    ensures SysInv(c, s.(ba := s.ba[1..]))
  {
    KindsOne(s.ba[0]);
    OtherUnseen(s);
    OtherDropped(c, s, s.(ba := s.ba[1..]));
  }

  /** A ping, or its answer, taken off the wire. */
  lemma TakeOtherGood(c: Config, s: System, now: int, codes: seq<Byte>)
    requires SysInv(c, s) && s.ba != [] && !IsRequest(s.ba[0]) && !IsReply(s.ba[0])
    ensures SysInv(c, ActStep(c, s, Taking(now, codes)))
  {
    TakeOtherMoves(c, s, now, codes);
    OtherTaken(c, s);
    if s.ba[0].Pingreq? { OtherPacketGood(c, s.(ba := s.ba[1..]), Pingresp); }
  }

  lemma TakeOtherMoves(c: Config, s: System, now: int, codes: seq<Byte>)
    requires s.ba != [] && !IsRequest(s.ba[0]) && !IsReply(s.ba[0])
    ensures var s1 := s.(ba := s.ba[1..]);
            ActStep(c, s, Taking(now, codes)) == if s.ba[0].Pingreq? then With(s1, Enqueue(s.a.r.e, Pingresp)) else s1
  {
  }

  lemma ActGood(c: Config, s: System, act: Act)
    requires SysInv(c, s) && AllowedAct(s, act)
    ensures SysInv(c, ActStep(c, s, act))
  {
    match act
    case Publishing(now, qos, body) => PublishGood(c, s, now, qos, body);
    case Sending(now, sent) => if TakesSerial(sent) { SendGood(c, s, now, sent); } else { OtherPacketGood(c, s, sent); }
    case Ticking(now) => TickGood(c, s, now);
    case Writing(now) => WriteGood(c, s, now);
    case Taking(now, codes) =>
      if s.ba == [] {
      } else if IsRequest(s.ba[0]) {
        TakeRequestGood(c, s, now, codes);
      } else if IsReply(s.ba[0]) {
        TakeReplyGood(c, s, now, codes);
      } else {
        TakeOtherGood(c, s, now, codes);
      }
  }

  lemma StepGood(c: Config, s: System, m: Move)
    requires SysInv(c, s) && Allowed(s, m)
    ensures SysInv(c, Step(c, s, m))
  {
    ActGood(c, if m.byB then Flip(s) else s, m.act);
  }

  lemma {:induction false} PlayGood(c: Config, ms: seq<Move>)
    requires AllowedRun(c, ms)
    ensures SysInv(c, Play(c, ms))
  {
    if ms == [] {
      assert Abs(Start) == Proto(map[], {}, {}, {}, [], [], map[], []);
    } else {
      PlayGood(c, ms[..|ms| - 1]);
      StepGood(c, Play(c, ms[..|ms| - 1]), ms[|ms| - 1]);
    }
  }
}
