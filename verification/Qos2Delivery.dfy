/**
  What two sessions deliver to each other: the message that a Publish or Send call hands over, at most once,
  exactly once or at least once, nothing else, and nothing forgotten.
*/
module Qos2Delivery {
  import opened Common
  import opened Engine
  import opened EngineInvariants
  import opened EngineOrder
  import opened Qos2Protocol
  import opened Qos2Progress
  import opened Qos2Sessions

  // ---------------------------------------------------------------- what was handed over

  /** The run as its sender sees it, for either direction. */
  function From(c: Config, ms: seq<Move>, b: bool): System {
    if b then Flip(Play(c, ms)) else Play(c, ms)
  }

  /** The packet that an act of Publish or Send hands over as number n. */
  function HandedOver(act: Act, n: nat): Option<Packet> {
    match act
    case Publishing(_, qos, body) => Some(Publish(IdOf(n), qos, body))
    case Sending(_, p) => if TakesSerial(p) then Some(WithId(p, IdOf(n))) else None
    case _ => None
  }

  /** Everything one side's callers have handed over, in the order of the calls: a matter of the moves alone. */
  function Handed(ms: seq<Move>, b: bool): (ps: seq<Packet>) {
    if ms == [] then []
    else
      var ps, m := Handed(ms[..|ms| - 1], b), ms[|ms| - 1];
      var p := HandedOver(m.act, |ps| + 1);
      if m.byB == b && p.Some? then ps + [p.value] else ps
  }

  /** Whatever comes later, what the k-th move hands over stays at its place. */
  lemma {:induction false} HandedAt(ms: seq<Move>, k: nat)
    requires k < |ms| && HandedOver(ms[k].act, 1).Some?
    ensures var b := ms[k].byB;
            var n := |Handed(ms[..k], b)|;
            n < |Handed(ms, b)| && Some(Handed(ms, b)[n]) == HandedOver(ms[k].act, n + 1)
  {
    var ms0 := ms[..|ms| - 1];
    if k == |ms| - 1 {
    } else {
      assert ms0[..k] == ms[..k];
      HandedAt(ms0, k);
    }
  }

  /** The records of one side are what was handed over to it. */
  ghost predicate Logged(s: System, ps: seq<Packet>) {
    && |ps| == s.a.r.e.lastMsgId < 65536
    && (forall i: Id :: i in s.a.orig <==> 1 <= i <= |ps|)
    && (forall k | 0 <= k < |ps| :: s.a.orig[k + 1] == ps[k])
  }

  lemma ActLogs(c: Config, s: System, act: Act, ps: seq<Packet>)
    requires Logged(s, ps) && AllowedAct(s, act) && !s.a.r.e.stopped
    ensures var s', p := ActStep(c, s, act), HandedOver(act, |ps| + 1);
            s'.b == s.b && Logged(s', if p.Some? then ps + [p.value] else ps)
  {
    var s', e := ActStep(c, s, act), s.a.r.e;
    match act
    case Publishing(now, qos, body) => PublishPlaces(c, e, true, qos, body, now);
    case Sending(now, sent) => SendPlaces(c, e, sent, now);
    case Ticking(now) => CounterKept(c, e, now);
    case Writing(now) => CounterKept(c, e, now);
    case Taking(now, codes) => if s.ba != [] { TakeKeepsCounter(c, s.a.r, s.ba[0], now, codes); }
  }

  lemma DoneKeepsCounter(c: Config, e: Engine, p: Packet, now: int)
    ensures InflightDone(c, e, p, now).lastMsgId == e.lastMsgId
  {
    var e1 := if EndsFlow(p) then Finish(e, p) else e;
    FinishFrame(e, p);
    RefillFrame(c, e1, now);
  }

  lemma CounterKept(c: Config, e: Engine, now: int)
    ensures TickStep(c, e, now).lastMsgId == e.lastMsgId && WriteStep(c, e, true, now).lastMsgId == e.lastMsgId
  {
    RefillFrame(c, Resend(c, e, now), now);
    if e.sendq != [] { DoneKeepsCounter(c, e.(sendq := e.sendq[1..], written := e.written + [e.sendq[0]]), e.sendq[0], now); }
  }

  lemma TakeKeepsCounter(c: Config, r: Receiver, p: Packet, now: int, codes: seq<Byte>)
    requires !r.e.stopped
    ensures Take(c, r, p, now, codes).e.lastMsgId == r.e.lastMsgId
  {
    if IsRequest(p) { ReceiverRefines(r, p, codes); } else { DoneKeepsCounter(c, r.e, p, now); }
  }

  lemma HalfIsRunning(c: Config, s: System)
    requires Half(c, s)
    ensures !s.a.r.e.stopped
  {
  }

  lemma OtherSideStays(c: Config, s: System, act: Act)
    ensures ActStep(c, s, act).b == s.b
  {
  }

  /** The last move seen from one side: its own act, or nothing. */
  lemma LastMove(c: Config, ms: seq<Move>, b: bool)
    requires AllowedRun(c, ms) && ms != []
    ensures var ms0, m := ms[..|ms| - 1], ms[|ms| - 1];
            var s, s' := From(c, ms0, b), From(c, ms, b);
            && AllowedRun(c, ms0) && Half(c, s)
            && if m.byB == b then AllowedAct(s, m.act) && s' == ActStep(c, s, m.act) else s'.a == s.a
  {
    var ms0, m := ms[..|ms| - 1], ms[|ms| - 1];
    PlayGood(c, ms0);
    if m.byB != b { OtherSideStays(c, From(c, ms0, m.byB), m.act); }
  }

  /** One more move, of either side. */
  lemma MoveLogs(c: Config, s: System, s': System, own: bool, act: Act, ps: seq<Packet>)
    requires Logged(s, ps) && !s.a.r.e.stopped
    requires if own then AllowedAct(s, act) && s' == ActStep(c, s, act) else s'.a == s.a
    ensures var p := HandedOver(act, |ps| + 1); Logged(s', if own && p.Some? then ps + [p.value] else ps)
  {
    if own { ActLogs(c, s, act, ps); }
  }

  lemma {:induction false} RunLogs(c: Config, ms: seq<Move>, b: bool)
    requires AllowedRun(c, ms)
    ensures Logged(From(c, ms, b), Handed(ms, b))
  {
    if ms != [] {
      var ms0, m := ms[..|ms| - 1], ms[|ms| - 1];
      LastMove(c, ms, b);
      RunLogs(c, ms0, b);
      HalfIsRunning(c, From(c, ms0, b));
      MoveLogs(c, From(c, ms0, b), From(c, ms, b), m.byB == b, m.act, Handed(ms0, b));
    }
  }

  // ---------------------------------------------------------------- theorems

  lemma CompletedIsDone(s: System, i: Id)
    requires i in s.a.r.e.completed
    ensures i in Abs(s).done
  {
    var done := s.a.r.e.completed;
    var k :| 0 <= k < |done| && done[k] == i;
    assert IdOf(done[k]) == i;
  }

  lemma OnceInState(c: Config, s: System, i: Id, body: Message)
    requires Half(c, s) && i in s.a.orig && s.a.orig[i] == Publish(i, 2, body)
    ensures Times(s.b.r.delivered, i) <= 1
    ensures i in s.a.r.e.completed ==> Times(s.b.r.delivered, i) == 1
  {
    var v := Abs(s);
    assert SafeFor(v, i) && Handshake(v, i);
    if i in s.a.r.e.completed { CompletedIsDone(s, i); }
  }

  lemma GenuineInState(c: Config, s: System, d: Delivery)
    requires Half(c, s) && d in s.b.r.delivered
    ensures d.id in s.a.orig && s.a.orig[d.id] == Publish(d.id, d.qos, d.body)
  {
    assert Genuine(Abs(s), d);
  }

  /**
    QoS 2 exactly once, over every run and in both directions at once: the n-th message handed over on one side is
    delivered at most once, as it is and as nothing else, and once its token has completed exactly once.
  */
  lemma ExactlyOnce(c: Config, ms: seq<Move>, b: bool, n: nat, body: Message)
    requires AllowedRun(c, ms) && 1 <= n <= |Handed(ms, b)| && Handed(ms, b)[n - 1] == Publish(IdOf(n), 2, body)
    ensures var s := From(c, ms, b);
            && n < 65536 && Times(s.b.r.delivered, n) <= 1
            && (n in s.a.r.e.completed ==> Times(s.b.r.delivered, n) == 1)
            && forall d | d in s.b.r.delivered && d.id == n :: d == Delivery(n, 2, body)
  {
    var s := From(c, ms, b);
    PlayGood(c, ms);
    RunLogs(c, ms, b);
    OnceInState(c, s, n, body);
    forall d | d in s.b.r.delivered && d.id == n ensures d == Delivery(n, 2, body) {
      GenuineInState(c, s, d);
    }
  }

  lemma AckedInState(c: Config, s: System, i: Id, body: Message)
    requires Half(c, s) && i in s.a.orig && s.a.orig[i] == Publish(i, 1, body) && i in s.a.r.e.completed
    ensures Delivery(i, 1, body) in s.b.r.delivered
  {
    assert AckedFor(Abs(s), i);
    CompletedIsDone(s, i);
  }

  /** QoS 1 at least once: the n-th message handed over was delivered, as it is, once its token has completed. */
  lemma AtLeastOnce(c: Config, ms: seq<Move>, b: bool, n: nat, body: Message)
    requires AllowedRun(c, ms) && 1 <= n <= |Handed(ms, b)| && Handed(ms, b)[n - 1] == Publish(IdOf(n), 1, body)
    ensures var s := From(c, ms, b);
            n < 65536 && (n in s.a.r.e.completed ==> Delivery(n, 1, body) in s.b.r.delivered)
  {
    PlayGood(c, ms);
    RunLogs(c, ms, b);
    if n in From(c, ms, b).a.r.e.completed { AckedInState(c, From(c, ms, b), n, body); }
  }

  /** Nothing is delivered that was not handed over, at any QoS. */
  lemma OnlyWhatWasHandedOver(c: Config, ms: seq<Move>, b: bool, d: Delivery)
    requires AllowedRun(c, ms) && d in From(c, ms, b).b.r.delivered
    ensures 1 <= d.id <= |Handed(ms, b)| && Handed(ms, b)[d.id - 1] == Publish(d.id, d.qos, d.body)
  {
    PlayGood(c, ms);
    RunLogs(c, ms, b);
    GenuineInState(c, From(c, ms, b), d);
  }

  // ---------------------------------------------------------------- and nothing is forgotten

  /** Every QoS 0 publish in flight is still in the send queue: writing it ends its flow. */
  ghost predicate Unwritten(e: Engine) {
    forall k | 0 <= k < |e.inflight| && Q0(e.inflight[k].pt.p) :: e.inflight[k].pt.p in e.sendq
  }

  lemma RefillUnwritten(c: Config, e: Engine, now: int)
    requires Unwritten(e)
    ensures Unwritten(Refill(c, e, now))
  {
  }

  lemma DoneUnwritten(c: Config, e: Engine, p: Packet, now: int)
    requires Unwritten(e)
    ensures Unwritten(InflightDone(c, e, p, now))
  {
    var e1 := if EndsFlow(p) then Finish(e, p) else e;
    assert Unwritten(e1);
    RefillUnwritten(c, e1, now);
  }

  lemma WriteUnwritten(c: Config, e: Engine, now: int)
    requires Unwritten(e) && TokensOk(e) && InWindow(e)
    ensures Unwritten(WriteStep(c, e, true, now))
  {
    if e.sendq != [] {
      var p, e1 := e.sendq[0], e.(sendq := e.sendq[1..], written := e.written + [e.sendq[0]]);
      if Q0(p) {
        FinishedUnwritten(e, e1);
        RefillUnwritten(c, Finish(e1, p), now);
      }
    }
  }

  lemma FinishedUnwritten(e: Engine, e1: Engine)
    requires Unwritten(e) && TokensOk(e) && InWindow(e) && e.sendq != [] && Q0(e.sendq[0])
    requires e1.inflight == e.inflight && e1.sendq == e.sendq[1..]
    ensures Unwritten(Finish(e1, e.sendq[0]))
  {
    var p, es := e.sendq[0], Finish(e1, e.sendq[0]).inflight;
    forall k | 0 <= k < |es| && Q0(es[k].pt.p) ensures es[k].pt.p in e.sendq[1..] {
      LeftIsOther(e, p, k);
    }
  }

  /** What is left in flight after finishing p's flow is not p. */
  lemma LeftIsOther(e: Engine, p: Packet, k: nat)
    requires TokensOk(e) && InWindow(e)
    requires var f := FirstWithId(e.inflight, p.MessageId());
             k < |e.inflight| - (if f < |e.inflight| then 1 else 0)
    ensures var f := FirstWithId(e.inflight, p.MessageId());
            var es := if f < |e.inflight| then e.inflight[..f] + e.inflight[f + 1..] else e.inflight;
            es[k] in e.inflight && es[k].pt.p != p
  {
    var f := FirstWithId(e.inflight, p.MessageId());
    if f < |e.inflight| { EntryIdsDistinct(e, f, if k < f then k else k + 1); }
  }

  lemma SenderFacts(c: Config, s: System)
    requires Half(c, s)
    ensures var e := s.a.r.e; TokensOk(e) && InWindow(e) && !e.stopped && Accounted(e) && e.lastMsgId < 65536
  {
    EntriesInWindow(c, s.a.r.e, s.a.orig);
  }

  lemma ActUnwritten(c: Config, s: System, act: Act)
    requires Unwritten(s.a.r.e) && TokensOk(s.a.r.e) && InWindow(s.a.r.e) && !s.a.r.e.stopped
    ensures Unwritten(ActStep(c, s, act).a.r.e)
  {
    var e := s.a.r.e;
    match act
    case Publishing(now, qos, body) => PublishUnwritten(c, e, now, qos, body);
    case Sending(now, sent) => SendUnwritten(c, e, now, sent);
    case Ticking(now) => TickUnwritten(c, e, now);
    case Writing(now) => WriteUnwritten(c, e, now);
    case Taking(now, codes) => if s.ba != [] { TakeUnwritten(c, s.a.r, s.ba[0], now, codes); }
  }

  lemma PublishUnwritten(c: Config, e: Engine, now: int, qos: nat, body: Message)
    requires Unwritten(e)
    ensures Unwritten(PublishStep(c, e, true, qos, body, now))
  {
  }

  lemma SendUnwritten(c: Config, e: Engine, now: int, sent: Packet)
    requires Unwritten(e)
    ensures Unwritten(SendStep(c, e, sent, now))
  {
  }

  lemma TickUnwritten(c: Config, e: Engine, now: int)
    requires Unwritten(e) && !e.stopped
    ensures Unwritten(TickStep(c, e, now))
  {
    assert Unwritten(Resend(c, e, now));
    RefillUnwritten(c, Resend(c, e, now), now);
  }

  lemma TakeUnwritten(c: Config, r: Receiver, p: Packet, now: int, codes: seq<Byte>)
    requires Unwritten(r.e) && !r.e.stopped
    ensures Unwritten(Take(c, r, p, now, codes).e)
  {
    if IsRequest(p) {
      ReceiverRefines(r, p, codes);
    } else if EndsFlow(p) {
      DoneUnwritten(c, r.e, p, now);
    }
  }

  lemma MoveUnwritten(c: Config, s: System, s': System, own: bool, act: Act)
    requires Unwritten(s.a.r.e) && Half(c, s)
    requires if own then s' == ActStep(c, s, act) else s'.a == s.a
    ensures Unwritten(s'.a.r.e)
  {
    if own {
      SenderFacts(c, s);
      ActUnwritten(c, s, act);
    }
  }

  lemma {:induction false} PlayUnwritten(c: Config, ms: seq<Move>, b: bool)
    requires AllowedRun(c, ms)
    ensures Unwritten(From(c, ms, b).a.r.e)
  {
    if ms != [] {
      var ms0, m := ms[..|ms| - 1], ms[|ms| - 1];
      LastMove(c, ms, b);
      PlayUnwritten(c, ms0, b);
      MoveUnwritten(c, From(c, ms0, b), From(c, ms, b), m.byB == b, m.act);
    }
  }

  /** Nothing is queued or under way in either direction. */
  predicate Still(s: System) {
    s.ab == [] && s.ba == [] && s.a.r.e.sendq == [] && s.b.r.e.sendq == []
  }

  lemma SettledInState(c: Config, s: System, n: nat, p: Packet)
    requires Half(c, s) && Unwritten(s.a.r.e) && Still(s) && n < 65536 && n in s.a.orig && s.a.orig[n] == p
    requires (p.Publish? ==> p.qos <= 2) && p !in PtPackets(s.a.r.e.pending) + PtPackets(s.a.r.e.blocked)
    ensures n in Abs(s).done
    ensures p.Publish? && p.qos == 0 ==> Delivery(n, 0, p.body) in s.b.r.delivered
  {
    var v := Abs(s);
    Settled(v, n);
    assert forall q | q in v.flying :: Known(v, q);
  }

  lemma DoneIsCompleted(e: Engine, n: nat)
    requires Accounted(e) && e.lastMsgId < 65536 && 1 <= n < 65536 && n in Ids(e.completed)
    ensures n in e.completed
  {
    var k :| 0 <= k < |e.completed| && IdOf(e.completed[k]) == n;
    CountBounds(e.completed, e.completed[k]);
    SerialsAreIssued(e, e.completed[k]);
  }

  lemma {:induction false} TimesSome(ds: seq<Delivery>, i: Id) returns (d: Delivery)
    requires Times(ds, i) > 0
    ensures d in ds && d.qos == 2 && d.id == i
  {
    var n := |ds| - 1;
    if ds[n].qos == 2 && ds[n].id == i { d := ds[n]; } else { d := TimesSome(ds[..n], i); }
  }

  /**
    Nothing is forgotten: when nothing is queued or under way, every message that was handed over has its token completed
    and was delivered, exactly once at QoS 2, or is still waiting for the window.
  */
  lemma SettledMeansDelivered(c: Config, ms: seq<Move>, b: bool, n: nat, qos: nat, body: Message)
    requires AllowedRun(c, ms) && 1 <= n <= |Handed(ms, b)| && Handed(ms, b)[n - 1] == Publish(IdOf(n), qos, body) && qos <= 2
    requires Still(From(c, ms, b))
    ensures var s := From(c, ms, b);
            && n < 65536
            && (|| Publish(n, qos, body) in PtPackets(s.a.r.e.pending) + PtPackets(s.a.r.e.blocked)
                || (&& n in s.a.r.e.completed && Delivery(n, qos, body) in s.b.r.delivered
                    && (qos == 2 ==> Times(s.b.r.delivered, n) == 1)))
  {
    var s := From(c, ms, b);
    PlayGood(c, ms);
    PlayUnwritten(c, ms, b);
    RunLogs(c, ms, b);
    if Publish(n, qos, body) !in PtPackets(s.a.r.e.pending) + PtPackets(s.a.r.e.blocked) {
      SettledInState(c, s, n, Publish(n, qos, body));
      SenderFacts(c, s);
      DoneIsCompleted(s.a.r.e, n);
      if qos == 2 {
        ExactlyOnce(c, ms, b, n, body);
        var d := TimesSome(s.b.r.delivered, n);
      } else if qos == 1 {
        AtLeastOnce(c, ms, b, n, body);
      }
    }
  }

  /** The requests queued from one side to the other, on the wire or in the send queue. */
  ghost function Queued(s: System): seq<Packet> {
    Requests(s.ab) + Requests(s.a.r.e.sendq)
  }

  /** The invariant behind exactly once: the requests queued about one identifier are PUBLISH* PUBREL*. */
  lemma QueuedTrafficShape(c: Config, ms: seq<Move>, b: bool, i: Id, k: nat, l: nat)
    requires AllowedRun(c, ms)
    requires i in From(c, ms, b).a.orig && Q2(From(c, ms, b).a.orig[i])
    requires var q := Queued(From(c, ms, b)); k < l < |q| && q[k] == Pubrel(i) && q[l].MessageId() == i
    ensures Queued(From(c, ms, b))[l] == Pubrel(i)
  {
    PlayGood(c, ms);
    var v := Abs(From(c, ms, b));
    assert SafeFor(v, i) && Handshake(v, i);
    assert v.ab[l] in v.ab && Known(v, v.ab[l]);
  }
}
