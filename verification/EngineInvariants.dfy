/**
  What every reachable state of the delivery engine keeps: conservation of accepted packets, single
  completion of tokens, and the bounds of the window and of the pending queue.
*/
module EngineInvariants {
  import opened Common
  import opened Engine

  // ---------------------------------------------------------------- the invariant

  /** Identifiers are the token's serial modulo 65536, and real serials start at 1. */
  ghost predicate TokenOk(pt: PacketAndToken) {
    pt.t.Some? ==> pt.t.value.serial >= 1 && pt.p.MessageId() == IdOf(pt.t.value.serial)
  }

  ghost predicate QueuedOk(pt: PacketAndToken) {
    TokenOk(pt) && pt.p.Publish? && pt.t.Some? && pt.t.value.PublishToken?
  }

  ghost predicate TokensOk(e: Engine) {
    && (forall k | 0 <= k < |e.inflight| :: TokenOk(e.inflight[k].pt))
    && (forall k | 0 <= k < |e.pending| :: QueuedOk(e.pending[k]))
    && (forall k | 0 <= k < |e.blocked| :: QueuedOk(e.blocked[k]))
  }

  ghost predicate Ascending(ss: seq<nat>, top: nat) {
    && (forall i, j | 0 <= i < j < |ss| :: ss[i] < ss[j])
    && (forall i | 0 <= i < |ss| :: 1 <= ss[i] <= top)
  }

  /** How often x occurs in ss. */
  ghost function Count<T>(ss: seq<T>, x: T): nat {
    if ss == [] then 0 else Count(ss[..|ss| - 1], x) + (if ss[|ss| - 1] == x then 1 else 0)
  }

  /** How often a serial is found in all the places a packet can be: completed, in flight, pending, blocked. */
  ghost function Tally(e: Engine, s: nat): nat {
    Count(e.completed, s) + Count(EntrySerials(e.inflight), s) + Count(PtSerials(e.pending), s) + Count(PtSerials(e.blocked), s)
  }

  ghost predicate Running(e: Engine) {
    !e.stopped && !e.crashed
  }

  ghost predicate Accounted(e: Engine) {
    && Ascending(e.issued, e.lastMsgId)
    && (forall s: nat | s >= 1 :: Tally(e, s) <= Count(e.issued, s))
    && (Running(e) ==> forall s: nat | s >= 1 :: Tally(e, s) == Count(e.issued, s))
  }

  ghost function Flags(es: seq<InflightMsg>): seq<bool> {
    seq(|es|, i requires 0 <= i < |es| => es[i].windowed)
  }

  /** How many entries came through the window, that is through insert2Inflight. */
  ghost function Windowed(es: seq<InflightMsg>): nat {
    Count(Flags(es), true)
  }

  ghost predicate Bounded(c: Config, e: Engine) {
    && e.tokens == |e.pending| <= c.maxSizeOfPublishMsg
    && (e.blocked != [] ==> e.tokens == c.maxSizeOfPublishMsg)
    && Windowed(e.inflight) <= c.maxSizeOfInflight
  }

  ghost predicate Inv(c: Config, e: Engine) {
    TokensOk(e) && Accounted(e) && Bounded(c, e)
  }

  // ---------------------------------------------------------------- counting

  lemma {:induction false} CountConcat<T>(a: seq<T>, b: seq<T>, x: T)
    ensures Count(a + b, x) == Count(a, x) + Count(b, x)
  {
    if b == [] {
      assert a + b == a;
    } else {
      CountConcat(a, b[..|b| - 1], x);
      assert (a + b)[..|a + b| - 1] == a + b[..|b| - 1];
    }
  }

  lemma CountPush<T>(a: seq<T>, y: T, x: T)
    ensures Count(a + [y], x) == Count(a, x) + (if x == y then 1 else 0)
  {
    assert (a + [y])[..|a|] == a;
  }

  lemma {:induction false} CountBounds<T>(a: seq<T>, x: T)
    ensures Count(a, x) <= |a|
    ensures Count(a, x) > 0 <==> x in a
  {
    if a != [] {
      CountBounds(a[..|a| - 1], x);
      assert a == a[..|a| - 1] + [a[|a| - 1]];
    }
  }

  lemma {:induction false} CountTwice<T>(a: seq<T>, i: nat, j: nat)
    requires i < j < |a| && a[i] == a[j]
    ensures Count(a, a[i]) >= 2
  {
    if j == |a| - 1 {
      CountBounds(a[..j], a[i]);
      assert a[..j][i] == a[i];
    } else {
      CountTwice(a[..|a| - 1], i, j);
    }
  }

  lemma {:induction false} AscendingOnce(ss: seq<nat>, top: nat, s: nat)
    requires Ascending(ss, top)
    ensures Count(ss, s) == if s in ss then 1 else 0
  {
    if ss != [] {
      var n := |ss| - 1;
      assert ss == ss[..n] + [ss[n]];
      AscendingOnce(ss[..n], top, s);
    }
  }

  lemma EntryPushed(es: seq<InflightMsg>, m: InflightMsg, s: nat)
    ensures Count(EntrySerials(es + [m]), s) == Count(EntrySerials(es), s) + (if s == SerialOf(m.pt) then 1 else 0)
    ensures Windowed(es + [m]) == Windowed(es) + (if m.windowed then 1 else 0)
  {
    CountPush(EntrySerials(es), SerialOf(m.pt), s);
    assert EntrySerials(es + [m]) == EntrySerials(es) + [SerialOf(m.pt)];
    CountPush(Flags(es), m.windowed, true);
    assert Flags(es + [m]) == Flags(es) + [m.windowed];
  }

  lemma PtPushed(pts: seq<PacketAndToken>, pt: PacketAndToken, s: nat)
    ensures Count(PtSerials(pts + [pt]), s) == Count(PtSerials(pts), s) + (if s == SerialOf(pt) then 1 else 0)
  {
    CountPush(PtSerials(pts), SerialOf(pt), s);
    assert PtSerials(pts + [pt]) == PtSerials(pts) + [SerialOf(pt)];
  }

  lemma PtPopped(pts: seq<PacketAndToken>, s: nat)
    requires pts != []
    ensures Count(PtSerials(pts), s) == Count(PtSerials(pts[1..]), s) + (if s == SerialOf(pts[0]) then 1 else 0)
  {
    CountConcat([SerialOf(pts[0])], PtSerials(pts[1..]), s);
    CountPush([], SerialOf(pts[0]), s);
    assert [] + [SerialOf(pts[0])] == [SerialOf(pts[0])];
    assert PtSerials(pts) == [SerialOf(pts[0])] + PtSerials(pts[1..]);
  }

  lemma SplitAt<T>(a: seq<T>, k: nat)
    requires k < |a|
    ensures a == (a[..k] + [a[k]]) + a[k + 1..]
  {
  }

  lemma CountRemoved<T>(a: seq<T>, k: nat, x: T)
    requires k < |a|
    ensures Count(a, x) == Count(a[..k] + a[k + 1..], x) + (if x == a[k] then 1 else 0)
  {
    SplitAt(a, k);
    CountConcat(a[..k] + [a[k]], a[k + 1..], x);
    CountPush(a[..k], a[k], x);
    CountConcat(a[..k], a[k + 1..], x);
  }

  /** Taking entry k out of the list takes exactly its serial and its flag away. */
  lemma EntryRemoved(es: seq<InflightMsg>, k: nat, s: nat)
    requires k < |es|
    ensures var r := es[..k] + es[k + 1..];
            && Count(EntrySerials(es), s) == Count(EntrySerials(r), s) + (if s == SerialOf(es[k].pt) then 1 else 0)
            && Windowed(r) <= Windowed(es)
  {
    var r := es[..k] + es[k + 1..];
    CountRemoved(EntrySerials(es), k, s);
    assert EntrySerials(r) == EntrySerials(es)[..k] + EntrySerials(es)[k + 1..];
    CountRemoved(Flags(es), k, true);
    assert Flags(r) == Flags(es)[..k] + Flags(es)[k + 1..];
  }

  lemma SameSerials(es: seq<InflightMsg>, es': seq<InflightMsg>)
    requires |es| == |es'|
    requires forall j | 0 <= j < |es| :: SerialOf(es[j].pt) == SerialOf(es'[j].pt) && es[j].windowed == es'[j].windowed
    ensures EntrySerials(es) == EntrySerials(es') && Flags(es) == Flags(es')
  {
  }

  // ---------------------------------------------------------------- inserting and refilling

  lemma InsertTally(c: Config, e: Engine, pt: PacketAndToken, now: int, s: nat)
    requires !e.stopped && pt.p.Publish?
    ensures Tally(Insert(c, e, pt, now), s) == Tally(e, s) + (if s == SerialOf(pt) then 1 else 0)
  {
    EntryPushed(e.inflight, InflightMsg(pt, now + c.sentTimeout, 0, now, true), s);
  }

  lemma InsertWindow(c: Config, e: Engine, pt: PacketAndToken, now: int)
    requires |e.inflight| < c.maxSizeOfInflight
    requires pt.p.Publish?
    ensures Windowed(Insert(c, e, pt, now).inflight) <= c.maxSizeOfInflight
  {
    CountBounds(Flags(Insert(c, e, pt, now).inflight), true);
  }

  lemma TakeTokenTally(e: Engine, s: nat)
    ensures Tally(TakeToken(e), s) == Tally(e, s)
  {
    if e.tokens != 0 && e.blocked != [] {
      PtPushed(e.pending, e.blocked[0], s);
      PtPopped(e.blocked, s);
    }
  }

  lemma RefillTally(c: Config, e: Engine, now: int, s: nat)
    requires TokensOk(e)
    ensures Tally(Refill(c, e, now), s) <= Tally(e, s)
    ensures !e.stopped ==> Tally(Refill(c, e, now), s) == Tally(e, s)
  {
    var e1 := TakeToken(e);
    TakeTokenTally(e, s);
    if e1.pending != [] {
      PtPopped(e1.pending, s);
      if !e.stopped { InsertTally(c, e1.(pending := e1.pending[1..]), e1.pending[0], now, s); }
    }
  }

  lemma RefillTokens(c: Config, e: Engine, now: int)
    requires TokensOk(e)
    ensures TokensOk(Refill(c, e, now))
  {
  }

  lemma RefillBounded(c: Config, e: Engine, now: int)
    requires TokensOk(e) && Bounded(c, e) && |e.inflight| < c.maxSizeOfInflight
    ensures Bounded(c, Refill(c, e, now))
  {
    var e1 := TakeToken(e);
    if e1.pending != [] { InsertWindow(c, e1.(pending := e1.pending[1..]), e1.pending[0], now); }
  }

  lemma RefillFrame(c: Config, e: Engine, now: int)
    ensures var e' := Refill(c, e, now);
            e'.issued == e.issued && e'.lastMsgId == e.lastMsgId && e'.stopped == e.stopped && e'.crashed == e.crashed
  {
  }

  lemma RefillKeeps(c: Config, e: Engine, now: int)
    requires Inv(c, e) && |e.inflight| < c.maxSizeOfInflight
    ensures Inv(c, Refill(c, e, now))
  {
    RefillTokens(c, e, now);
    RefillBounded(c, e, now);
    RefillFrame(c, e, now);
    forall s: nat { RefillTally(c, e, now, s); }
  }

  lemma PumpKeeps(c: Config, e: Engine, now: int)
    requires Inv(c, e)
    ensures Inv(c, Pump(c, e, now))
  {
    if |e.inflight| < c.maxSizeOfInflight { RefillKeeps(c, e, now); }
  }

  // ---------------------------------------------------------------- steps

  /** insert2Inflight refuses on a stopped channel, and Publish does not look. */
  predicate Dropped(c: Config, e: Engine) {
    e.stopped && |e.inflight| < c.maxSizeOfInflight && |e.sendq| < c.maxSizeOfPublishMsg
  }

  lemma PublishTally(c: Config, e: Engine, live: bool, qos: nat, body: Message, now: int, s: nat)
    requires live
    ensures var e' := PublishStep(c, e, live, qos, body, now);
            Tally(e', s) == Tally(e, s) + (if s == e.lastMsgId + 1 && !Dropped(c, e) then 1 else 0)
  {
    var pt := FreshPublish(e, qos, body);
    if |e.inflight| < c.maxSizeOfInflight && |e.sendq| < c.maxSizeOfPublishMsg {
      if !e.stopped {
        InsertTally(c, e.(lastMsgId := e.lastMsgId + 1, issued := e.issued + [e.lastMsgId + 1]), pt, now, s);
      }
    } else if e.tokens < c.maxSizeOfPublishMsg {
      PtPushed(e.pending, pt, s);
    } else {
      PtPushed(e.blocked, pt, s);
    }
  }

  lemma IssueKeeps(e: Engine, e': Engine)
    requires Accounted(e)
    requires e'.lastMsgId == e.lastMsgId + 1 && e'.issued == e.issued + [e'.lastMsgId]
    requires e'.stopped == e.stopped && e'.crashed == e.crashed
    requires forall s: nat | s >= 1 :: Tally(e', s) <= Tally(e, s) + (if s == e'.lastMsgId then 1 else 0)
    requires !e.stopped ==> forall s: nat | s >= 1 :: Tally(e', s) == Tally(e, s) + (if s == e'.lastMsgId then 1 else 0)
    ensures Accounted(e')
  {
    forall s: nat { CountPush(e.issued, e'.lastMsgId, s); }
  }

  lemma PublishBounded(c: Config, e: Engine, live: bool, qos: nat, body: Message, now: int)
    requires Bounded(c, e)
    ensures Bounded(c, PublishStep(c, e, live, qos, body, now))
  {
    if live && |e.inflight| < c.maxSizeOfInflight && |e.sendq| < c.maxSizeOfPublishMsg {
      InsertWindow(c, e.(lastMsgId := e.lastMsgId + 1, issued := e.issued + [e.lastMsgId + 1]), FreshPublish(e, qos, body), now);
    }
  }

  lemma PublishTokens(c: Config, e: Engine, live: bool, qos: nat, body: Message, now: int)
    requires TokensOk(e)
    ensures TokensOk(PublishStep(c, e, live, qos, body, now))
  {
    assert QueuedOk(FreshPublish(e, qos, body));
  }

  lemma PublishFrame(c: Config, e: Engine, qos: nat, body: Message, now: int)
    ensures var e' := PublishStep(c, e, true, qos, body, now);
            e'.lastMsgId == e.lastMsgId + 1 && e'.issued == e.issued + [e'.lastMsgId] && e'.stopped == e.stopped && e'.crashed == e.crashed
  {
  }

  lemma PublishAccounted(c: Config, e: Engine, live: bool, qos: nat, body: Message, now: int)
    requires Accounted(e)
    ensures Accounted(PublishStep(c, e, live, qos, body, now))
  {
    var e' := PublishStep(c, e, live, qos, body, now);
    if live {
      forall s: nat | s >= 1 { PublishTally(c, e, live, qos, body, now, s); }
      PublishFrame(c, e, qos, body, now);
      IssueKeeps(e, e');
    } else {
      assert forall s: nat :: Tally(e', s) == Tally(e, s);
    }
  }

  lemma PublishKeeps(c: Config, e: Engine, live: bool, qos: nat, body: Message, now: int)
    requires Inv(c, e)
    ensures Inv(c, PublishStep(c, e, live, qos, body, now))
  {
    PublishTokens(c, e, live, qos, body, now);
    PublishAccounted(c, e, live, qos, body, now);
    PublishBounded(c, e, live, qos, body, now);
  }

  lemma NumberedSerial(p: Packet, serial: nat)
    ensures SerialOf(Numbered(p, serial)) == if TakesSerial(p) then serial else 0
  {
  }

  lemma SendTally(c: Config, e: Engine, p: Packet, now: int, s: nat)
    requires s >= 1 && !e.stopped
    ensures Tally(SendStep(c, e, p, now), s) == Tally(e, s) + (if TakesSerial(p) && s == e.lastMsgId + 1 then 1 else 0)
    ensures Windowed(SendStep(c, e, p, now).inflight) == Windowed(e.inflight)
  {
    var m := InflightMsg(Numbered(p, e.lastMsgId + 1), now + c.sentTimeout, 0, now, false);
    NumberedSerial(p, e.lastMsgId + 1);
    EntryPushed(e.inflight, m, s);
    assert SendStep(c, e, p, now).inflight == if TrackedBySend(p) then e.inflight + [m] else e.inflight;
  }

  lemma SendTokens(c: Config, e: Engine, p: Packet, now: int)
    requires TokensOk(e)
    ensures TokensOk(SendStep(c, e, p, now))
  {
    assert TokenOk(Numbered(p, e.lastMsgId + 1));
  }

  lemma SendAccounted(c: Config, e: Engine, p: Packet, now: int)
    requires Accounted(e) && !e.stopped
    ensures Accounted(SendStep(c, e, p, now))
  {
    forall s: nat | s >= 1 { SendTally(c, e, p, now, s); }
    if TakesSerial(p) { IssueKeeps(e, SendStep(c, e, p, now)); }
  }

  lemma SendKeeps(c: Config, e: Engine, p: Packet, now: int)
    requires Inv(c, e)
    ensures Inv(c, SendStep(c, e, p, now))
  {
    if !e.stopped {
      SendTokens(c, e, p, now);
      SendAccounted(c, e, p, now);
      SendTally(c, e, p, now, 1);
    }
  }

  lemma FinishWindowed(e: Engine, ack: Packet, s: nat)
    ensures Windowed(Finish(e, ack).inflight) <= Windowed(e.inflight)
  {
    var k := FirstWithId(e.inflight, ack.MessageId());
    if k < |e.inflight| { EntryRemoved(e.inflight, k, s); }
  }

  /** Taking out an entry and completing its token moves its serial from one place to another. */
  lemma SerialMoved(e: Engine, e': Engine, k: nat, s: nat)
    requires k < |e.inflight| && e'.inflight == e.inflight[..k] + e.inflight[k + 1..] && e'.pending == e.pending && e'.blocked == e.blocked
    ensures var x := SerialOf(e.inflight[k].pt);
            && (e'.completed == e.completed + [x] ==> Tally(e', s) == Tally(e, s))
            && (e'.completed == e.completed ==> Tally(e', s) <= Tally(e, s))
            && (e'.completed == e.completed && x != s ==> Tally(e', s) == Tally(e, s))
  {
    EntryRemoved(e.inflight, k, s);
    CountPush(e.completed, SerialOf(e.inflight[k].pt), s);
  }

  lemma FinishTally(e: Engine, ack: Packet, s: nat)
    requires s >= 1
    ensures Tally(Finish(e, ack), s) <= Tally(e, s)
    ensures !Finish(e, ack).crashed ==> Tally(Finish(e, ack), s) == Tally(e, s)
    ensures Windowed(Finish(e, ack).inflight) <= Windowed(e.inflight)
  {
    var k := FirstWithId(e.inflight, ack.MessageId());
    FinishWindowed(e, ack, s);
    if k < |e.inflight| { SerialMoved(e, Finish(e, ack), k, s); }
  }

  lemma FinishTokens(e: Engine, ack: Packet)
    requires TokensOk(e)
    ensures TokensOk(Finish(e, ack))
  {
  }

  lemma FinishFrame(e: Engine, ack: Packet)
    ensures var e' := Finish(e, ack);
            && e' == e.(inflight := e'.inflight, completed := e'.completed, crashed := e'.crashed)
            && (e.crashed ==> e'.crashed)
            && |e.inflight| - 1 <= |e'.inflight| <= |e.inflight|
  {
  }

  lemma FinishAccounted(e: Engine, ack: Packet)
    requires TokensOk(e) && Accounted(e)
    ensures Accounted(Finish(e, ack))
  {
    FinishFrame(e, ack);
    forall s: nat | s >= 1 { FinishTally(e, ack, s); }
  }

  lemma FinishKeeps(c: Config, e: Engine, ack: Packet)
    requires Inv(c, e)
    ensures Inv(c, Finish(e, ack))
  {
    FinishTally(e, ack, 1);
    FinishTokens(e, ack);
    FinishFrame(e, ack);
    FinishAccounted(e, ack);
  }

  lemma InflightDoneKeeps(c: Config, e: Engine, p: Packet, now: int)
    requires Inv(c, e)
    ensures Inv(c, InflightDone(c, e, p, now))
  {
    if EndsFlow(p) { FinishKeeps(c, e, p); }
    var e1 := if EndsFlow(p) then Finish(e, p) else e;
    if !e1.crashed { PumpKeeps(c, e1, now); }
  }

  /** A step that touches neither the serials nor the counters keeps the invariant. */
  lemma SameBookkeeping(c: Config, e: Engine, e': Engine)
    requires Inv(c, e)
    requires e' == e.(inflight := e'.inflight, sendq := e'.sendq, written := e'.written)
    requires |e'.inflight| == |e.inflight|
    requires forall j | 0 <= j < |e.inflight| ::
               && e'.inflight[j].pt.t == e.inflight[j].pt.t
               && e'.inflight[j].pt.p.MessageId() == e.inflight[j].pt.p.MessageId()
               && e'.inflight[j].windowed == e.inflight[j].windowed
    ensures Inv(c, e')
  {
    SameSerials(e.inflight, e'.inflight);
    assert forall s: nat :: Tally(e', s) == Tally(e, s);
  }

  lemma ReceiveKeeps(c: Config, e: Engine, p: Packet, now: int)
    requires Inv(c, e)
    ensures Inv(c, ReceiveStep(c, e, p, now))
  {
    if EndsFlow(p) && !p.Publish? {
      InflightDoneKeeps(c, e, p, now);
    } else {
      SameBookkeeping(c, e, ReceiveStep(c, e, p, now));
    }
  }

  lemma WriteKeeps(c: Config, e: Engine, open: bool, now: int)
    requires Inv(c, e)
    ensures Inv(c, WriteStep(c, e, open, now))
  {
    if e.sendq != [] {
      var p, e1 := e.sendq[0], e.(sendq := e.sendq[1..], written := e.written + [e.sendq[0]]);
      SameBookkeeping(c, e, e1);
      if open && p.Publish? && p.qos == 0 { InflightDoneKeeps(c, e1, p, now); }
    }
  }

  lemma TickKeeps(c: Config, e: Engine, now: int)
    requires Inv(c, e)
    ensures Inv(c, TickStep(c, e, now))
  {
    var e1 := Resend(c, e, now);
    SameBookkeeping(c, e, e1);
    if |e1.inflight| < c.maxSizeOfInflight && |e1.sendq| < c.maxSizeOfPublishMsg { RefillKeeps(c, e1, now); }
  }

  lemma StopKeeps(c: Config, e: Engine)
    requires Inv(c, e)
    ensures Inv(c, StopStep(e))
  {
    forall s: nat | s >= 1 ensures Tally(StopStep(e), s) <= Count(e.issued, s) {
      assert Tally(StopStep(e), s) <= Tally(e, s);
    }
  }

  lemma FailKeeps(c: Config, e: Engine)
    requires Inv(c, e)
    ensures Inv(c, FailStep(e))
  {
    assert forall s: nat :: Tally(FailStep(e), s) == Tally(e, s);
  }

  lemma ApplyKeeps(c: Config, e: Engine, ev: Event)
    requires Inv(c, e)
    ensures Inv(c, Apply(c, e, ev))
  {
    if !e.crashed {
      match ev
      case PublishEv(now, live, qos, body) => PublishKeeps(c, e, live, qos, body, now);
      case SendEv(now, p) => SendKeeps(c, e, p, now);
      case ReceiveEv(now, p) => ReceiveKeeps(c, e, p, now);
      case WriteEv(now, open) => WriteKeeps(c, e, open, now);
      case TickEv(now) => TickKeeps(c, e, now);
      case WriteFailEv(_) => FailKeeps(c, e);
      case StopEv(_) => StopKeeps(c, e);
    }
  }

  // ---------------------------------------------------------------- theorems over whole runs

  lemma {:induction false} RunInvariant(c: Config, evs: seq<Event>)
    ensures Inv(c, Run(c, evs))
  {
    if evs != [] {
      RunInvariant(c, evs[..|evs| - 1]);
      ApplyKeeps(c, Run(c, evs[..|evs| - 1]), evs[|evs| - 1]);
    }
  }

  /**
    Conservation: while the channel runs, a packet accepted by Publish, or numbered by Send, is in exactly
    one of pending, blocked, in flight and completed, and there exactly once; nothing else is anywhere.
  */
  lemma {:induction false} Conservation(c: Config, evs: seq<Event>, s: nat)
    requires Running(Run(c, evs)) && s >= 1
    ensures var e := Run(c, evs);
            Count(e.completed, s) + Count(EntrySerials(e.inflight), s) + Count(PtSerials(e.pending), s) + Count(PtSerials(e.blocked), s)
            == if s in e.issued then 1 else 0
  {
    RunInvariant(c, evs);
    AscendingOnce(Run(c, evs).issued, Run(c, evs).lastMsgId, s);
    assert Tally(Run(c, evs), s) == Count(Run(c, evs).issued, s);
  }

  lemma NotYetIssued(c: Config, e: Engine)
    requires Accounted(e)
    ensures Tally(e, e.lastMsgId + 1) == 0
  {
    var s: nat := e.lastMsgId + 1;
    AscendingOnce(e.issued, e.lastMsgId, s);
    assert s >= 1 && Tally(e, s) <= Count(e.issued, s);
  }

  lemma {:induction false} LostInState(c: Config, e: Engine, qos: nat, body: Message, now: int)
    requires Accounted(e)
    ensures var e' := PublishStep(c, e, true, qos, body, now);
            && PublishOutcome(c, e, true) != Refused && e'.lastMsgId == e.lastMsgId + 1
            && Tally(e', e'.lastMsgId) == (if Dropped(c, e) then 0 else 1)
  {
    NotYetIssued(c, e);
    PublishTally(c, e, true, qos, body, now, e.lastMsgId + 1);
    PublishFrame(c, e, qos, body, now);
  }

  /**
    Conservation needs a running channel: after a failed write the session stays open, and a Publish it
    accepts without an error is nowhere to be found exactly when there is room in the window and in the send queue.
  */
  lemma {:induction false} PublishLostExactly(c: Config, evs: seq<Event>, qos: nat, body: Message, now: int)
    ensures var e := Run(c, evs);
            var e' := PublishStep(c, e, true, qos, body, now);
            && PublishOutcome(c, e, true) != Refused
            && (Tally(e', e'.lastMsgId) == 0 <==> Dropped(c, e))
  {
    RunInvariant(c, evs);
    LostInState(c, Run(c, evs), qos, body, now);
  }

  // ---------------------------------------------------------------- where a packet goes

  ghost predicate SamePlaces(e: Engine, e': Engine) {
    e'.inflight == e.inflight && e'.pending == e.pending && e'.blocked == e.blocked && e'.sendq == e.sendq
  }

  ghost predicate InFlightNow(c: Config, e: Engine, e': Engine, pt: PacketAndToken, now: int, windowed: bool) {
    && e'.inflight == e.inflight + [InflightMsg(pt, now + c.sentTimeout, 0, now, windowed)] && e'.sendq == e.sendq + [pt.p]
    && e'.pending == e.pending && e'.blocked == e.blocked
  }

  /**
    A Publish of this message puts exactly this message, under the next number, into one place: in flight and into the
    send queue, behind the pending packets, or behind the blocked calls; or, as `Dropped` says, nowhere.
  */
  lemma PublishPlaces(c: Config, e: Engine, live: bool, qos: nat, body: Message, now: int)
    ensures var n, e' := e.lastMsgId + 1, PublishStep(c, e, live, qos, body, now);
            var pt := PacketAndToken(Publish(n % 65536, qos, body), Some(PublishToken(n)));
            && e'.lastMsgId == n && e'.completed == e.completed && e'.written == e.written
            && match PublishOutcome(c, e, live)
               case Refused => !live && SamePlaces(e, e')
               case Accepted =>
                 && live
                 && (|| InFlightNow(c, e, e', pt, now, true)
                     || (e'.pending == e.pending + [pt] && e'.tokens == e.tokens + 1 && SamePlaces(e, e'.(pending := e.pending)))
                     || (Dropped(c, e) && SamePlaces(e, e')))
               case Blocked => live && e'.blocked == e.blocked + [pt] && SamePlaces(e, e'.(blocked := e.blocked))
  {
  }

  /** A Send on a running channel: the packet goes straight to the wire, with a number of its own if it takes one. */
  lemma SendPlaces(c: Config, e: Engine, p: Packet, now: int)
    requires !e.stopped
    ensures var n, e' := e.lastMsgId + 1, SendStep(c, e, p, now);
            && (p.Publish? ==> InFlightNow(c, e, e', PacketAndToken(Publish(n % 65536, p.qos, p.body), Some(PublishToken(n))), now, false))
            && (p.Subscribe? ==> InFlightNow(c, e, e', PacketAndToken(Subscribe(n % 65536, p.topics), Some(SubscribeToken(n, p.topics))), now, false))
            && (p.Unsubscribe? ==> InFlightNow(c, e, e', PacketAndToken(Unsubscribe(n % 65536, p.filters), Some(UnsubscribeToken(n))), now, false))
            && (p.Pubrec? || p.Pubrel? ==> InFlightNow(c, e, e', PacketAndToken(p, None), now, false))
            && (!TrackedBySend(p) ==> SamePlaces(e, e'.(sendq := e.sendq)) && e'.sendq == e.sendq + [p])
            && e'.lastMsgId == if TakesSerial(p) then n else e.lastMsgId
  {
  }

  /** A step completes at most one token, and only one that has a serial. */
  ghost predicate CompletesAtMostOne(e: Engine, e': Engine) {
    || e'.completed == e.completed
    || (|e'.completed| == |e.completed| + 1 && e'.completed[..|e.completed|] == e.completed && e'.completed[|e.completed|] >= 1)
  }

  lemma CompletedByFlow(c: Config, e: Engine, p: Packet, now: int)
    requires TokensOk(e)
    ensures CompletesAtMostOne(e, InflightDone(c, e, p, now))
  {
    var k := FirstWithId(e.inflight, p.MessageId());
    assert k < |e.inflight| ==> TokenOk(e.inflight[k].pt);
    var e1 := if EndsFlow(p) then Finish(e, p) else e;
    assert CompletesAtMostOne(e, e1);
    assert Pump(c, e1, now).completed == e1.completed;
  }

  lemma CompletedByStep(c: Config, e: Engine, ev: Event)
    requires TokensOk(e)
    ensures CompletesAtMostOne(e, Apply(c, e, ev))
  {
    if ev.WriteEv? && e.sendq != [] {
      CompletedByFlow(c, e.(sendq := e.sendq[1..], written := e.written + [e.sendq[0]]), e.sendq[0], ev.now);
    } else if ev.ReceiveEv? {
      CompletedByFlow(c, e, ev.arrived, ev.now);
    }
  }

  ghost predicate AllPositive(ss: seq<nat>) {
    forall k | 0 <= k < |ss| :: ss[k] >= 1
  }

  lemma PositiveStep(e: Engine, e': Engine)
    requires AllPositive(e.completed) && CompletesAtMostOne(e, e')
    ensures AllPositive(e'.completed)
  {
    assert forall k | 0 <= k < |e'.completed| :: k < |e.completed| ==> e'.completed[k] == e.completed[k];
  }

  lemma {:induction false} CompletedArePositive(c: Config, evs: seq<Event>)
    ensures AllPositive(Run(c, evs).completed)
  {
    if evs != [] {
      var e, ev := Run(c, evs[..|evs| - 1]), evs[|evs| - 1];
      CompletedArePositive(c, evs[..|evs| - 1]);
      RunInvariant(c, evs[..|evs| - 1]);
      CompletedByStep(c, e, ev);
      PositiveStep(e, Apply(c, e, ev));
    }
  }

  /** No token is completed twice, nor completed while still queued: in every run, even a stopped or crashed one. */
  lemma SingleCompletion(c: Config, evs: seq<Event>, i: nat)
    requires i < |Run(c, evs).completed|
    ensures var e := Run(c, evs);
            && (forall j | 0 <= j < |e.completed| && j != i :: e.completed[j] != e.completed[i])
            && e.completed[i] !in EntrySerials(e.inflight) && e.completed[i] !in PtSerials(e.pending)
            && e.completed[i] !in PtSerials(e.blocked) && e.completed[i] in e.issued
  {
    RunInvariant(c, evs);
    CompletedArePositive(c, evs);
    var e := Run(c, evs);
    var s := e.completed[i];
    AscendingOnce(e.issued, e.lastMsgId, s);
    CountBounds(e.completed, s);
    CountBounds(EntrySerials(e.inflight), s);
    CountBounds(PtSerials(e.pending), s);
    CountBounds(PtSerials(e.blocked), s);
    assert Tally(e, s) <= Count(e.issued, s);
    forall j | 0 <= j < |e.completed| && j != i ensures e.completed[j] != s {
      if e.completed[j] == s { CountTwice(e.completed, if i < j then i else j, if i < j then j else i); }
    }
  }

  /** Window and pending bounds, in every reachable state and with Send interleaved. */
  lemma {:induction false} WindowAndPendingBounds(c: Config, evs: seq<Event>)
    ensures var e := Run(c, evs);
            && Windowed(e.inflight) <= c.maxSizeOfInflight
            && e.tokens == |e.pending| <= c.maxSizeOfPublishMsg
            && (e.blocked != [] ==> |e.pending| == c.maxSizeOfPublishMsg)
  {
    RunInvariant(c, evs);
  }
}
