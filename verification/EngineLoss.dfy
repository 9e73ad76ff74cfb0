/**
  What a session loses, exactly.  A failed write stops the channel and leaves the session open; from then
  on insert2Inflight refuses what Publish and the window pump hand it, and neither looks.  Close makes the waiting Publish calls
  return without an error, and a SUBACK for another kind of token panics with its entry already removed.
*/
module EngineLoss {
  import opened Common
  import opened Engine
  import opened EngineInvariants

  // ---------------------------------------------------------------- what one step loses

  /** The serial that refilling one place loses: the head of the pending queue, once the channel has stopped. */
  function PumpLoss(e: Engine): seq<nat> {
    if e.stopped && TakeToken(e).pending != [] then [SerialOf(TakeToken(e).pending[0])] else []
  }

  /** Ending a flow and pumping: the panic loses the entry it has removed, the pump what it cannot insert. */
  function FlowLoss(c: Config, e: Engine, ack: Packet): seq<nat> {
    var k, e1 := FirstWithId(e.inflight, ack.MessageId()), Finish(e, ack);
    if e1.crashed then (if k < |e.inflight| then [SerialOf(e.inflight[k].pt)] else [])
    else if |e1.inflight| < c.maxSizeOfInflight then PumpLoss(e1)
    else []
  }

  /** The engine once sendRun has written the head of its queue. */
  function Popped(e: Engine): Engine
    requires e.sendq != []
  {
    e.(sendq := e.sendq[1..], written := e.written + [e.sendq[0]])
  }

  /** The serials a step loses, by the guards of the branches that lose them. */
  function Loss(c: Config, e: Engine, ev: Event): seq<nat> {
    if e.crashed then [] else
      match ev
      case PublishEv(_, live, _, _) => if live && Dropped(c, e) then [e.lastMsgId + 1] else []
      case ReceiveEv(_, p) => if EndsFlow(p) && !p.Publish? then FlowLoss(c, e, p) else []
      case WriteEv(_, open) =>
        if e.sendq != [] && open && e.sendq[0].Publish? && e.sendq[0].qos == 0 then FlowLoss(c, Popped(e), e.sendq[0]) else []
      case TickEv(now) =>
        var e1 := Resend(c, e, now);
        if |e1.inflight| < c.maxSizeOfInflight && |e1.sendq| < c.maxSizeOfPublishMsg then PumpLoss(e1) else []
      case StopEv(_) => PtSerials(e.blocked)
      case _ => []
  }

  /** The serials a step accepts. */
  function Issues(e: Engine, ev: Event): seq<nat> {
    if e.crashed then [] else
      match ev
      case PublishEv(_, live, _, _) => if live then [e.lastMsgId + 1] else []
      case SendEv(_, p) => if !e.stopped && TakesSerial(p) then [e.lastMsgId + 1] else []
      case _ => []
  }

  lemma CountOne<T>(x: T, y: T)
    ensures Count([x], y) == if x == y then 1 else 0
  {
    assert [x][..0] == [];
  }

  lemma RefillLoses(c: Config, e: Engine, now: int, s: nat)
    requires TokensOk(e)
    ensures Tally(Refill(c, e, now), s) + Count(PumpLoss(e), s) == Tally(e, s)
  {
    var e1 := TakeToken(e);
    TakeTokenTally(e, s);
    if e1.pending != [] {
      PtPopped(e1.pending, s);
      CountOne(SerialOf(e1.pending[0]), s);
      if !e.stopped { InsertTally(c, e1.(pending := e1.pending[1..]), e1.pending[0], now, s); }
    }
  }

  lemma FinishLoses(e: Engine, ack: Packet, s: nat)
    requires TokensOk(e) && !e.crashed && s >= 1
    ensures var k := FirstWithId(e.inflight, ack.MessageId());
            var lost := if Finish(e, ack).crashed && k < |e.inflight| then [SerialOf(e.inflight[k].pt)] else [];
            Tally(Finish(e, ack), s) + Count(lost, s) == Tally(e, s)
  {
    var k := FirstWithId(e.inflight, ack.MessageId());
    if k < |e.inflight| {
      EntryRemoved(e.inflight, k, s);
      CountPush(e.completed, SerialOf(e.inflight[k].pt), s);
      CountOne(SerialOf(e.inflight[k].pt), s);
    }
  }

  lemma FlowLoses(c: Config, e: Engine, ack: Packet, now: int, s: nat)
    requires TokensOk(e) && !e.crashed && s >= 1 && EndsFlow(ack)
    ensures Tally(InflightDone(c, e, ack, now), s) + Count(FlowLoss(c, e, ack), s) == Tally(e, s)
  {
    FinishLoses(e, ack, s);
    FinishTokens(e, ack);
    var e1 := Finish(e, ack);
    if !e1.crashed && |e1.inflight| < c.maxSizeOfInflight { RefillLoses(c, e1, now, s); }
  }

  lemma SameTally(e: Engine, e': Engine, s: nat)
    requires e' == e.(inflight := e'.inflight, sendq := e'.sendq, written := e'.written, stopped := e'.stopped)
    requires |e'.inflight| == |e.inflight| && forall j | 0 <= j < |e.inflight| :: e'.inflight[j].pt.t == e.inflight[j].pt.t
    ensures Tally(e', s) == Tally(e, s)
  {
    assert EntrySerials(e'.inflight) == EntrySerials(e.inflight);
  }

  lemma PublishLoses(c: Config, e: Engine, live: bool, qos: nat, body: Message, now: int, s: nat)
    requires !e.crashed
    ensures var ev := PublishEv(now, live, qos, body);
            Tally(PublishStep(c, e, live, qos, body, now), s) + Count(Loss(c, e, ev), s) == Tally(e, s) + Count(Issues(e, ev), s)
  {
    CountOne(e.lastMsgId + 1, s);
    if live { PublishTally(c, e, live, qos, body, now, s); }
  }

  lemma SendLoses(c: Config, e: Engine, now: int, p: Packet, s: nat)
    requires !e.crashed && s >= 1
    ensures Tally(SendStep(c, e, p, now), s) == Tally(e, s) + Count(Issues(e, SendEv(now, p)), s)
  {
    CountOne(e.lastMsgId + 1, s);
    if !e.stopped { SendTally(c, e, p, now, s); }
  }

  lemma PubrecLosesNothing(e: Engine, id: Id, s: nat)
    ensures Tally(OnPubrec(e, id), s) == Tally(e, s)
  {
    SameTally(e, OnPubrec(e, id), s);
  }

  lemma ReceiveLoses(c: Config, e: Engine, now: int, p: Packet, s: nat)
    requires TokensOk(e) && !e.crashed && s >= 1
    ensures Tally(ReceiveStep(c, e, p, now), s) + Count(Loss(c, e, ReceiveEv(now, p)), s) == Tally(e, s)
  {
    if EndsFlow(p) && !p.Publish? {
      FlowLoses(c, e, p, now, s);
    } else if p.Pubrec? {
      PubrecLosesNothing(e, p.id, s);
    } else {
      assert ReceiveStep(c, e, p, now) == e || ReceiveStep(c, e, p, now) == Enqueue(e, Pingresp);
    }
  }

  lemma WriteLoses(c: Config, e: Engine, now: int, open: bool, s: nat)
    requires TokensOk(e) && !e.crashed && s >= 1
    ensures Tally(WriteStep(c, e, open, now), s) + Count(Loss(c, e, WriteEv(now, open)), s) == Tally(e, s)
  {
    if e.sendq != [] {
      SameTally(e, Popped(e), s);
      if open && e.sendq[0].Publish? && e.sendq[0].qos == 0 { FlowLoses(c, Popped(e), e.sendq[0], now, s); }
    }
  }

  lemma TickLoses(c: Config, e: Engine, now: int, s: nat)
    requires TokensOk(e) && !e.crashed
    ensures Tally(TickStep(c, e, now), s) + Count(Loss(c, e, TickEv(now)), s) == Tally(e, s)
  {
    var e1 := Resend(c, e, now);
    SameTally(e, e1, s);
    if |e1.inflight| < c.maxSizeOfInflight && |e1.sendq| < c.maxSizeOfPublishMsg { RefillLoses(c, e1, now, s); }
  }

  /** The balance of one step: what was there and what is accepted is there afterwards or lost. */
  lemma StepBalance(c: Config, e: Engine, ev: Event, s: nat)
    requires TokensOk(e) && s >= 1
    ensures Tally(Apply(c, e, ev), s) + Count(Loss(c, e, ev), s) == Tally(e, s) + Count(Issues(e, ev), s)
  {
    if !e.crashed {
      match ev
      case PublishEv(now, live, qos, body) => PublishLoses(c, e, live, qos, body, now, s);
      case SendEv(now, p) => SendLoses(c, e, now, p, s);
      case ReceiveEv(now, p) => ReceiveLoses(c, e, now, p, s);
      case WriteEv(now, open) => WriteLoses(c, e, now, open, s);
      case TickEv(now) => TickLoses(c, e, now, s);
      case WriteFailEv(_) => SameTally(e, FailStep(e), s);
      case StopEv(_) =>
    }
  }

  /** A step on a running channel loses nothing, unless it closes the session or panics. */
  lemma RunningLosesNothing(c: Config, e: Engine, ev: Event)
    requires Running(e) && !ev.StopEv? && !Apply(c, e, ev).crashed
    ensures Loss(c, e, ev) == []
  {
  }

  // ---------------------------------------------------------------- what a run loses

  function AllLoss(c: Config, evs: seq<Event>): (lost: seq<nat>) {
    if evs == [] then [] else
      var evs0 := evs[..|evs| - 1];
      AllLoss(c, evs0) + Loss(c, Run(c, evs0), evs[|evs| - 1])
  }

  lemma FlowIssuesNothing(c: Config, e: Engine, ack: Packet, now: int)
    ensures InflightDone(c, e, ack, now).issued == e.issued
  {
    FinishFrame(e, ack);
    var e1 := if EndsFlow(ack) then Finish(e, ack) else e;
    RefillFrame(c, e1, now);
  }

  lemma IssuedGrows(c: Config, e: Engine, ev: Event)
    ensures Apply(c, e, ev).issued == e.issued + Issues(e, ev)
  {
    if !e.crashed {
      match ev
      case PublishEv(now, live, qos, body) => if live { PublishFrame(c, e, qos, body, now); }
      case ReceiveEv(now, p) => FlowIssuesNothing(c, e, p, now);
      case WriteEv(now, open) => if e.sendq != [] { FlowIssuesNothing(c, Popped(e), e.sendq[0], now); }
      case TickEv(now) => RefillFrame(c, Resend(c, e, now), now);
      case _ =>
    }
  }

  /** Conservation of every run, stopped or not: a serial is in one of the four places or lost, as often as it was accepted. */
  lemma {:induction false} RunBalance(c: Config, evs: seq<Event>, s: nat)
    requires s >= 1
    ensures Tally(Run(c, evs), s) + Count(AllLoss(c, evs), s) == Count(Run(c, evs).issued, s)
  {
    if evs != [] {
      var evs0, ev := evs[..|evs| - 1], evs[|evs| - 1];
      var e := Run(c, evs0);
      RunBalance(c, evs0, s);
      RunInvariant(c, evs0);
      StepBalance(c, e, ev, s);
      IssuedGrows(c, e, ev);
      CountConcat(e.issued, Issues(e, ev), s);
      CountConcat(AllLoss(c, evs0), Loss(c, e, ev), s);
    }
  }

  /** An accepted packet is nowhere to be found exactly when some step of the run lost it, and no step loses it twice. */
  lemma {:induction false} LostExactly(c: Config, evs: seq<Event>, s: nat)
    requires s in Run(c, evs).issued
    ensures Tally(Run(c, evs), s) == 0 <==> s in AllLoss(c, evs)
    ensures Count(AllLoss(c, evs), s) <= 1
  {
    RunInvariant(c, evs);
    var e := Run(c, evs);
    AscendingOnce(e.issued, e.lastMsgId, s);
    RunBalance(c, evs, s);
    CountBounds(AllLoss(c, evs), s);
  }

  // ---------------------------------------------------------------- runs that lose

  /** A Publish that is lost at once: room in the window and in the send queue, and no channel. */
  lemma DroppedIsReached(body: Message)
    ensures var c := ConfigValues(2, 1, 1);
            var e1 := PublishStep(c, Initial, true, 1, body, 0);
            var e2 := FailStep(e1);
            Dropped(c, e2) && PublishOutcome(c, e2, true) == Accepted && Tally(PublishStep(c, e2, true, 1, body, 0), 2) == 0
  {
    var c := ConfigValues(2, 1, 1);
    var e1 := PublishStep(c, Initial, true, 1, body, 0);
    var e2 := FailStep(e1);
    assert |e1.inflight| == 1 && |e1.sendq| == 1 && e1.lastMsgId == 1;
    var e3 := PublishStep(c, e2, true, 1, body, 0);
    assert EntrySerials(e3.inflight) == [1] && PtSerials(e3.pending) == [] == PtSerials(e3.blocked);
    CountOne(1, 2);
  }

  lemma PumpLosesTheHead(c: Config, e: Engine)
    requires e.stopped && !e.crashed && c == ConfigValues(1, 1, 1) && TokensOk(e)
    requires |e.inflight| == 1 && e.inflight[0].pt.p.MessageId() == 1 && e.inflight[0].pt.t == Some(PublishToken(1))
    requires |e.pending| == 1 && SerialOf(e.pending[0]) == 2 && e.blocked == [] && e.completed == []
    ensures Tally(e, 2) == 1 && FlowLoss(c, e, Puback(1)) == [2] && Tally(InflightDone(c, e, Puback(1), 0), 2) == 0
  {
    assert EntrySerials(e.inflight) == [1] && PtSerials(e.pending) == [2] && PtSerials(e.blocked) == [];
    CountOne(1, 2);
    CountOne(2, 2);
    assert Finish(e, Puback(1)).inflight == [];
    FlowLoses(c, e, Puback(1), 0, 2);
  }

  /** Two publishes into a window of one. */
  ghost function TwoPublished(c: Config, body: Message): Engine {
    PublishStep(c, PublishStep(c, Initial, true, 1, body, 0), true, 1, body, 0)
  }

  lemma SecondIsPending(body: Message)
    ensures var c := ConfigValues(1, 1, 1);
            var e1, e := PublishStep(c, Initial, true, 1, body, 0), TwoPublished(c, body);
            && PublishOutcome(c, e1, true) == Accepted && !Dropped(c, e1) && Running(e) && e.sendq != [] && e.completed == []
            && |e.inflight| == 1 && e.inflight[0].pt == FreshPublish(Initial, 1, body)
            && e.pending == [FreshPublish(e1, 1, body)] && e1.lastMsgId == 1 && e.blocked == []
  {
    var e1 := PublishStep(ConfigValues(1, 1, 1), Initial, true, 1, body, 0);
    assert |e1.inflight| == 1 && |e1.sendq| == 1;
  }

  lemma SecondIsLost(c: Config, e: Engine)
    requires Running(e) && c == ConfigValues(1, 1, 1) && e.sendq != [] && TokensOk(e)
    requires |e.inflight| == 1 && e.inflight[0].pt.p.MessageId() == 1 && e.inflight[0].pt.t == Some(PublishToken(1))
    requires |e.pending| == 1 && SerialOf(e.pending[0]) == 2 && e.blocked == [] && e.completed == []
    ensures var e3 := FailStep(e);
            Tally(e3, 2) == 1 && Loss(c, e3, ReceiveEv(0, Puback(1))) == [2] && Tally(ReceiveStep(c, e3, Puback(1), 0), 2) == 0
  {
    PumpLosesTheHead(c, FailStep(e));
  }

  /** A Publish accepted on a running channel, and lost by the pump: the acknowledgement comes after the failed write. */
  lemma PumpLosesPending(body: Message)
    ensures var c := ConfigValues(1, 1, 1);
            var e1, e3 := PublishStep(c, Initial, true, 1, body, 0), FailStep(TwoPublished(c, body));
            && PublishOutcome(c, e1, true) == Accepted && !Dropped(c, e1)
            && Tally(e3, 2) == 1 && Loss(c, e3, ReceiveEv(0, Puback(1))) == [2] && Tally(ReceiveStep(c, e3, Puback(1), 0), 2) == 0
  {
    SecondIsPending(body);
    SecondIsLost(ConfigValues(1, 1, 1), TwoPublished(ConfigValues(1, 1, 1), body));
  }
}
