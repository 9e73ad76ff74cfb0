/**
  Order and time: no idle window, first-in first-out admission, the packet identifier window and the
  resend timer.
*/
module EngineOrder {
  import opened Common
  import opened Engine
  import opened EngineInvariants

  // ---------------------------------------------------------------- no idle window, FIFO admission

  /** Everything ever queued for the wire, oldest first. */
  ghost function Sent(e: Engine): seq<Packet> {
    e.written + e.sendq
  }

  ghost predicate NoIdle(c: Config, e: Engine) {
    e.pending != [] ==> |e.inflight| >= c.maxSizeOfInflight
  }

  ghost function AdmittedSerials(adms: seq<Admission>): seq<nat> {
    seq(|adms|, i requires 0 <= i < |adms| => adms[i].serial)
  }

  /** Admitted, then pending, then blocked publishes. */
  ghost function Lined(e: Engine): seq<nat> {
    AdmittedSerials(e.admitted) + PtSerials(e.pending) + PtSerials(e.blocked)
  }

  /** They are in the order the Publish calls were numbered. */
  ghost predicate Fifo(e: Engine) {
    Ascending(Lined(e), e.lastMsgId)
  }

  /** Each admission names its own publish, and admissions went to the wire in the order listed. */
  ghost predicate OnTheWire(e: Engine) {
    && (forall i | 0 <= i < |e.admitted| ::
          && e.admitted[i].at < |Sent(e)|
          && Sent(e)[e.admitted[i].at].Publish?
          && Sent(e)[e.admitted[i].at].id == IdOf(e.admitted[i].serial))
    && (forall i, j | 0 <= i < j < |e.admitted| :: e.admitted[i].at < e.admitted[j].at)
  }

  ghost predicate Ordered(c: Config, e: Engine) {
    NoIdle(c, e) && Fifo(e) && OnTheWire(e)
  }

  /** The send queue was below its limit whenever Publish was called. */
  ghost predicate Quiet(c: Config, e: Engine, ev: Event) {
    ev.PublishEv? && ev.live ==> |e.sendq| < c.maxSizeOfPublishMsg
  }

  ghost predicate QuietRun(c: Config, evs: seq<Event>) {
    evs == [] || (QuietRun(c, evs[..|evs| - 1]) && Quiet(c, Run(c, evs[..|evs| - 1]), evs[|evs| - 1]))
  }

  lemma SentGrows(e: Engine, e': Engine)
    requires OnTheWire(e) && e'.admitted == e.admitted && Sent(e) <= Sent(e')
    ensures OnTheWire(e')
  {
  }

  lemma InsertOnTheWire(c: Config, e: Engine, pt: PacketAndToken, now: int)
    requires OnTheWire(e) && QueuedOk(pt)
    ensures OnTheWire(Insert(c, e, pt, now))
  {
    var e' := Insert(c, e, pt, now);
    if !e.stopped {
      assert Sent(e') == Sent(e) + [pt.p];
    }
  }

  lemma TokenKeepsQueue(e: Engine)
    ensures PtSerials(TakeToken(e).pending) + PtSerials(TakeToken(e).blocked) == PtSerials(e.pending) + PtSerials(e.blocked)
  {
    if e.tokens != 0 && e.blocked != [] {
      assert PtSerials(e.blocked) == [SerialOf(e.blocked[0])] + PtSerials(e.blocked[1..]);
      assert PtSerials(e.pending + [e.blocked[0]]) == PtSerials(e.pending) + [SerialOf(e.blocked[0])];
    }
  }

  lemma HeadMovesLeft<T>(a: seq<T>, x: T, p: seq<T>, b: seq<T>)
    ensures (a + [x]) + p + b == a + (([x] + p) + b)
  {
  }

  lemma LinedSplit(e: Engine)
    ensures Lined(e) == AdmittedSerials(e.admitted) + (PtSerials(e.pending) + PtSerials(e.blocked))
  {
  }

  lemma RefillLined(c: Config, e: Engine, now: int)
    requires TokensOk(e) && !e.stopped
    ensures Lined(Refill(c, e, now)) == Lined(e)
  {
    var e1, e' := TakeToken(e), Refill(c, e, now);
    TokenKeepsQueue(e);
    LinedSplit(e);
    if e1.pending != [] {
      var x := SerialOf(e1.pending[0]);
      assert AdmittedSerials(e'.admitted) == AdmittedSerials(e.admitted) + [x];
      assert PtSerials(e1.pending) == [x] + PtSerials(e'.pending);
      HeadMovesLeft(AdmittedSerials(e.admitted), x, PtSerials(e'.pending), PtSerials(e'.blocked));
    } else {
      LinedSplit(e1);
    }
  }

  lemma RefillOnTheWire(c: Config, e: Engine, now: int)
    requires TokensOk(e) && OnTheWire(e)
    ensures OnTheWire(Refill(c, e, now))
  {
    var e1 := TakeToken(e);
    assert Sent(e1) == Sent(e);
    if e1.pending != [] {
      InsertOnTheWire(c, e1.(pending := e1.pending[1..]), e1.pending[0], now);
    }
  }

  lemma RefillNoIdle(c: Config, e: Engine, now: int)
    requires TokensOk(e) && Bounded(c, e) && !e.stopped
    requires e.pending != [] ==> |e.inflight| + 1 >= c.maxSizeOfInflight
    ensures NoIdle(c, Refill(c, e, now))
  {
  }

  lemma RefillOrdered(c: Config, e: Engine, now: int)
    requires Inv(c, e) && !e.stopped && Fifo(e) && OnTheWire(e)
    requires e.pending != [] ==> |e.inflight| + 1 >= c.maxSizeOfInflight
    ensures Ordered(c, Refill(c, e, now))
  {
    RefillLined(c, e, now);
    RefillFrame(c, e, now);
    RefillOnTheWire(c, e, now);
    RefillNoIdle(c, e, now);
  }

  lemma FinishOrdered(c: Config, e: Engine, p: Packet)
    requires Ordered(c, e)
    ensures var e1 := Finish(e, p);
            && Fifo(e1) && OnTheWire(e1) && e1.stopped == e.stopped
            && (e1.pending != [] ==> |e1.inflight| + 1 >= c.maxSizeOfInflight)
  {
    FinishFrame(e, p);
    assert Sent(Finish(e, p)) == Sent(e);
  }

  lemma InflightDoneOrdered(c: Config, e: Engine, p: Packet, now: int)
    requires Inv(c, e) && Ordered(c, e) && Running(InflightDone(c, e, p, now))
    ensures Ordered(c, InflightDone(c, e, p, now))
  {
    var e1 := if EndsFlow(p) then Finish(e, p) else e;
    if EndsFlow(p) {
      FinishKeeps(c, e, p);
      FinishOrdered(c, e, p);
    }
    assert !e1.crashed;
    if |e1.inflight| < c.maxSizeOfInflight {
      RefillFrame(c, e1, now);
      RefillOrdered(c, e1, now);
    }
  }

  /** A live Publish joins the end of the line unless it enters the window past pending packets. */
  lemma PublishLined(c: Config, e: Engine, qos: nat, body: Message, now: int)
    requires Bounded(c, e) && !e.stopped
    requires |e.inflight| < c.maxSizeOfInflight && |e.sendq| < c.maxSizeOfPublishMsg ==> e.pending == []
    ensures Lined(PublishStep(c, e, true, qos, body, now)) == Lined(e) + [e.lastMsgId + 1]
  {
    var e' := PublishStep(c, e, true, qos, body, now);
    var x := e.lastMsgId + 1;
    if |e.inflight| < c.maxSizeOfInflight && |e.sendq| < c.maxSizeOfPublishMsg {
      assert AdmittedSerials(e'.admitted) == AdmittedSerials(e.admitted) + [x];
      assert Lined(e) == AdmittedSerials(e.admitted);
    } else if e.tokens < c.maxSizeOfPublishMsg {
      assert PtSerials(e'.pending) == PtSerials(e.pending) + [x];
    } else {
      assert PtSerials(e'.blocked) == PtSerials(e.blocked) + [x];
    }
  }

  lemma PublishOnTheWire(c: Config, e: Engine, live: bool, qos: nat, body: Message, now: int)
    requires OnTheWire(e)
    ensures OnTheWire(PublishStep(c, e, live, qos, body, now))
  {
    var e', pt := PublishStep(c, e, live, qos, body, now), FreshPublish(e, qos, body);
    if live && |e.inflight| < c.maxSizeOfInflight && |e.sendq| < c.maxSizeOfPublishMsg {
      InsertOnTheWire(c, e.(lastMsgId := e.lastMsgId + 1, issued := e.issued + [e.lastMsgId + 1]), pt, now);
    } else {
      SentGrows(e, e');
    }
  }

  lemma PublishOrdered(c: Config, e: Engine, live: bool, qos: nat, body: Message, now: int)
    requires Inv(c, e) && Ordered(c, e) && Running(e)
    requires live ==> |e.sendq| < c.maxSizeOfPublishMsg
    ensures Ordered(c, PublishStep(c, e, live, qos, body, now))
  {
    PublishOnTheWire(c, e, live, qos, body, now);
    if live {
      PublishLined(c, e, qos, body, now);
      PublishFrame(c, e, qos, body, now);
    } else {
      assert Lined(PublishStep(c, e, live, qos, body, now)) == Lined(e);
    }
  }

  lemma WriteOrdered(c: Config, e: Engine, open: bool, now: int)
    requires Inv(c, e) && Ordered(c, e) && Running(WriteStep(c, e, open, now))
    ensures Ordered(c, WriteStep(c, e, open, now))
  {
    if e.sendq != [] {
      var p, e1 := e.sendq[0], e.(sendq := e.sendq[1..], written := e.written + [e.sendq[0]]);
      assert Sent(e1) == Sent(e);
      SentGrows(e, e1);
      SameBookkeeping(c, e, e1);
      if open && p.Publish? && p.qos == 0 { InflightDoneOrdered(c, e1, p, now); }
    }
  }

  lemma TickOrdered(c: Config, e: Engine, now: int)
    requires Inv(c, e) && Ordered(c, e) && Running(e)
    ensures Ordered(c, TickStep(c, e, now))
  {
    var e1 := Resend(c, e, now);
    SameBookkeeping(c, e, e1);
    assert Sent(e1) == Sent(e) + DuePackets(e.inflight, now);
    SentGrows(e, e1);
    if |e1.inflight| < c.maxSizeOfInflight && |e1.sendq| < c.maxSizeOfPublishMsg { RefillOrdered(c, e1, now); }
  }

  lemma ReceiveOrdered(c: Config, e: Engine, p: Packet, now: int)
    requires Inv(c, e) && Ordered(c, e) && Running(ReceiveStep(c, e, p, now))
    ensures Ordered(c, ReceiveStep(c, e, p, now))
  {
    if EndsFlow(p) && !p.Publish? {
      InflightDoneOrdered(c, e, p, now);
    } else {
      SentGrows(e, ReceiveStep(c, e, p, now));
    }
  }

  lemma SendOrdered(c: Config, e: Engine, p: Packet, now: int)
    requires Ordered(c, e)
    ensures Ordered(c, SendStep(c, e, p, now))
  {
    SentGrows(e, SendStep(c, e, p, now));
  }

  lemma ApplyOrdered(c: Config, e: Engine, ev: Event)
    requires Inv(c, e) && Ordered(c, e) && Quiet(c, e, ev) && Running(Apply(c, e, ev))
    ensures Ordered(c, Apply(c, e, ev))
  {
    match ev
    case PublishEv(now, live, qos, body) => PublishOrdered(c, e, live, qos, body, now);
    case SendEv(now, p) => SendOrdered(c, e, p, now);
    case ReceiveEv(now, p) => ReceiveOrdered(c, e, p, now);
    case WriteEv(now, open) => WriteOrdered(c, e, open, now);
    case TickEv(now) => TickOrdered(c, e, now);
    case WriteFailEv(_) =>
    case StopEv(_) =>
  }

  /** A stopped or crashed engine never runs again. */
  lemma RunningBefore(c: Config, e: Engine, ev: Event)
    requires Running(Apply(c, e, ev))
    ensures Running(e)
  {
  }

  /**
    As long as the send queue is below MaxSizeOfPublishMsg at every Publish, a non-empty pending queue means
    a full window, and publishes enter the wire in the order their calls were numbered.
  */
  lemma {:induction false} NoIdleWindowAndFifo(c: Config, evs: seq<Event>)
    requires QuietRun(c, evs) && Running(Run(c, evs))
    ensures NoIdle(c, Run(c, evs)) && Fifo(Run(c, evs)) && OnTheWire(Run(c, evs))
  {
    if evs != [] {
      var evs0 := evs[..|evs| - 1];
      RunningBefore(c, Run(c, evs0), evs[|evs| - 1]);
      NoIdleWindowAndFifo(c, evs0);
      RunInvariant(c, evs0);
      ApplyOrdered(c, Run(c, evs0), evs[|evs| - 1]);
    }
  }

  /** A live Publish in a state with pending packets keeps the order exactly when it does not enter the window itself. */
  lemma OvertakesExactly(c: Config, e: Engine, qos: nat, body: Message, now: int)
    requires Inv(c, e) && Running(e) && Fifo(e) && e.pending != []
    ensures Fifo(PublishStep(c, e, true, qos, body, now))
       <==> !(|e.inflight| < c.maxSizeOfInflight && |e.sendq| < c.maxSizeOfPublishMsg)
  {
    var e' := PublishStep(c, e, true, qos, body, now);
    if |e.inflight| < c.maxSizeOfInflight && |e.sendq| < c.maxSizeOfPublishMsg {
      var k := |e.admitted|;
      assert Lined(e)[k] == SerialOf(e.pending[0]) <= e.lastMsgId;
      assert Lined(e')[k] == e.lastMsgId + 1 && Lined(e')[k + 1] == SerialOf(e.pending[0]);
    } else {
      PublishLined(c, e, qos, body, now);
    }
  }

  /** A live Publish leaves no window idle exactly when the window is full or the send queue has room. */
  lemma IdlesExactly(c: Config, e: Engine, qos: nat, body: Message, now: int)
    requires Inv(c, e) && Running(e) && NoIdle(c, e)
    ensures NoIdle(c, PublishStep(c, e, true, qos, body, now))
       <==> |e.inflight| >= c.maxSizeOfInflight || |e.sendq| < c.maxSizeOfPublishMsg
  {
  }

  /** The send-queue bound is needed: three publishes and one write, and the third goes out before the second. */
  lemma BusySendQueueReorders(body: Message)
    ensures var c := ConfigValues(2, 1, 1);
            var e1 := PublishStep(c, Initial, true, 1, body, 0);
            var e2 := PublishStep(c, e1, true, 1, body, 0);
            var e3 := WriteStep(c, e2, true, 0);
            var e4 := PublishStep(c, e3, true, 1, body, 0);
            && !NoIdle(c, e2)
            && AdmittedSerials(e4.admitted) == [1, 3] && PtSerials(e4.pending) == [2] && !Fifo(e4)
  {
    var c := ConfigValues(2, 1, 1);
    var e1 := PublishStep(c, Initial, true, 1, body, 0);
    var e2 := PublishStep(c, e1, true, 1, body, 0);
    var e3 := WriteStep(c, e2, true, 0);
    var e4 := PublishStep(c, e3, true, 1, body, 0);
    assert |e1.inflight| == 1 && |e1.sendq| == 1;
    assert |e2.pending| == 1 && |e2.inflight| == 1;
    assert e3.sendq == [] && e3.pending == e2.pending;
    assert AdmittedSerials(e4.admitted) == [1, 3];
    assert PtSerials(e4.pending) == [2];
    assert Lined(e4)[1] == 3 && Lined(e4)[2] == 2;
  }

  // ---------------------------------------------------------------- the identifier window

  /** Two counter values less than 65536 apart get different identifiers. */
  lemma IdsDistinctInWindow(s: nat, t: nat)
    requires s < t < s + 65536
    ensures IdOf(s) != IdOf(t)
  {
  }

  /** All in-flight packets are numbered, within the last 65536 counter values, and no two alike. */
  ghost predicate InWindow(e: Engine) {
    && (forall k | 0 <= k < |e.inflight| :: e.inflight[k].pt.t.Some? && e.lastMsgId - 65536 < SerialOf(e.inflight[k].pt) <= e.lastMsgId)
    && (forall j, k | 0 <= j < k < |e.inflight| :: SerialOf(e.inflight[j].pt) != SerialOf(e.inflight[k].pt))
  }

  /** A SUBACK with a code for every filter that was subscribed to. */
  predicate Answers(ack: Packet, pt: PacketAndToken)
    requires ack.Suback?
  {
    pt.t.Some? && pt.t.value.SubscribeToken? && |pt.t.value.subs| <= |ack.codes|
  }

  /** The step took entry k out of flight, completed its token and no other, and touched nothing before the places behind. */
  ghost predicate CompletesEntry(e: Engine, e': Engine, k: nat)
    requires k < |e.inflight|
  {
    && e'.completed == e.completed + [SerialOf(e.inflight[k].pt)] && !e'.crashed
    && |e'.inflight| >= |e.inflight| - 1 && e'.inflight[..|e.inflight| - 1] == e.inflight[..k] + e.inflight[k + 1..]
  }

  lemma FinishCompletes(e: Engine, ack: Packet, k: nat)
    requires TokensOk(e) && InWindow(e) && !e.crashed && k < |e.inflight|
    requires EndsFlow(ack) && (ack.Suback? ==> Answers(ack, e.inflight[k].pt))
    requires ack.MessageId() == e.inflight[k].pt.p.MessageId()
    ensures Finish(e, ack).inflight == e.inflight[..k] + e.inflight[k + 1..] && !Finish(e, ack).crashed
    ensures Finish(e, ack).completed == e.completed + [SerialOf(e.inflight[k].pt)]
  {
    var f := FirstWithId(e.inflight, ack.MessageId());
    assert TokenOk(e.inflight[k].pt);
    if f < k {
      assert TokenOk(e.inflight[f].pt);
      var s, t := SerialOf(e.inflight[f].pt), SerialOf(e.inflight[k].pt);
      if s < t { IdsDistinctInWindow(s, t); } else { IdsDistinctInWindow(t, s); }
    }
  }

  lemma PumpKeepsEntries(c: Config, e: Engine, now: int)
    ensures Pump(c, e, now).completed == e.completed && Pump(c, e, now).crashed == e.crashed
    ensures e.inflight <= Pump(c, e, now).inflight
  {
  }

  lemma DoneCompletes(c: Config, e: Engine, ack: Packet, now: int, k: nat)
    requires TokensOk(e) && InWindow(e) && !e.crashed && k < |e.inflight|
    requires EndsFlow(ack) && (ack.Suback? ==> Answers(ack, e.inflight[k].pt))
    requires ack.MessageId() == e.inflight[k].pt.p.MessageId()
    ensures CompletesEntry(e, InflightDone(c, e, ack, now), k)
  {
    FinishCompletes(e, ack, k);
    PumpKeepsEntries(c, Finish(e, ack), now);
  }

  /**
    Inside the window an acknowledgement that arrives takes out of flight, and completes, exactly the packet it names,
    and so does the writing of a QoS 0 publish.
  */
  lemma AckCompletesItsMessage(c: Config, e: Engine, ack: Packet, now: int, k: nat)
    requires TokensOk(e) && InWindow(e) && !e.crashed && k < |e.inflight|
    requires ack.MessageId() == e.inflight[k].pt.p.MessageId()
    ensures ack.Puback? || ack.Pubcomp? || ack.Unsuback? || (ack.Suback? && Answers(ack, e.inflight[k].pt)) ==>
              CompletesEntry(e, ReceiveStep(c, e, ack, now), k)
    ensures ack.Publish? && ack.qos == 0 && e.sendq != [] && e.sendq[0] == ack ==>
              CompletesEntry(e, WriteStep(c, e, true, now), k)
  {
    if EndsFlow(ack) && (ack.Suback? ==> Answers(ack, e.inflight[k].pt)) {
      DoneCompletes(c, e, ack, now, k);
      if e.sendq != [] { DoneCompletes(c, e.(sendq := e.sendq[1..], written := e.written + [e.sendq[0]]), ack, now, k); }
    }
  }

  /** Publish, resends, writes, and acknowledgements that name nothing or the oldest in-flight packet. */
  ghost predicate InOrderEvent(e: Engine, ev: Event) {
    match ev
    case PublishEv(_, live, _, _) => live
    case SendEv(_, _) => false
    case ReceiveEv(_, p) => EndsFlow(p) ==> FirstWithId(e.inflight, p.MessageId()) in {0, |e.inflight|}
    case WriteEv(_, _) => e.sendq != [] && EndsFlow(e.sendq[0]) ==> FirstWithId(e.inflight, e.sendq[0].MessageId()) in {0, |e.inflight|}
    case TickEv(_) => true
    case WriteFailEv(_) => false
    case StopEv(_) => false
  }

  ghost predicate InOrderRun(c: Config, evs: seq<Event>) {
    evs == [] || (InOrderRun(c, evs[..|evs| - 1]) && InOrderEvent(Run(c, evs[..|evs| - 1]), evs[|evs| - 1]))
  }

  ghost function Outstanding(e: Engine): seq<nat> {
    EntrySerials(e.inflight) + PtSerials(e.pending) + PtSerials(e.blocked)
  }

  /** The outstanding packets are exactly the most recent counter values, in order. */
  ghost predicate Contiguous(c: Config, e: Engine) {
    && |e.inflight| <= c.maxSizeOfInflight
    && |Outstanding(e)| <= e.lastMsgId
    && forall i | 0 <= i < |Outstanding(e)| :: Outstanding(e)[i] == e.lastMsgId - |Outstanding(e)| + 1 + i
  }

  lemma HeadTaken<T>(x: T, a: seq<T>, p: seq<T>, b: seq<T>)
    ensures (([x] + a) + p) + b == [x] + ((a + p) + b)
  {
  }

  lemma TokenKeepsOutstanding(e: Engine)
    ensures Outstanding(TakeToken(e)) == Outstanding(e)
  {
    if e.tokens != 0 && e.blocked != [] {
      var x, rest := SerialOf(e.blocked[0]), PtSerials(e.blocked[1..]);
      assert PtSerials(e.blocked) == [x] + rest;
      assert PtSerials(e.pending + [e.blocked[0]]) == PtSerials(e.pending) + [x];
      assert EntrySerials(e.inflight) + (PtSerials(e.pending) + [x]) + rest
          == EntrySerials(e.inflight) + PtSerials(e.pending) + ([x] + rest);
    }
  }

  lemma RefillOutstanding(c: Config, e: Engine, now: int)
    requires TokensOk(e) && !e.stopped
    ensures Outstanding(Refill(c, e, now)) == Outstanding(e)
  {
    TokenKeepsOutstanding(e);
    var e1, e' := TakeToken(e), Refill(c, e, now);
    if e1.pending != [] {
      var x := SerialOf(e1.pending[0]);
      assert EntrySerials(e'.inflight) == EntrySerials(e.inflight) + [x];
      assert PtSerials(e1.pending) == [x] + PtSerials(e'.pending);
      HeadMovesLeft(EntrySerials(e.inflight), x, PtSerials(e'.pending), PtSerials(e'.blocked));
      assert Outstanding(e1) == EntrySerials(e.inflight) + (PtSerials(e1.pending) + PtSerials(e1.blocked));
    }
  }

  lemma RefillContiguous(c: Config, e: Engine, now: int)
    requires TokensOk(e) && !e.stopped && Contiguous(c, e) && |e.inflight| < c.maxSizeOfInflight
    ensures Contiguous(c, Refill(c, e, now))
  {
    RefillOutstanding(c, e, now);
    RefillFrame(c, e, now);
    assert |Refill(c, e, now).inflight| <= |e.inflight| + 1;
  }

  lemma FinishHead(e: Engine, p: Packet)
    requires e.inflight != [] && FirstWithId(e.inflight, p.MessageId()) == 0
    ensures Finish(e, p).inflight == e.inflight[1..]
  {
  }

  lemma EntriesTail(es: seq<InflightMsg>)
    requires es != []
    ensures EntrySerials(es) == [SerialOf(es[0].pt)] + EntrySerials(es[1..])
  {
  }

  lemma FinishOutstanding(e: Engine, p: Packet)
    requires e.inflight != [] && FirstWithId(e.inflight, p.MessageId()) == 0
    ensures Outstanding(Finish(e, p)) == Outstanding(e)[1..]
  {
    FinishHead(e, p);
    FinishFrame(e, p);
    EntriesTail(e.inflight);
    HeadTaken(SerialOf(e.inflight[0].pt), EntrySerials(e.inflight[1..]), PtSerials(e.pending), PtSerials(e.blocked));
  }

  lemma FinishContiguous(c: Config, e: Engine, p: Packet)
    requires Contiguous(c, e) && FirstWithId(e.inflight, p.MessageId()) in {0, |e.inflight|}
    ensures Contiguous(c, Finish(e, p))
  {
    if e.inflight != [] && FirstWithId(e.inflight, p.MessageId()) == 0 {
      FinishOutstanding(e, p);
      assert |Outstanding(e)| >= 1;
    }
  }

  lemma InflightDoneContiguous(c: Config, e: Engine, p: Packet, now: int)
    requires Inv(c, e) && Contiguous(c, e) && Running(InflightDone(c, e, p, now))
    requires EndsFlow(p) ==> FirstWithId(e.inflight, p.MessageId()) in {0, |e.inflight|}
    ensures Contiguous(c, InflightDone(c, e, p, now))
  {
    var e1 := if EndsFlow(p) then Finish(e, p) else e;
    if EndsFlow(p) {
      FinishContiguous(c, e, p);
      FinishKeeps(c, e, p);
    }
    if |e1.inflight| < c.maxSizeOfInflight { RefillContiguous(c, e1, now); }
  }

  lemma SameOutstanding(c: Config, e: Engine, e': Engine)
    requires Contiguous(c, e)
    requires e'.lastMsgId == e.lastMsgId && e'.pending == e.pending && e'.blocked == e.blocked
    requires |e'.inflight| == |e.inflight|
    requires forall j | 0 <= j < |e.inflight| :: e'.inflight[j].pt.t == e.inflight[j].pt.t
    ensures Contiguous(c, e')
  {
    assert EntrySerials(e'.inflight) == EntrySerials(e.inflight);
  }

  lemma PublishContiguous(c: Config, e: Engine, qos: nat, body: Message, now: int)
    requires Bounded(c, e) && NoIdle(c, e) && Contiguous(c, e) && !e.stopped && |e.sendq| < c.maxSizeOfPublishMsg
    ensures Contiguous(c, PublishStep(c, e, true, qos, body, now))
  {
    var e' := PublishStep(c, e, true, qos, body, now);
    var x := e.lastMsgId + 1;
    if |e.inflight| < c.maxSizeOfInflight {
      assert EntrySerials(e'.inflight) == EntrySerials(e.inflight) + [x];
      assert Outstanding(e') == Outstanding(e) + [x];
    } else if e.tokens < c.maxSizeOfPublishMsg {
      assert PtSerials(e'.pending) == PtSerials(e.pending) + [x];
      assert Outstanding(e') == Outstanding(e) + [x];
    } else {
      assert PtSerials(e'.blocked) == PtSerials(e.blocked) + [x];
      assert Outstanding(e') == Outstanding(e) + [x];
    }
  }

  lemma WriteContiguous(c: Config, e: Engine, open: bool, now: int)
    requires Inv(c, e) && Contiguous(c, e) && InOrderEvent(e, WriteEv(now, open)) && Running(WriteStep(c, e, open, now))
    ensures Contiguous(c, WriteStep(c, e, open, now))
  {
    if e.sendq != [] {
      var p, e1 := e.sendq[0], e.(sendq := e.sendq[1..], written := e.written + [e.sendq[0]]);
      SameOutstanding(c, e, e1);
      SameBookkeeping(c, e, e1);
      if open && p.Publish? && p.qos == 0 { InflightDoneContiguous(c, e1, p, now); }
    }
  }

  lemma TickContiguous(c: Config, e: Engine, now: int)
    requires Inv(c, e) && Contiguous(c, e) && Running(e)
    ensures Contiguous(c, TickStep(c, e, now))
  {
    var e1 := Resend(c, e, now);
    SameOutstanding(c, e, e1);
    SameBookkeeping(c, e, e1);
    if |e1.inflight| < c.maxSizeOfInflight && |e1.sendq| < c.maxSizeOfPublishMsg { RefillContiguous(c, e1, now); }
  }

  lemma ReceiveContiguous(c: Config, e: Engine, p: Packet, now: int)
    requires Inv(c, e) && Contiguous(c, e) && InOrderEvent(e, ReceiveEv(now, p)) && Running(ReceiveStep(c, e, p, now))
    ensures Contiguous(c, ReceiveStep(c, e, p, now))
  {
    if EndsFlow(p) && !p.Publish? {
      InflightDoneContiguous(c, e, p, now);
    } else {
      SameOutstanding(c, e, ReceiveStep(c, e, p, now));
    }
  }

  lemma ApplyContiguous(c: Config, e: Engine, ev: Event)
    requires Inv(c, e) && NoIdle(c, e) && Contiguous(c, e) && Quiet(c, e, ev) && InOrderEvent(e, ev)
    requires Running(Apply(c, e, ev))
    ensures Contiguous(c, Apply(c, e, ev))
  {
    match ev
    case PublishEv(now, live, qos, body) => PublishContiguous(c, e, qos, body, now);
    case ReceiveEv(now, p) => ReceiveContiguous(c, e, p, now);
    case WriteEv(now, open) => WriteContiguous(c, e, open, now);
    case TickEv(now) => TickContiguous(c, e, now);
  }

  lemma {:induction false} InOrderIsContiguous(c: Config, evs: seq<Event>)
    requires InOrderRun(c, evs) && QuietRun(c, evs) && Running(Run(c, evs))
    ensures Contiguous(c, Run(c, evs))
  {
    if evs != [] {
      var evs0 := evs[..|evs| - 1];
      RunningBefore(c, Run(c, evs0), evs[|evs| - 1]);
      InOrderIsContiguous(c, evs0);
      RunInvariant(c, evs0);
      NoIdleWindowAndFifo(c, evs0);
      ApplyContiguous(c, Run(c, evs0), evs[|evs| - 1]);
    }
  }

  /**
    With in-order acknowledgements the window and pending bounds keep all outstanding packets inside one
    turn of the 16-bit counter, so every acknowledgement completes exactly the message it names.
  */
  lemma {:induction false} InOrderAcksAreExact(c: Config, evs: seq<Event>, ack: Packet, now: int, k: nat)
    requires InOrderRun(c, evs) && QuietRun(c, evs) && Running(Run(c, evs))
    requires c.maxSizeOfInflight + c.maxSizeOfPublishMsg + |Run(c, evs).blocked| <= 65536
    requires k < |Run(c, evs).inflight| && (ack.Puback? || ack.Pubcomp?)
    requires ack.MessageId() == Run(c, evs).inflight[k].pt.p.MessageId()
    ensures InWindow(Run(c, evs)) && CompletesEntry(Run(c, evs), ReceiveStep(c, Run(c, evs), ack, now), k)
  {
    var e := Run(c, evs);
    InOrderIsContiguous(c, evs);
    RunInvariant(c, evs);
    forall j | 0 <= j < |e.inflight| ensures SerialOf(e.inflight[j].pt) == e.lastMsgId - |Outstanding(e)| + 1 + j {
      assert Outstanding(e)[j] == EntrySerials(e.inflight)[j];
    }
    AckCompletesItsMessage(c, e, ack, now, k);
  }

  // ---------------------------------------------------------------- the resend timer

  /** The positions of the due entries. */
  ghost function DueAt(es: seq<InflightMsg>, now: int): (idx: seq<nat>) {
    if es == [] then []
    else DueAt(es[..|es| - 1], now) + (if Due(es[|es| - 1], now) then [|es| - 1] else [])
  }

  lemma {:induction false} DueAtExact(es: seq<InflightMsg>, now: int)
    ensures forall k: nat :: k in DueAt(es, now) <==> k < |es| && es[k].timeout <= now
    ensures forall i, j | 0 <= i < j < |DueAt(es, now)| :: DueAt(es, now)[i] < DueAt(es, now)[j]
  {
    if es != [] {
      var n := |es| - 1;
      DueAtExact(es[..n], now);
      var idx0 := DueAt(es[..n], now);
      forall i | 0 <= i < |idx0| ensures idx0[i] < n {
        assert idx0[i] in idx0;
      }
    }
  }

  lemma {:induction false} DuePacketsAt(es: seq<InflightMsg>, now: int)
    ensures |DuePackets(es, now)| == |DueAt(es, now)|
    ensures forall i | 0 <= i < |DueAt(es, now)| ::
              DueAt(es, now)[i] < |es| && DuePackets(es, now)[i] == es[DueAt(es, now)[i]].pt.p
  {
    if es != [] {
      DuePacketsAt(es[..|es| - 1], now);
    }
  }

  /**
    What one tick resends: the packets of exactly the due entries, in list order; the list keeps its length
    and its packets, only the due entries count a retry, and afterwards nothing in the list is due.
  */
  lemma TickResendsDue(c: Config, e: Engine, now: int)
    requires !e.stopped
    ensures var e', idx := Resend(c, e, now), DueAt(e.inflight, now);
            && (forall k: nat :: k in idx <==> k < |e.inflight| && e.inflight[k].timeout <= now)
            && (forall i, j | 0 <= i < j < |idx| :: idx[i] < idx[j])
            && |e'.sendq| == |e.sendq| + |idx| && e'.sendq[..|e.sendq|] == e.sendq
            && (forall i | 0 <= i < |idx| :: idx[i] < |e.inflight| && e'.sendq[|e.sendq| + i] == e.inflight[idx[i]].pt.p)
            && |e'.inflight| == |e.inflight|
            && forall k | 0 <= k < |e.inflight| ::
                 && e'.inflight[k].pt == e.inflight[k].pt && e'.inflight[k].timeout > now
                 && e'.inflight[k].retryCnt == e.inflight[k].retryCnt + (if e.inflight[k].timeout <= now then 1 else 0)
  {
    DueAtExact(e.inflight, now);
    DuePacketsAt(e.inflight, now);
  }

  /** The whole tick adds at most the head of the pending queue to list and queue, and leaves nothing due. */
  lemma TickExtends(c: Config, e: Engine, now: int)
    requires TokensOk(e) && !e.stopped
    ensures var r, t := Resend(c, e, now), TickStep(c, e, now);
            var pending := TakeToken(r).pending;
            && (if |r.inflight| < c.maxSizeOfInflight && |r.sendq| < c.maxSizeOfPublishMsg && pending != [] then
                  && t.inflight == r.inflight + [InflightMsg(pending[0], now + c.sentTimeout, 0, now, true)]
                  && t.sendq == r.sendq + [pending[0].p] && t.pending == pending[1..]
                else t.inflight == r.inflight && t.sendq == r.sendq)
            && forall k | 0 <= k < |t.inflight| :: t.inflight[k].timeout > now
  {
    var r := Resend(c, e, now);
    if TakeToken(r).pending != [] { TakeTokenQueued(r); }
  }

  lemma TakeTokenQueued(e: Engine)
    requires TokensOk(e)
    ensures forall k | 0 <= k < |TakeToken(e).pending| :: QueuedOk(TakeToken(e).pending[k])
  {
  }

  /** Every retry cost a full timeout since the entry was inserted, and no timer runs longer than one. */
  ghost predicate Timely(c: Config, m: InflightMsg, clock: int) {
    && m.born + Waited(c, m.retryCnt) + c.sentTimeout <= m.timeout
    && m.timeout <= clock + c.sentTimeout
  }

  ghost function Waited(c: Config, retryCnt: nat): nat {
    retryCnt * c.sentTimeout
  }

  lemma OneMoreRetry(c: Config, n: nat)
    ensures Waited(c, n + 1) == Waited(c, n) + c.sentTimeout
  {
  }

  ghost predicate AllTimely(c: Config, e: Engine, clock: int) {
    forall k | 0 <= k < |e.inflight| :: Timely(c, e.inflight[k], clock)
  }

  lemma FreshTimely(c: Config, pt: PacketAndToken, now: int, windowed: bool)
    ensures Timely(c, InflightMsg(pt, now + c.sentTimeout, 0, now, windowed), now)
  {
    assert Waited(c, 0) == 0;
  }

  lemma RefillTimely(c: Config, e: Engine, now: int)
    requires AllTimely(c, e, now)
    ensures AllTimely(c, Refill(c, e, now), now)
  {
    var e1 := TakeToken(e);
    if e1.pending != [] { FreshTimely(c, e1.pending[0], now, true); }
  }

  lemma FinishTimely(c: Config, e: Engine, ack: Packet, now: int)
    requires AllTimely(c, e, now)
    ensures AllTimely(c, Finish(e, ack), now)
  {
  }

  lemma InflightDoneTimely(c: Config, e: Engine, p: Packet, now: int)
    requires AllTimely(c, e, now)
    ensures AllTimely(c, InflightDone(c, e, p, now), now)
  {
    FinishTimely(c, e, p, now);
    var e1 := if EndsFlow(p) then Finish(e, p) else e;
    RefillTimely(c, e1, now);
  }

  lemma TickTimely(c: Config, e: Engine, now: int)
    requires AllTimely(c, e, now)
    ensures AllTimely(c, TickStep(c, e, now), now)
  {
    forall k | 0 <= k < |e.inflight| ensures Timely(c, Rearmed(c, e.inflight[k], now), now) {
      OneMoreRetry(c, e.inflight[k].retryCnt);
    }
    RefillTimely(c, Resend(c, e, now), now);
  }

  lemma PublishTimely(c: Config, e: Engine, live: bool, qos: nat, body: Message, now: int)
    requires AllTimely(c, e, now)
    ensures AllTimely(c, PublishStep(c, e, live, qos, body, now), now)
  {
    FreshTimely(c, FreshPublish(e, qos, body), now, true);
  }

  lemma SendTimely(c: Config, e: Engine, p: Packet, now: int)
    requires AllTimely(c, e, now)
    ensures AllTimely(c, SendStep(c, e, p, now), now)
  {
    FreshTimely(c, Numbered(p, e.lastMsgId + 1), now, false);
  }

  lemma ReceiveTimely(c: Config, e: Engine, p: Packet, now: int)
    requires AllTimely(c, e, now)
    ensures AllTimely(c, ReceiveStep(c, e, p, now), now)
  {
    if EndsFlow(p) && !p.Publish? {
      InflightDoneTimely(c, e, p, now);
    } else if p.Pubrec? {
      var es := Released(e.inflight, p.id);
      assert forall k | 0 <= k < |es| :: Timely(c, e.inflight[k], now) ==> Timely(c, es[k], now);
    }
  }

  lemma ApplyTimely(c: Config, e: Engine, ev: Event, clock: int)
    requires AllTimely(c, e, clock) && ev.now >= clock
    ensures AllTimely(c, Apply(c, e, ev), ev.now)
  {
    assert AllTimely(c, e, ev.now);
    match ev
    case PublishEv(now, live, qos, body) => PublishTimely(c, e, live, qos, body, now);
    case SendEv(now, p) => SendTimely(c, e, p, now);
    case ReceiveEv(now, p) => ReceiveTimely(c, e, p, now);
    case WriteEv(now, open) =>
      if e.sendq != [] {
        InflightDoneTimely(c, e.(sendq := e.sendq[1..], written := e.written + [e.sendq[0]]), e.sendq[0], now);
      }
    case TickEv(now) => TickTimely(c, e, now);
    case WriteFailEv(_) =>
    case StopEv(_) =>
  }

  ghost predicate ClockMonotone(evs: seq<Event>) {
    forall i, j | 0 <= i <= j < |evs| :: evs[i].now <= evs[j].now
  }

  /** Over any run, retries are at most one per SentTimeout since insertion. */
  lemma {:induction false} ResendBound(c: Config, evs: seq<Event>)
    requires ClockMonotone(evs) && evs != []
    ensures var now := evs[|evs| - 1].now;
            forall k | 0 <= k < |Run(c, evs).inflight| ::
              var m := Run(c, evs).inflight[k];
              m.retryCnt * c.sentTimeout <= now - m.born && m.timeout <= now + c.sentTimeout
    ensures AllTimely(c, Run(c, evs), evs[|evs| - 1].now)
  {
    var evs0, ev := evs[..|evs| - 1], evs[|evs| - 1];
    if evs0 == [] {
      ApplyTimely(c, Initial, ev, ev.now);
    } else {
      ResendBound(c, evs0);
      ApplyTimely(c, Run(c, evs0), ev, evs0[|evs0| - 1].now);
    }
    forall k | 0 <= k < |Run(c, evs).inflight|
      ensures Run(c, evs).inflight[k].retryCnt * c.sentTimeout <= ev.now - Run(c, evs).inflight[k].born
    {
      assert Timely(c, Run(c, evs).inflight[k], ev.now);
      assert Waited(c, Run(c, evs).inflight[k].retryCnt) == Run(c, evs).inflight[k].retryCnt * c.sentTimeout;
    }
  }
}
