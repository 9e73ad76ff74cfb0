/**
  session/session.go, session/msg-handler.go and session/channel.go as classes whose methods update their
  fields.  Every method is proved to take the abstract state, `View()` and `LifeView()`, through the
  corresponding step of `Engine` and `Lifecycle`, where the theorems about whole runs are.
*/
module SessionImpl {
  import opened Common
  import opened Engine
  import opened UtilsList
  import E = Engine
  import EngineOrder
  import L = Lifecycle

  /** The send queue and the connection behind it. */
  class Channel {
    var isStoped: bool
    const iSendList: List<Packet>
    var conn: seq<Packet>   // everything written to the connection

    constructor ()
      ensures !isStoped && conn == [] && iSendList.items == [] && fresh(iSendList)
    {
      isStoped, conn := false, [];
      iSendList := new List();
    }

    method Send(msg: Packet)
      modifies iSendList
      ensures iSendList.items == if isStoped then old(iSendList.items) else old(iSendList.items) + [msg]
    {
      if !isStoped { iSendList.Push(msg); }
    }

    /** One round of the inner loop of sendRun: pop the head of the queue and write it. */
    method WriteNext() returns (msg: Option<Packet>)
      modifies this`conn, iSendList
      ensures conn + iSendList.items == old(conn + iSendList.items)
      ensures if old(iSendList.items) == [] then msg == None && conn == old(conn) && iSendList.items == []
              else msg == Some(old(iSendList.items)[0]) && conn == old(conn) + [old(iSendList.items)[0]]
                   && iSendList.items == old(iSendList.items)[1..]
    {
      msg := iSendList.Pop();
      if msg.Some? { conn := conn + [msg.value]; }
    }

    /** The round of sendRun whose write fails: the popped message is gone and the channel stops. */
    method FailNext() returns (msg: Option<Packet>)
      modifies this`isStoped, iSendList
      ensures old(iSendList.items) == [] ==> msg == None && isStoped == old(isStoped) && iSendList.items == []
      ensures old(iSendList.items) != [] ==>
                msg == Some(old(iSendList.items)[0]) && isStoped && iSendList.items == old(iSendList.items)[1..]
    {
      msg := iSendList.Pop();
      if msg.Some? { isStoped := true; }
    }

    method Close()
      modifies this`isStoped
      ensures isStoped
    {
      isStoped := true;
    }
  }

  // ---------------------------------------------------------------- the callbacks passed to the lists

  /** removeInflightMsg: stop at the first entry with this identifier and delete it. */
  function RemoveCb(id: Id): (Option<InflightMsg>, InflightMsg) -> (Option<InflightMsg>, bool, bool) {
    (imsg: Option<InflightMsg>, v: InflightMsg) =>
      if v.pt.p.MessageId() == id then (Some(v), true, false) else (None, false, true)
  }

  /** updateInflightMsg: give every entry with this identifier the PUBREL. */
  function UpdateCb(id: Id): (Option<InflightMsg>, InflightMsg) -> (Option<InflightMsg>, InflightMsg, bool) {
    (imsg: Option<InflightMsg>, v: InflightMsg) =>
      var v' := if v.pt.p.MessageId() == id then v.(pt := v.pt.(p := Pubrel(id))) else v;
      (Some(v'), v', false)
  }

  /** The variables checkInflightList's callback captures: the positions collected, and where it is. */
  datatype Collected = Collected(idx: seq<nat>, at: nat)

  /** checkInflightList: collect the positions of the due entries. */
  function DueCb(now: int): (Collected, InflightMsg) -> (Collected, InflightMsg, bool) {
    (tm: Collected, v: InflightMsg) =>
      (Collected(if v.timeout <= now then tm.idx + [tm.at] else tm.idx, tm.at + 1), v, false)
  }

  lemma RemoveCbStep(es: seq<InflightMsg>, id: Id)
    requires es != []
    ensures var t := RemoveSpec(es[1..], RemoveCb(id), None);
            RemoveSpec(es, RemoveCb(id), None) ==
            if es[0].pt.p.MessageId() == id then (Some(es[0]), [] + es[1..]) else (t.0, [es[0]] + t.1)
  {
  }

  lemma HeadAndGap<T>(es: seq<T>, k: nat)
    requires 0 < k < |es|
    ensures es[..k] + es[k + 1..] == [es[0]] + (es[1..][..k - 1] + es[1..][k..])
  {
  }

  lemma {:induction false} RemoveCbFinds(es: seq<InflightMsg>, id: Id)
    ensures var k := FirstWithId(es, id);
            RemoveSpec(es, RemoveCb(id), None) ==
            if k < |es| then (Some(es[k]), es[..k] + es[k + 1..]) else (None, es)
  {
    if es != [] {
      RemoveCbStep(es, id);
      if es[0].pt.p.MessageId() == id {
        assert es[..0] + es[1..] == [] + es[1..];
      } else {
        var k := FirstWithId(es, id);
        RemoveCbFinds(es[1..], id);
        if k < |es| { HeadAndGap(es, k); } else { assert es == [es[0]] + es[1..]; }
      }
    }
  }

  lemma {:induction false} UpdateCbReleases(es: seq<InflightMsg>, id: Id, imsg: Option<InflightMsg>)
    ensures EachSpec(es, UpdateCb(id), imsg).1 == Released(es, id)
  {
    if es != [] {
      var (s1, x, stop) := UpdateCb(id)(imsg, es[0]);
      UpdateCbReleases(es[1..], id, s1);
      assert Released(es, id) == [x] + Released(es[1..], id);
    }
  }

  /** Positions found in b, when b comes after n other elements. */
  ghost function Shifted(idx: seq<nat>, n: nat): seq<nat> {
    seq(|idx|, i requires 0 <= i < |idx| => idx[i] + n)
  }

  lemma ShiftedPush(d: seq<nat>, x: nat, n: nat)
    ensures Shifted(d + [x], n) == Shifted(d, n) + [x + n]
  {
  }

  /** The positions of the due entries, taking the last entry off a list of at least two. */
  lemma DueAtTails(es: seq<InflightMsg>, now: int)
    requires |es| > 1
    ensures var n := |es| - 1;
            && EngineOrder.DueAt(es, now) == EngineOrder.DueAt(es[..n], now) + (if Due(es[n], now) then [n] else [])
            && EngineOrder.DueAt(es[1..], now) == EngineOrder.DueAt(es[..n][1..], now) + (if Due(es[n], now) then [n - 1] else [])
  {
    var n := |es| - 1;
    assert es[1..][..n - 1] == es[..n][1..] && es[1..][n - 1] == es[n];
  }

  lemma {:induction false} DueAtHead(es: seq<InflightMsg>, now: int)
    requires es != []
    ensures EngineOrder.DueAt(es, now) == (if Due(es[0], now) then [0] else []) + Shifted(EngineOrder.DueAt(es[1..], now), 1)
  {
    var n := |es| - 1;
    if n == 0 {
      assert es[..0] == [] && es[1..] == [];
    } else {
      DueAtHead(es[..n], now);
      DueAtTails(es, now);
      if Due(es[n], now) { ShiftedPush(EngineOrder.DueAt(es[..n][1..], now), n - 1, 1); }
    }
  }

  lemma ShiftedStep(d: seq<nat>, due: bool, i: nat)
    ensures Shifted((if due then [0] else []) + Shifted(d, 1), i) == (if due then [i] else []) + Shifted(d, i + 1)
  {
  }

  lemma DueCbStep(es: seq<InflightMsg>, now: int, tm: seq<nat>, i: nat)
    requires es != []
    ensures var tm' := if es[0].timeout <= now then tm + [i] else tm;
            var (s, rest) := EachSpec(es[1..], DueCb(now), Collected(tm', i + 1));
            EachSpec(es, DueCb(now), Collected(tm, i)) == (s, [es[0]] + rest)
  {
  }

  lemma {:induction false} DueCbCollects(es: seq<InflightMsg>, now: int, tm: seq<nat>, i: nat)
    ensures EachSpec(es, DueCb(now), Collected(tm, i)) == (Collected(tm + Shifted(EngineOrder.DueAt(es, now), i), i + |es|), es)
  {
    if es == [] {
      assert tm + Shifted([], i) == tm;
    } else {
      var d, due := EngineOrder.DueAt(es[1..], now), es[0].timeout <= now;
      DueCbStep(es, now, tm, i);
      DueCbCollects(es[1..], now, if due then tm + [i] else tm, i + 1);
      DueAtHead(es, now);
      ShiftedStep(d, due, i);
      CollectHead(tm, due, i, Shifted(d, i + 1));
      assert [es[0]] + es[1..] == es;
    }
  }

  lemma CollectHead(tm: seq<nat>, due: bool, i: nat, rest: seq<nat>)
    ensures (if due then tm + [i] else tm) + rest == tm + ((if due then [i] else []) + rest)
  {
  }

  lemma CollectedIsDue(es: seq<InflightMsg>, now: int)
    ensures EachSpec(es, DueCb(now), Collected([], 0)) == (Collected(EngineOrder.DueAt(es, now), |es|), es)
  {
    DueCbCollects(es, now, [], 0);
    assert [] + Shifted(EngineOrder.DueAt(es, now), 0) == EngineOrder.DueAt(es, now);
  }

  /** The list while checkInflightList works through the collected positions. */
  ghost function RearmedAt(c: Config, es: seq<InflightMsg>, now: int, idx: seq<nat>): seq<InflightMsg> {
    seq(|es|, k requires 0 <= k < |es| => if k in idx then Rearmed(c, es[k], now) else es[k])
  }

  lemma RearmOne(c: Config, es: seq<InflightMsg>, now: int, idx: seq<nat>, k: nat)
    requires k < |es| && k !in idx && Due(es[k], now)
    ensures RearmedAt(c, es, now, idx)[k] == es[k]
    ensures RearmedAt(c, es, now, idx)[k := Rearmed(c, es[k], now)] == RearmedAt(c, es, now, idx + [k])
  {
  }

  lemma NotBefore(idx: seq<nat>, i: nat)
    requires i < |idx| && forall j, k | 0 <= j < k < |idx| :: idx[j] < idx[k]
    ensures idx[i] !in idx[..i] && idx[..i + 1] == idx[..i] + [idx[i]]
  {
  }

  /** The in-flight list and the send queue after the first i collected entries. */
  ghost function ListAt(c: Config, es: seq<InflightMsg>, now: int, i: nat): seq<InflightMsg>
    requires i <= |EngineOrder.DueAt(es, now)|
  {
    RearmedAt(c, es, now, EngineOrder.DueAt(es, now)[..i])
  }

  ghost function QueueAt(q: seq<Packet>, es: seq<InflightMsg>, now: int, i: nat): seq<Packet>
    requires i <= |DuePackets(es, now)|
  {
    q + DuePackets(es, now)[..i]
  }

  lemma SameCount(es: seq<InflightMsg>, now: int)
    ensures |DuePackets(es, now)| == |EngineOrder.DueAt(es, now)|
  {
    EngineOrder.DuePacketsAt(es, now);
  }

  lemma ResendStarts(c: Config, q: seq<Packet>, es: seq<InflightMsg>, now: int)
    ensures ListAt(c, es, now, 0) == es && QueueAt(q, es, now, 0) == q
  {
  }

  lemma ResendAdvances(c: Config, q: seq<Packet>, es: seq<InflightMsg>, now: int, i: nat)
    requires i < |EngineOrder.DueAt(es, now)| == |DuePackets(es, now)|
    ensures var k := EngineOrder.DueAt(es, now)[i];
            && k < |es| && ListAt(c, es, now, i)[k] == es[k] && Due(es[k], now)
            && ListAt(c, es, now, i)[k := Rearmed(c, es[k], now)] == ListAt(c, es, now, i + 1)
            && QueueAt(q, es, now, i) + [es[k].pt.p] == QueueAt(q, es, now, i + 1)
  {
    var due, ps := EngineOrder.DueAt(es, now), DuePackets(es, now);
    EngineOrder.DueAtExact(es, now);
    assert due[i] in due;
    NotBefore(due, i);
    RearmOne(c, es, now, due[..i], due[i]);
    EngineOrder.DuePacketsAt(es, now);
    assert q + ps[..i] + [ps[i]] == q + ps[..i + 1];
  }

  lemma ResendEnds(c: Config, q: seq<Packet>, es: seq<InflightMsg>, now: int)
    requires |EngineOrder.DueAt(es, now)| == |DuePackets(es, now)|
    ensures ListAt(c, es, now, |EngineOrder.DueAt(es, now)|) == RearmAll(c, es, now)
    ensures QueueAt(q, es, now, |DuePackets(es, now)|) == q + DuePackets(es, now)
  {
    var due, ps := EngineOrder.DueAt(es, now), DuePackets(es, now);
    EngineOrder.DueAtExact(es, now);
    assert due[..|due|] == due && ps[..|ps|] == ps;
  }

  // ---------------------------------------------------------------- the session

  class Session {
    const cfg: Config
    const isServer: bool
    const channel: Channel
    const inflightingList: List<InflightMsg>
    const peddingMsgList: List<PacketAndToken>
    var peddingChan: nat                   // bytes buffered in the channel of that name
    var waiting: seq<PacketAndToken>       // Publish calls blocked on it, first come first
    var lastMsgId: nat
    var connected: int
    var clostep: nat
    var crashed: bool
    var completed: seq<nat>                // the tokens whose completion channel has been closed
    ghost var issued: seq<nat>
    ghost var admitted: seq<Admission>

    var storeMgr: map<Id, Message>         // this client's messages in the InflightStore
    var delivered: seq<Delivery>

    var willFlag: bool
    var hadDisconnectException: Option<L.Reason>
    var spawned: seq<L.Reason>
    var notified: nat
    var willPublished: nat
    var disconnectedCalls: nat

    ghost predicate Valid() {
      && inflightingList as object != peddingMsgList as object
      && inflightingList as object != channel.iSendList as object
      && peddingMsgList as object != channel.iSendList as object
    }

    ghost function View(): Engine
      reads this, channel, channel.iSendList, inflightingList, peddingMsgList
    {
      Engine(lastMsgId, channel.isStoped, crashed, inflightingList.items, peddingMsgList.items, peddingChan, waiting,
             channel.iSendList.items, channel.conn, issued, admitted, completed)
    }

    ghost function ReceiverView(): Receiver
      reads this, channel, channel.iSendList, inflightingList, peddingMsgList
    {
      Receiver(View(), storeMgr, delivered)
    }

    ghost function LifeView(): L.Life
      reads this
    {
      L.Life(isServer, connected, clostep, willFlag, hadDisconnectException, spawned, notified, willPublished, disconnectedCalls)
    }

    constructor (cfg: Config, isServer: bool)
      ensures Valid() && View() == Initial && LifeView() == L.Fresh(isServer)
      ensures this.cfg == cfg && storeMgr == map[] && delivered == []
      ensures fresh(channel) && fresh(channel.iSendList) && fresh(inflightingList) && fresh(peddingMsgList)
    {
      this.cfg, this.isServer := cfg, isServer;
      channel := new Channel();
      inflightingList := new List();
      peddingMsgList := new List();
      peddingChan, waiting, lastMsgId, connected, clostep, crashed := 0, [], 0, 0, L.OPEN, false;
      completed, issued, admitted, storeMgr, delivered := [], [], [], map[], [];
      willFlag, hadDisconnectException, spawned := false, None, [];
      notified, willPublished, disconnectedCalls := 0, 0, 0;
    }

    // -------------------------------------------------------------- sending

    method Insert2Inflight(pt: PacketAndToken, now: int)
      requires Valid()
      modifies `admitted, inflightingList, channel.iSendList
      ensures View() == Insert(cfg, old(View()), pt, now)
    {
      if channel.isStoped { return; }
      admitted := admitted + [Admission(SerialOf(pt), |channel.conn| + |channel.iSendList.items|)];
      if pt.p.Publish? || pt.p.Pubrec? || pt.p.Pubrel? {
        inflightingList.Push(InflightMsg(pt, now + cfg.sentTimeout, 0, now, true));
      }
      channel.Send(pt.p);
    }

    method Publish(qos: nat, body: Message, now: int) returns (token: Token, outcome: Outcome)
      requires Valid()
      modifies `lastMsgId, `peddingChan, `waiting, `issued, `admitted, inflightingList, peddingMsgList, channel.iSendList
      ensures var live := connected > 0 && clostep != L.CLOSED;
              && View() == PublishStep(cfg, old(View()), live, qos, body, now)
              && outcome == PublishOutcome(cfg, old(View()), live)
      ensures token == PublishToken(lastMsgId) && lastMsgId == old(lastMsgId) + 1
    {
      lastMsgId := lastMsgId + 1;
      token := PublishToken(lastMsgId);
      var pt := PacketAndToken(Packet.Publish(IdOf(lastMsgId), qos, body), Some(token));
      if connected <= 0 || clostep == L.CLOSED { return token, Refused; }
      issued := issued + [lastMsgId];
      ghost var e1 := View();
      var inflights := inflightingList.Len();
      var sending := channel.iSendList.Len();
      if inflights < cfg.maxSizeOfInflight && sending < cfg.maxSizeOfPublishMsg {
        Insert2Inflight(pt, now);
        assert View() == Insert(cfg, e1, pt, now);
        return token, Accepted;
      }
      if peddingChan < cfg.maxSizeOfPublishMsg {
        peddingChan := peddingChan + 1;
        peddingMsgList.Push(pt);
        return token, Accepted;
      }
      waiting := waiting + [pt];
      return token, Outcome.Blocked;
    }

    method Send(msg: Packet, now: int) returns (token: Option<Token>, ok: bool)
      requires Valid()
      modifies `lastMsgId, `issued, inflightingList, channel.iSendList
      ensures View() == SendStep(cfg, old(View()), msg, now)
      ensures ok == !channel.isStoped
      ensures token == if ok then Numbered(msg, old(lastMsgId) + 1).t else None
    {
      if channel.isStoped { return None, false; }
      var p: Packet;
      p, token := Number(msg);
      if TakesSerial(msg) || msg.Pubrec? || msg.Pubrel? {
        inflightingList.Push(InflightMsg(PacketAndToken(p, token), now + cfg.sentTimeout, 0, now, false));
      }
      channel.Send(p);
      ok := true;
    }

    /** The type switch of Send: three packet types take the next identifier. */
    method Number(msg: Packet) returns (p: Packet, token: Option<Token>)
      modifies `lastMsgId, `issued
      ensures PacketAndToken(p, token) == Numbered(msg, old(lastMsgId) + 1)
      ensures lastMsgId == if TakesSerial(msg) then old(lastMsgId) + 1 else old(lastMsgId)
      ensures issued == if TakesSerial(msg) then old(issued) + [lastMsgId] else old(issued)
    {
      p, token := msg, None;
      match msg {
        case Publish(_, qos, body) =>
          lastMsgId := lastMsgId + 1;
          p, token := Packet.Publish(IdOf(lastMsgId), qos, body), Some(PublishToken(lastMsgId));
        case Subscribe(_, topics) =>
          lastMsgId := lastMsgId + 1;
          p, token := Packet.Subscribe(IdOf(lastMsgId), topics), Some(SubscribeToken(lastMsgId, topics));
        case Unsubscribe(_, filters) =>
          lastMsgId := lastMsgId + 1;
          p, token := Packet.Unsubscribe(IdOf(lastMsgId), filters), Some(UnsubscribeToken(lastMsgId));
        case _ =>
      }
      if TakesSerial(msg) { issued := issued + [lastMsgId]; }
    }

    // -------------------------------------------------------------- acknowledgements and the pump

    method RemoveInflightMsg(msgId: Id) returns (imsg: Option<InflightMsg>)
      requires Valid()
      modifies inflightingList
      ensures var es, k := old(inflightingList.items), FirstWithId(old(inflightingList.items), msgId);
              && (imsg.None? <==> k == |es|)
              && (imsg.Some? ==> imsg.value == es[k] && inflightingList.items == es[..k] + es[k + 1..])
              && (imsg.None? ==> inflightingList.items == es)
    {
      RemoveCbFinds(inflightingList.items, msgId);
      imsg := inflightingList.Remove(RemoveCb(msgId), None);
    }

    method UpdateInflightMsg(id: Id)
      requires Valid()
      modifies inflightingList
      ensures inflightingList.items == Released(old(inflightingList.items), id)
    {
      UpdateCbReleases(inflightingList.items, id, None);
      var imsg := inflightingList.Each(UpdateCb(id), None);
    }

    /** The receive from peddingChan, the Pop and the insert2Inflight that both callers of the pump share. */
    method RefillWindow(now: int)
      requires Valid()
      modifies `peddingChan, `waiting, `admitted, inflightingList, peddingMsgList, channel.iSendList
      ensures View() == Refill(cfg, old(View()), now)
    {
      if peddingChan > 0 {
        if waiting == [] {
          peddingChan := peddingChan - 1;
        } else {
          peddingMsgList.Push(waiting[0]);
          waiting := waiting[1..];
        }
      }
      var v := peddingMsgList.Pop();
      if v.Some? { Insert2Inflight(v.value, now); }
    }

    /** The first half of onInflightDone: remove the entry and complete its token. */
    method FinishFlow(msg: Packet)
      requires Valid() && !crashed
      modifies `completed, `crashed, inflightingList
      ensures View() == Finish(old(View()), msg)
    {
      var imsg := RemoveInflightMsg(msg.MessageId());
      if imsg.Some? && imsg.value.pt.t.Some? {
        var t := imsg.value.pt.t.value;
        if msg.Suback? && !(t.SubscribeToken? && |t.subs| <= |msg.codes|) {
          crashed := true;
        } else {
          completed := completed + [t.serial];
        }
      }
    }

    method OnInflightDone(msg: Packet, now: int)
      requires Valid() && !crashed
      modifies `peddingChan, `waiting, `admitted, `completed, `crashed, inflightingList, peddingMsgList, channel.iSendList
      ensures View() == InflightDone(cfg, old(View()), msg, now)
    {
      if EndsFlow(msg) { FinishFlow(msg); }
      if crashed { return; }
      var inflights := inflightingList.Len();
      if inflights < cfg.maxSizeOfInflight { RefillWindow(now); }
    }

    method OnPubrec(id: Id)
      requires Valid()
      modifies inflightingList, channel.iSendList
      ensures View() == E.OnPubrec(old(View()), id)
    {
      channel.Send(Pubrel(id));
      UpdateInflightMsg(id);
    }

    /** RecvMsg for the packets the sending side reacts to. */
    method ReceiveReply(msg: Packet, now: int)
      requires Valid() && !crashed
      modifies `peddingChan, `waiting, `admitted, `completed, `crashed, inflightingList, peddingMsgList, channel.iSendList
      ensures View() == if clostep > L.OPEN then old(View()) else ReceiveStep(cfg, old(View()), msg, now)
    {
      if clostep > L.OPEN { return; }
      match msg {
        case Puback(_) => OnInflightDone(msg, now);
        case Pubcomp(_) => OnInflightDone(msg, now);
        case Suback(_, _) => OnInflightDone(msg, now);
        case Unsuback(_) => OnInflightDone(msg, now);
        case Pubrec(id) => OnPubrec(id);
        case Pingreq => channel.Send(Pingresp);
        case _ =>
      }
    }

    /** One message written by sendRun, and the callback onChannelWrited. */
    method WriteOne(now: int)
      requires Valid() && !crashed
      modifies `peddingChan, `waiting, `admitted, `completed, `crashed, inflightingList, peddingMsgList, channel`conn, channel.iSendList
      ensures View() == WriteStep(cfg, old(View()), clostep == L.OPEN, now)
    {
      var msg := channel.WriteNext();
      if msg.Some? && clostep == L.OPEN && msg.value.Publish? && msg.value.qos == 0 {
        OnInflightDone(msg.value, now);
      }
    }

    /** A write that fails: sendRun ends, and onChannelWrited starts the handling of the exception. */
    method WriteFails()
      requires Valid()
      modifies `spawned, channel`isStoped, channel.iSendList
      ensures View() == FailStep(old(View()))
      ensures LifeView() == if old(View()).sendq == [] then old(LifeView()) else L.OnWrited(old(LifeView()), true)
    {
      var msg := channel.FailNext();
      if msg.Some? { OnChannelWrited(true); }
    }

    // -------------------------------------------------------------- the resend timer

    method CheckInflightList(now: int)
      requires Valid()
      modifies `peddingChan, `waiting, `admitted, inflightingList, peddingMsgList, channel.iSendList
      ensures View() == TickStep(cfg, old(View()), now)
    {
      ResendDue(now);
      var inflights := inflightingList.Len();
      var sending := channel.iSendList.Len();
      if inflights < cfg.maxSizeOfInflight && sending < cfg.maxSizeOfPublishMsg { RefillWindow(now); }
    }

    /** One due entry: count the retry, restart its timer and send its packet again. */
    method ResendOne(k: nat, now: int)
      requires Valid() && k < |inflightingList.items| && Due(inflightingList.items[k], now)
      modifies inflightingList, channel.iSendList
      ensures var es := old(inflightingList.items);
              && inflightingList.items == es[k := Rearmed(cfg, es[k], now)]
              && channel.iSendList.items == if channel.isStoped then old(channel.iSendList.items) else old(channel.iSendList.items) + [es[k].pt.p]
    {
      var imsg := inflightingList.items[k];
      inflightingList.items := inflightingList.items[k := imsg.(retryCnt := imsg.retryCnt + 1, timeout := now + cfg.sentTimeout)];
      channel.Send(imsg.pt.p);
    }

    method ResendDue(now: int)
      requires Valid()
      modifies inflightingList, channel.iSendList
      ensures View() == Resend(cfg, old(View()), now)
    {
      CollectedIsDue(inflightingList.items, now);
      var tm := inflightingList.Each(DueCb(now), Collected([], 0));
      ResendCollected(tm.idx, now);
    }

    /** The second loop of checkInflightList, over the collected entries. */
    method ResendCollected(tmMsg: seq<nat>, now: int)
      requires Valid() && tmMsg == EngineOrder.DueAt(inflightingList.items, now)
      modifies inflightingList, channel.iSendList
      ensures var es := old(inflightingList.items);
              && inflightingList.items == RearmAll(cfg, es, now)
              && channel.iSendList.items == if channel.isStoped then old(channel.iSendList.items) else old(channel.iSendList.items) + DuePackets(es, now)
    {
      ghost var es, q := inflightingList.items, channel.iSendList.items;
      SameCount(es, now);
      ResendStarts(cfg, q, es, now);
      ResendEnds(cfg, q, es, now);
      var i := 0;
      while i < |tmMsg|
        invariant 0 <= i <= |tmMsg|
        invariant inflightingList.items == ListAt(cfg, es, now, i)
        invariant channel.iSendList.items == if channel.isStoped then q else QueueAt(q, es, now, i)
      {
        ResendAdvances(cfg, q, es, now, i);
        ResendOne(tmMsg[i], now);
        i := i + 1;
      }
    }

    // -------------------------------------------------------------- receiving

    method OnPublish(id: Id, qos: nat, body: Message)
      requires Valid()
      modifies `storeMgr, `delivered, channel.iSendList
      ensures ReceiverView() == E.OnPublish(old(ReceiverView()), id, qos, body)
    {
      if qos == 0 {
        delivered := delivered + [Delivery(id, qos, body)];
      } else if qos == 1 {
        channel.Send(Puback(id));
        delivered := delivered + [Delivery(id, qos, body)];
      } else if qos == 2 {
        channel.Send(Pubrec(id));
        if id !in storeMgr { storeMgr := storeMgr[id := body]; }
      }
    }

    method OnPubrel(id: Id)
      requires Valid()
      modifies `storeMgr, `delivered, channel.iSendList
      ensures ReceiverView() == E.OnPubrel(old(ReceiverView()), id)
    {
      channel.Send(Pubcomp(id));
      if id in storeMgr {
        var smsg := storeMgr[id];
        storeMgr := storeMgr - {id};
        delivered := delivered + [Delivery(id, 2, smsg)];
      }
    }

    /** RecvMsg for the packets the receiving side reacts to. */
    method ReceiveRequest(msg: Packet, codes: seq<Byte>)
      requires Valid()
      modifies `storeMgr, `delivered, channel.iSendList
      ensures ReceiverView() == if clostep > L.OPEN then old(ReceiverView()) else ReceiverStep(old(ReceiverView()), msg, codes)
    {
      if clostep > L.OPEN { return; }
      match msg {
        case Publish(id, qos, body) => OnPublish(id, qos, body);
        case Pubrel(id) => OnPubrel(id);
        case Subscribe(id, _) => channel.Send(Suback(id, codes));
        case Unsubscribe(id, _) => channel.Send(Unsuback(id));
        case _ =>
      }
    }

    // -------------------------------------------------------------- the end of the session

    /** mgrOnDisconnected, mgrOnPingTimeout and mgrOnConnectTimeout up to the call of the manager. */
    method NotifyMgr() returns (told: bool)
      modifies `clostep, `notified
      ensures LifeView() == L.Notify(old(LifeView())) && told == (old(clostep) == L.OPEN)
    {
      if clostep > L.OPEN { return false; }
      clostep := L.CLOSING;
      notified := notified + 1;
      told := true;
    }

    method OnChannelReaded(failed: bool)
      modifies `spawned
      ensures LifeView() == L.OnReaded(old(LifeView()), failed)
    {
      if clostep > L.OPEN { return; }
      if failed { spawned := spawned + [L.DisErrRecv]; }
    }

    method OnChannelWrited(failed: bool)
      modifies `spawned
      ensures LifeView() == L.OnWrited(old(LifeView()), failed)
    {
      if clostep > L.OPEN { return; }
      if failed { spawned := spawned + [L.DisErrSent]; }
    }

    method OnChannelError()
      modifies `clostep, `notified
      ensures LifeView() == L.OnChannelError(old(LifeView()))
    {
      var told := NotifyMgr();
    }

    method OnDisconnect()
      modifies `clostep, `notified
      ensures LifeView() == L.OnDisconnect(old(LifeView()))
    {
      var told := NotifyMgr();
    }

    /** OnTick; `expired` is the comparison of the clock with the keepalive deadline. */
    method OnTick(expired: bool, now: int)
      requires Valid()
      modifies `clostep, `notified, `spawned, `peddingChan, `waiting, `admitted, inflightingList, peddingMsgList, channel.iSendList
      ensures LifeView() == L.OnTick(old(LifeView()), expired)
      ensures View() == if old(clostep) > L.OPEN then old(View())
                        else TickStep(cfg, if expired && !isServer && connected > 0 then Enqueue(old(View()), Pingreq) else old(View()), now)
    {
      if clostep > L.OPEN { return; }
      if expired { CheckDeadline(); }
      CheckInflightList(now);
    }

    /** What OnTick does once the deadline has passed: a server gives up, a client pings. */
    method CheckDeadline()
      requires Valid() && clostep == L.OPEN
      modifies `clostep, `notified, `spawned, channel.iSendList
      ensures LifeView() == L.OnTick(old(LifeView()), true)
      ensures View() == if !isServer && connected > 0 then Enqueue(old(View()), Pingreq) else old(View())
    {
      if isServer {
        var ping := connected > 0;
        var told := NotifyMgr();
        if ping { spawned := spawned + [L.DisErrPingTimeout]; }
      } else if connected > 0 {
        channel.Send(Pingreq);
      }
    }

    method OnConnect(will: bool)
      modifies `connected, `willFlag
      ensures LifeView() == L.OnConnect(old(LifeView()), will)
    {
      if clostep > L.OPEN || connected > 0 { return; }
      connected := 1;
      if will { willFlag := true; }
    }

    method OnConnack(code: int)
      modifies `connected
      ensures LifeView() == L.OnConnack(old(LifeView()), code)
    {
      if clostep > L.OPEN { return; }
      if code > 0 { connected := -code; } else { connected := 1; }
    }

    /** The k-th spawned goroutine runs onDisconnectException. */
    method OnDisconnectException(k: nat)
      requires k < |spawned|
      modifies `spawned, `hadDisconnectException, `willPublished
      ensures LifeView() == L.RunException(old(LifeView()), k)
    {
      var reason := spawned[k];
      spawned := spawned[..k] + spawned[k + 1..];
      if hadDisconnectException.None? {
        if willFlag { willPublished := willPublished + 1; }
        hadDisconnectException := Some(reason);
      }
    }

    method Close()
      requires Valid()
      modifies `clostep, `waiting, `disconnectedCalls, channel`isStoped
      ensures LifeView() == L.OnClose(old(LifeView()))
      ensures View() == if old(clostep) == L.CLOSED then old(View()) else StopStep(old(View()))
    {
      if clostep == L.CLOSED { return; }
      clostep := L.CLOSED;
      waiting := [];
      channel.Close();
      disconnectedCalls := disconnectedCalls + 1;
    }
  }
}
