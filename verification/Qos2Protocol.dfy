/**
  The QoS 2 handshake of MQTT 3.1.1 section 4.3.3 between one sender and one receiver over two FIFO
  channels, and the QoS 1 acknowledgement of section 4.3.2, reduced to what they depend on.
  `Qos2Sessions` shows that two sessions follow it, in both directions at once.
*/
module Qos2Protocol {
  import opened Common
  import opened Engine

  datatype Proto = Proto(
    orig: map<Id, Packet>,      // the packet each identifier was issued for
    waiting: set<Packet>,       // issued but not yet sent
    flying: set<Packet>,        // what a resend would send, one packet per identifier
    done: set<Id>,              // identifiers whose token has completed
    ab: seq<Packet>,            // sender to receiver, oldest first
    ba: seq<Packet>,            // receiver to sender
    store: map<Id, Message>,    // the receiver's stored messages
    delivered: seq<Delivery>)

  ghost predicate Q2(p: Packet) {
    p.Publish? && p.qos == 2
  }

  /** How often a message was delivered at QoS 2 under this identifier. */
  ghost function Times(ds: seq<Delivery>, i: Id): nat {
    if ds == [] then 0
    else Times(ds[..|ds| - 1], i) + (if ds[|ds| - 1].qos == 2 && ds[|ds| - 1].id == i then 1 else 0)
  }

  // ---------------------------------------------------------------- steps

  ghost function Issue(s: Proto, p: Packet): Proto {
    s.(orig := s.orig[p.MessageId() := p], waiting := s.waiting + {p})
  }

  ghost function Launch(s: Proto, p: Packet): Proto {
    s.(waiting := s.waiting - {p}, flying := s.flying + {p}, ab := s.ab + [p])
  }

  ghost function Retransmit(s: Proto, ps: seq<Packet>): Proto {
    s.(ab := s.ab + ps)
  }

  ghost function Without(ps: set<Packet>, i: Id): set<Packet> {
    set p | p in ps && p.MessageId() != i
  }

  ghost predicate Flying(s: Proto, i: Id) {
    exists p :: p in s.flying && p.MessageId() == i
  }

  ghost function Complete(s: Proto, i: Id): Proto {
    if Flying(s, i) then s.(flying := Without(s.flying, i), done := s.done + {i}) else s
  }

  /** The sender takes the oldest packet off its incoming channel. */
  ghost function SenderReceives(s: Proto): Proto
    requires s.ba != []
  {
    var p, s1 := s.ba[0], s.(ba := s.ba[1..]);
    if p.Pubrec? then
      s1.(ab := s1.ab + [Pubrel(p.id)],
          flying := if Flying(s1, p.id) then Without(s1.flying, p.id) + {Pubrel(p.id)} else s1.flying)
    else
      Complete(s1, p.MessageId())
  }

  ghost function ReplyTo(p: Packet, codes: seq<Byte>): seq<Packet> {
    match p
    case Publish(i, qos, _) => if qos == 1 then [Puback(i)] else if qos == 2 then [Pubrec(i)] else []
    case Pubrel(i) => [Pubcomp(i)]
    case Subscribe(i, _) => [Suback(i, codes)]
    case Unsubscribe(i, _) => [Unsuback(i)]
    case _ => []
  }

  ghost function StoreAfter(store: map<Id, Message>, p: Packet): map<Id, Message> {
    match p
    case Publish(i, qos, body) => if qos == 2 && i !in store then store[i := body] else store
    case Pubrel(i) => store - {i}
    case _ => store
  }

  ghost function DeliveriesOf(store: map<Id, Message>, p: Packet): seq<Delivery> {
    match p
    case Publish(i, qos, body) => if qos < 2 then [Delivery(i, qos, body)] else []
    case Pubrel(i) => if i in store then [Delivery(i, 2, store[i])] else []
    case _ => []
  }

  /** The receiver takes the oldest packet off its incoming channel. */
  ghost function ReceiverReceives(s: Proto, codes: seq<Byte>): Proto
    requires s.ab != []
  {
    s.(ab := s.ab[1..],
       ba := s.ba + ReplyTo(s.ab[0], codes),
       store := StoreAfter(s.store, s.ab[0]),
       delivered := s.delivered + DeliveriesOf(s.store, s.ab[0]))
  }

  // ---------------------------------------------------------------- the invariant

  ghost predicate OrigOk(s: Proto) {
    forall i | i in s.orig :: TakesSerial(s.orig[i]) && s.orig[i].MessageId() == i
  }

  /** A packet in flight or on the way to the receiver is an issued one, or the PUBREL that replaced it. */
  ghost predicate Known(s: Proto, p: Packet) {
    var i := p.MessageId();
    && i in s.orig
    && (p == s.orig[i] || (Q2(s.orig[i]) && p == Pubrel(i)))
  }

  ghost predicate ReplyOk(s: Proto, p: Packet) {
    var i := p.MessageId();
    && i in s.orig
    && match p
       case Puback(_) => s.orig[i].Publish? && s.orig[i].qos == 1
       case Pubrec(_) => Q2(s.orig[i])
       case Pubcomp(_) => Q2(s.orig[i])
       case Suback(_, codes) => s.orig[i].Subscribe? && |s.orig[i].topics| <= |codes|
       case Unsuback(_) => s.orig[i].Unsubscribe?
       case _ => false
  }

  /** The delivery is of a message issued under this identifier, at its own QoS and with its own content. */
  ghost predicate Genuine(s: Proto, d: Delivery) {
    d.id in s.orig && s.orig[d.id] == Publish(d.id, d.qos, d.body)
  }

  ghost predicate Typed(s: Proto) {
    && OrigOk(s)
    && (forall p | p in s.waiting :: p.MessageId() in s.orig && p == s.orig[p.MessageId()])
    && (forall p | p in s.flying :: Known(s, p))
    && (forall p | p in s.ab :: Known(s, p))
    && (forall p | p in s.ba :: ReplyOk(s, p))
    && (forall i | i in s.store :: i in s.orig && Q2(s.orig[i]) && s.store[i] == s.orig[i].body)
    && (forall i | i in s.done :: i in s.orig)
    && (forall k | 0 <= k < |s.delivered| :: Genuine(s, s.delivered[k]))
  }

  /** Nothing anywhere mentions an identifier that is still waiting. */
  ghost predicate Unseen(s: Proto, i: Id)
    requires i in s.orig
  {
    && s.orig[i] !in s.flying && Pubrel(i) !in s.flying && i !in s.done
    && s.orig[i] !in s.ab && Pubrel(i) !in s.ab
    && Pubrec(i) !in s.ba && Pubcomp(i) !in s.ba
    && i !in s.store && Times(s.delivered, i) == 0
  }

  /** Queued traffic of one identifier has the shape PUBLISH* PUBREL*. */
  ghost predicate PublishesThenRels(s: Proto, i: Id)
    requires i in s.orig
  {
    forall k, l | 0 <= k < l < |s.ab| && s.ab[k] == Pubrel(i) :: s.ab[l] != s.orig[i]
  }

  /** The sender has answered, or the receiver has seen the answer to, some PUBREC for i. */
  ghost predicate RelSent(s: Proto, i: Id) {
    Pubrel(i) in s.ab || Pubrel(i) in s.flying || Final(s, i)
  }

  ghost predicate Final(s: Proto, i: Id) {
    Pubcomp(i) in s.ba || i in s.done || Times(s.delivered, i) > 0
  }

  ghost predicate Handshake(s: Proto, i: Id)
    requires i in s.orig
  {
    var pub := s.orig[i];
    && (pub in s.waiting ==> Unseen(s, i))
    && PublishesThenRels(s, i)
    && (pub in s.flying ==> !RelSent(s, i))
    && (Pubrel(i) in s.flying ==> i !in s.done)
    && (Pubrec(i) in s.ba || RelSent(s, i) ==> i in s.store || Times(s.delivered, i) == 1)
    && (Final(s, i) ==> Times(s.delivered, i) == 1 && i !in s.store && pub !in s.ab)
  }

  ghost predicate SafeFor(s: Proto, i: Id) {
    i in s.orig && Q2(s.orig[i]) ==> Handshake(s, i)
  }

  ghost predicate Q1(p: Packet) {
    p.Publish? && p.qos == 1
  }

  /** QoS 1: a message that was acknowledged, or whose token has completed, was delivered. */
  ghost predicate AckedFor(s: Proto, i: Id) {
    i in s.orig && Q1(s.orig[i]) && (Puback(i) in s.ba || i in s.done) ==> Delivery(i, 1, s.orig[i].body) in s.delivered
  }

  // ---------------------------------------------------------------- every step keeps what is acknowledged delivered

  lemma AckedKeeps(s: Proto, s': Proto, i: Id)
    requires AckedFor(s, i) && s'.orig == s.orig
    requires Puback(i) in s'.ba ==> Puback(i) in s.ba
    requires i in s'.done ==> i in s.done || Puback(i) in s.ba || (i in s.orig && !Q1(s.orig[i]))
    requires s.delivered <= s'.delivered
    ensures AckedFor(s', i)
  {
    assert forall d | d in s.delivered :: d in s'.delivered;
  }

  lemma IssueAcked(s: Proto, p: Packet, i: Id)
    requires Typed(s) && AckedFor(s, i) && p.MessageId() !in s.orig
    ensures AckedFor(Issue(s, p), i)
  {
    if i == p.MessageId() {
      assert i !in s.done;
      assert Puback(i) in s.ba ==> ReplyOk(s, Puback(i));
    }
  }

  lemma SenderReceivesAcked(s: Proto, i: Id)
    requires Typed(s) && AckedFor(s, i) && s.ba != []
    ensures AckedFor(SenderReceives(s), i)
  {
    var p := s.ba[0];
    assert p in s.ba && ReplyOk(s, p);
    assert forall q | q in s.ba[1..] :: q in s.ba;
    AckedKeeps(s, SenderReceives(s), i);
  }

  lemma ReceiverReceivesAcked(s: Proto, codes: seq<Byte>, i: Id)
    requires Typed(s) && AckedFor(s, i) && s.ab != []
    ensures AckedFor(ReceiverReceives(s, codes), i)
  {
    var p, s' := s.ab[0], ReceiverReceives(s, codes);
    assert p in s.ab && Known(s, p);
    if Puback(i) in s'.ba && Puback(i) !in s.ba {
      assert Puback(i) in ReplyTo(p, codes);
      assert DeliveriesOf(s.store, p) == [Delivery(i, 1, p.body)];
      assert s'.delivered == s.delivered + [Delivery(i, 1, p.body)];
    } else {
      AckedKeeps(s, s', i);
    }
  }

  // ---------------------------------------------------------------- every step keeps the handshake of every identifier

  lemma IssueSafe(s: Proto, p: Packet, i: Id)
    requires Typed(s) && SafeFor(s, i) && TakesSerial(p) && p.MessageId() !in s.orig
    requires Times(s.delivered, p.MessageId()) == 0
    ensures SafeFor(Issue(s, p), i)
  {
    if i == p.MessageId() {
      assert forall q | q in s.ab || q in s.ba || q in s.flying || q in s.waiting :: q.MessageId() != i;
      assert Pubrel(i).MessageId() == i && Pubcomp(i).MessageId() == i && Pubrec(i).MessageId() == i;
    } else if i in s.orig {
      assert s.orig[i].MessageId() == i;
    }
  }

  lemma LaunchSafe(s: Proto, p: Packet, i: Id)
    requires Typed(s) && SafeFor(s, i) && p in s.waiting
    ensures SafeFor(Launch(s, p), i)
  {
    assert forall q :: q in Launch(s, p).ab <==> q in s.ab || q == p;
  }

  lemma RetransmitSafe(s: Proto, ps: seq<Packet>, i: Id)
    requires Typed(s) && SafeFor(s, i) && forall k | 0 <= k < |ps| :: ps[k] in s.flying
    ensures SafeFor(Retransmit(s, ps), i)
  {
    assert forall q :: q in Retransmit(s, ps).ab <==> q in s.ab || q in ps;
  }

  lemma CompleteSafe(s: Proto, j: Id, i: Id)
    requires Typed(s) && SafeFor(s, i)
    requires j in s.orig && !Q2(s.orig[j])
    ensures SafeFor(Complete(s, j), i)
  {
  }

  /** Handling traffic of other identifiers, or of other packet types, keeps the handshake of i. */
  lemma ElsewhereSafe(s: Proto, s': Proto, i: Id)
    requires SafeFor(s, i)
    requires s'.orig == s.orig && s'.waiting == s.waiting
    requires i in s.orig ==> (s.orig[i] in s'.flying <==> s.orig[i] in s.flying)
    requires Pubrel(i) in s'.flying <==> Pubrel(i) in s.flying
    requires i in s'.done <==> i in s.done
    requires s'.ab == s.ab || (s.ab != [] && s'.ab == s.ab[1..]) || (|s'.ab| == |s.ab| + 1 && s'.ab[..|s.ab|] == s.ab && s'.ab[|s.ab|].MessageId() != i)
    requires Pubrec(i) in s'.ba ==> Pubrec(i) in s.ba
    requires Pubcomp(i) in s'.ba ==> Pubcomp(i) in s.ba
    requires i in s'.store <==> i in s.store
    requires Times(s'.delivered, i) == Times(s.delivered, i)
    requires i in s.orig ==> s.orig[i].MessageId() == i
    ensures SafeFor(s', i)
  {
    if s'.ab != s.ab {
      if |s'.ab| < |s.ab| {
        assert forall k | 0 <= k < |s'.ab| :: s'.ab[k] == s.ab[k + 1];
        assert forall q | q in s'.ab :: q in s.ab;
      } else {
        assert forall q | q in s'.ab :: q in s.ab || q.MessageId() != i;
      }
    }
  }

  lemma RelMeansI(i: Id)
    ensures Pubrel(i).MessageId() == i && Pubrec(i).MessageId() == i && Pubcomp(i).MessageId() == i
  {
  }

  lemma SenderTakesPubrec(s: Proto, i: Id)
    requires Typed(s) && SafeFor(s, i) && s.ba != [] && s.ba[0] == Pubrec(i) && i in s.orig && Q2(s.orig[i])
    ensures SafeFor(SenderReceives(s), i)
  {
    var s' := SenderReceives(s);
    assert Pubrec(i) in s.ba;
    assert forall q | q in s.ba[1..] :: q in s.ba;
    assert forall q | q in s.flying && q.MessageId() == i :: q == s.orig[i] || q == Pubrel(i);
    assert s'.ab == s.ab + [Pubrel(i)];
    assert s.orig[i] !in s'.flying;
    assert Pubrel(i) in s'.flying ==> i !in s.done;
  }

  lemma SenderTakesPubcomp(s: Proto, i: Id)
    requires Typed(s) && SafeFor(s, i) && s.ba != [] && s.ba[0] == Pubcomp(i) && i in s.orig && Q2(s.orig[i])
    ensures SafeFor(SenderReceives(s), i)
  {
    assert Pubcomp(i) in s.ba;
    assert forall q | q in s.ba[1..] :: q in s.ba;
  }

  lemma SenderReceivesSafe(s: Proto, i: Id)
    requires Typed(s) && SafeFor(s, i) && s.ba != []
    ensures SafeFor(SenderReceives(s), i)
  {
    var p := s.ba[0];
    assert ReplyOk(s, p);
    if i in s.orig && Q2(s.orig[i]) {
      RelMeansI(i);
      if p == Pubrec(i) {
        SenderTakesPubrec(s, i);
      } else if p == Pubcomp(i) {
        SenderTakesPubcomp(s, i);
      } else {
        assert p.MessageId() != i;
        assert forall q | q in s.ba[1..] :: q in s.ba;
        ElsewhereSafe(s, SenderReceives(s), i);
      }
    }
  }

  lemma ReceiverTakesPublish(s: Proto, codes: seq<Byte>, i: Id)
    requires Typed(s) && SafeFor(s, i) && s.ab != [] && i in s.orig && Q2(s.orig[i]) && s.ab[0] == s.orig[i]
    ensures SafeFor(ReceiverReceives(s, codes), i)
  {
    var s' := ReceiverReceives(s, codes);
    assert s.ab[0] in s.ab;
    assert forall q | q in s'.ab :: q in s.ab;
    assert s'.ba == s.ba + [Pubrec(i)] && s'.delivered == s.delivered;
    assert forall k | 0 <= k < |s'.ab| :: s'.ab[k] == s.ab[k + 1];
  }

  lemma ReceiverTakesPubrel(s: Proto, codes: seq<Byte>, i: Id)
    requires Typed(s) && SafeFor(s, i) && s.ab != [] && i in s.orig && Q2(s.orig[i]) && s.ab[0] == Pubrel(i)
    ensures SafeFor(ReceiverReceives(s, codes), i)
  {
    var s' := ReceiverReceives(s, codes);
    assert s.ab[0] in s.ab;
    assert forall k | 0 <= k < |s'.ab| :: s'.ab[k] == s.ab[k + 1];
    assert forall q | q in s'.ab :: q in s.ab && q != s.orig[i];
    assert s'.ba == s.ba + [Pubcomp(i)];
    if i in s.store { TimesPush(s.delivered, Delivery(i, 2, s.store[i]), i); } else { assert s'.delivered == s.delivered; }
  }

  lemma TimesPush(ds: seq<Delivery>, d: Delivery, i: Id)
    ensures Times(ds + [d], i) == Times(ds, i) + (if d.qos == 2 && d.id == i then 1 else 0)
  {
    assert (ds + [d])[..|ds|] == ds;
  }

  /** A packet that is neither i's publish nor its PUBREL changes nothing about i at the receiver. */
  lemma ReceiverTakesOther(s: Proto, codes: seq<Byte>, i: Id)
    requires Typed(s) && SafeFor(s, i) && s.ab != [] && s.ab[0].MessageId() != i
    requires i in s.orig ==> s.orig[i].MessageId() == i
    ensures SafeFor(ReceiverReceives(s, codes), i)
  {
    var p, s' := s.ab[0], ReceiverReceives(s, codes);
    RelMeansI(i);
    var r, ds := ReplyTo(p, codes), DeliveriesOf(s.store, p);
    assert forall q | q in r :: q != Pubrec(i) && q != Pubcomp(i);
    assert Times(s'.delivered, i) == Times(s.delivered, i) by {
      if ds == [] {
        assert s'.delivered == s.delivered;
      } else {
        TimesPush(s.delivered, ds[0], i);
        assert s'.delivered == s.delivered + [ds[0]];
      }
    }
    ElsewhereSafe(s, s', i);
  }

  lemma ReceiverReceivesSafe(s: Proto, codes: seq<Byte>, i: Id)
    requires Typed(s) && SafeFor(s, i) && s.ab != []
    ensures SafeFor(ReceiverReceives(s, codes), i)
  {
    var p := s.ab[0];
    assert Known(s, p);
    if i in s.orig && Q2(s.orig[i]) {
      if p == s.orig[i] {
        ReceiverTakesPublish(s, codes, i);
      } else if p == Pubrel(i) {
        ReceiverTakesPubrel(s, codes, i);
      } else {
        ReceiverTakesOther(s, codes, i);
      }
    }
  }

  // ---------------------------------------------------------------- and the typing

  lemma IssueTyped(s: Proto, p: Packet)
    requires Typed(s) && TakesSerial(p) && p.MessageId() !in s.orig
    ensures Typed(Issue(s, p))
  {
  }

  lemma LaunchTyped(s: Proto, p: Packet)
    requires Typed(s) && p in s.waiting
    ensures Typed(Launch(s, p))
  {
  }

  lemma RetransmitTyped(s: Proto, ps: seq<Packet>)
    requires Typed(s) && forall k | 0 <= k < |ps| :: ps[k] in s.flying
    ensures Typed(Retransmit(s, ps))
  {
    var s' := Retransmit(s, ps);
    forall p | p in s'.ab ensures Known(s', p) {
      assert p in s.ab || p in ps;
      assert Known(s, p);
    }
  }

  lemma CompleteTyped(s: Proto, j: Id)
    requires Typed(s)
    ensures Typed(Complete(s, j))
  {
  }

  lemma SenderReceivesTyped(s: Proto)
    requires Typed(s) && s.ba != []
    ensures Typed(SenderReceives(s))
  {
    var p, s1 := s.ba[0], s.(ba := s.ba[1..]);
    assert p in s.ba && ReplyOk(s, p);
    assert Typed(s1) by { assert forall q | q in s1.ba :: q in s.ba; }
    if p.Pubrec? {
      SenderAnswersTyped(s1, p.id);
    } else {
      CompleteTyped(s1, p.MessageId());
    }
  }

  lemma SenderAnswersTyped(s: Proto, i: Id)
    requires Typed(s) && i in s.orig && Q2(s.orig[i])
    ensures Typed(s.(ab := s.ab + [Pubrel(i)], flying := if Flying(s, i) then Without(s.flying, i) + {Pubrel(i)} else s.flying))
  {
    assert Known(s, Pubrel(i));
    assert forall q | q in s.ab + [Pubrel(i)] :: q in s.ab || q == Pubrel(i);
  }

  ghost predicate CodesFor(p: Packet, codes: seq<Byte>) {
    p.Subscribe? ==> |codes| >= |p.topics|
  }

  lemma ReplyTyped(s: Proto, p: Packet, codes: seq<Byte>)
    requires OrigOk(s) && Known(s, p) && CodesFor(p, codes)
    ensures forall q | q in ReplyTo(p, codes) :: ReplyOk(s, q)
  {
  }

  lemma StoreTyped(s: Proto, p: Packet)
    requires Typed(s) && Known(s, p)
    ensures forall i | i in StoreAfter(s.store, p) :: i in s.orig && Q2(s.orig[i]) && StoreAfter(s.store, p)[i] == s.orig[i].body
    ensures forall d | d in DeliveriesOf(s.store, p) :: Genuine(s, d)
  {
  }

  lemma ReceiverReceivesTyped(s: Proto, codes: seq<Byte>)
    requires Typed(s) && s.ab != [] && CodesFor(s.ab[0], codes)
    ensures Typed(ReceiverReceives(s, codes))
  {
    var p, s' := s.ab[0], ReceiverReceives(s, codes);
    assert p in s.ab && Known(s, p);
    ReplyTyped(s, p, codes);
    StoreTyped(s, p);
    assert forall q | q in s'.ab :: q in s.ab;
    forall q | q in s'.ba ensures ReplyOk(s', q) {
      assert q in s.ba || q in ReplyTo(p, codes);
      assert ReplyOk(s, q);
    }
    forall k | 0 <= k < |s'.delivered| ensures Genuine(s', s'.delivered[k]) {
      if k >= |s.delivered| { assert s'.delivered[k] in DeliveriesOf(s.store, p); }
    }
  }
}
