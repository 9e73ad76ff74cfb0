/**
  The other half of the handshake: nothing is forgotten.  Every issued packet is waiting, in flight or done; whatever
  is in flight is itself on its way to the receiver, or its answer is on its way back; and a QoS 0 message
  that counts as done is delivered or still on its way.
*/
module Qos2Progress {
  import opened Common
  import opened Engine
  import opened Qos2Protocol

  predicate Q0(p: Packet) {
    p.Publish? && p.qos == 0
  }

  /** Only an answer of the receiver takes the packet out of flight. */
  predicate Awaits(p: Packet) {
    (p.Publish? && 1 <= p.qos <= 2) || p.Pubrel? || p.Subscribe? || p.Unsubscribe?
  }

  /** Sections 3.4 to 3.11 of MQTT 3.1.1: which packet answers which. */
  predicate IsAnswer(r: Packet, p: Packet) {
    && r.MessageId() == p.MessageId()
    && match p
       case Publish(_, qos, _) => if qos == 1 then r.Puback? else qos == 2 && r.Pubrec?
       case Pubrel(_) => r.Pubcomp?
       case Subscribe(_, _) => r.Suback?
       case Unsubscribe(_, _) => r.Unsuback?
       case _ => false
  }

  ghost predicate OnItsWay(s: Proto, p: Packet) {
    p in s.ab || exists r :: r in s.ba && IsAnswer(r, p)
  }

  ghost predicate Alive(s: Proto) {
    forall p | p in s.flying && Awaits(p) :: OnItsWay(s, p)
  }

  ghost predicate Placed(s: Proto) {
    forall i | i in s.orig :: s.orig[i] in s.waiting || Flying(s, i) || i in s.done
  }

  ghost predicate SentFor(s: Proto, i: Id) {
    i in s.orig && Q0(s.orig[i]) && i in s.done ==> s.orig[i] in s.ab || Delivery(i, 0, s.orig[i].body) in s.delivered
  }

  ghost predicate Live(s: Proto) {
    Placed(s) && Alive(s) && forall i: Id :: SentFor(s, i)
  }

  // ---------------------------------------------------------------- every step keeps it

  lemma IssueLive(s: Proto, p: Packet)
    requires Typed(s) && Live(s) && p.MessageId() !in s.orig
    ensures Live(Issue(s, p))
  {
    var s' := Issue(s, p);
    forall i | i in s'.orig ensures s'.orig[i] in s'.waiting || Flying(s', i) || i in s'.done {
      if i != p.MessageId() && Flying(s, i) { assert Flying(s', i); }
    }
    forall q | q in s'.flying && Awaits(q) ensures OnItsWay(s', q) {
      assert OnItsWay(s, q);
    }
    forall i: Id ensures SentFor(s', i) {
      assert SentFor(s, i);
    }
  }

  lemma LaunchLive(s: Proto, p: Packet)
    requires Typed(s) && Live(s) && p in s.waiting
    ensures Live(Launch(s, p))
  {
    var s' := Launch(s, p);
    forall i | i in s'.orig ensures s'.orig[i] in s'.waiting || Flying(s', i) || i in s'.done {
      if s.orig[i] == p { assert p in s'.flying && p.MessageId() == i; }
      if q :| q in s.flying && q.MessageId() == i { assert q in s'.flying; }
    }
    MoreOnTheWay(s, s', [p]);
  }

  lemma RetransmitLive(s: Proto, ps: seq<Packet>)
    requires Live(s)
    ensures Live(Retransmit(s, ps))
  {
    var s' := Retransmit(s, ps);
    forall i | i in s'.orig ensures s'.orig[i] in s'.waiting || Flying(s', i) || i in s'.done {
      if Flying(s, i) { assert Flying(s', i); }
    }
    MoreOnTheWay(s, s', ps);
  }

  /** Packets put on their way take nothing off it. */
  lemma MoreOnTheWay(s: Proto, s': Proto, ps: seq<Packet>)
    requires Live(s) && s'.ab == s.ab + ps && s'.ba == s.ba
    requires s'.orig == s.orig && s'.done == s.done && s'.delivered == s.delivered
    requires forall p | p in s'.flying :: p in s.flying || p in ps
    ensures Alive(s') && forall i: Id :: SentFor(s', i)
  {
    forall p | p in s'.flying && Awaits(p) ensures OnItsWay(s', p) {
      if p !in ps { assert OnItsWay(s, p); }
    }
    forall i: Id ensures SentFor(s', i) {
      assert SentFor(s, i);
    }
  }

  lemma CompleteLive(s: Proto, j: Id)
    requires Live(s) && j in s.orig && (Q0(s.orig[j]) ==> s.orig[j] in s.ab)
    ensures Live(Complete(s, j))
  {
    var s' := Complete(s, j);
    forall i | i in s'.orig ensures s'.orig[i] in s'.waiting || Flying(s', i) || i in s'.done {
      if q :| q in s.flying && q.MessageId() == i { assert i != j ==> q in s'.flying; }
    }
    forall p | p in s'.flying && Awaits(p) ensures OnItsWay(s', p) {
      assert OnItsWay(s, p);
    }
    forall i: Id ensures SentFor(s', i) {
      assert SentFor(s, i);
    }
  }

  /** The answer that is taken answers packets of its own identifier only, and those leave the flight or are replaced. */
  lemma SenderReceivesLive(s: Proto)
    requires Typed(s) && Live(s) && s.ba != []
    ensures Live(SenderReceives(s))
  {
    var s', i0 := SenderReceives(s), s.ba[0].MessageId();
    assert s.ba[0] in s.ba && ReplyOk(s, s.ba[0]);
    forall i | i in s'.orig ensures s'.orig[i] in s'.waiting || Flying(s', i) || i in s'.done {
      if q :| q in s.flying && q.MessageId() == i {
        if i != i0 { assert q in s'.flying; }
        else if s.ba[0].Pubrec? { assert Pubrel(i) in s'.flying; }
      }
    }
    forall p | p in s'.flying && Awaits(p) ensures OnItsWay(s', p) {
      StaysOnItsWay(s, p);
    }
    forall i: Id ensures SentFor(s', i) {
      assert SentFor(s, i);
    }
  }

  lemma StaysOnItsWay(s: Proto, p: Packet)
    requires Typed(s) && Alive(s) && s.ba != [] && p in SenderReceives(s).flying && Awaits(p)
    ensures OnItsWay(SenderReceives(s), p)
  {
    var s', i0 := SenderReceives(s), s.ba[0].MessageId();
    if p.MessageId() == i0 && s.ba[0].Pubrec? {
      if p == Pubrel(i0) { assert p in s'.ab; }
    } else if p.MessageId() != i0 {
      assert OnItsWay(s, p);
      if r :| r in s.ba && IsAnswer(r, p) { assert r in s.ba[1..]; }
    }
  }

  /** What the receiver takes off the wire it answers. */
  lemma ReceiverReceivesLive(s: Proto, codes: seq<Byte>)
    requires Typed(s) && Live(s) && s.ab != []
    ensures Live(ReceiverReceives(s, codes))
  {
    var s', p0 := ReceiverReceives(s, codes), s.ab[0];
    forall i | i in s'.orig ensures s'.orig[i] in s'.waiting || Flying(s', i) || i in s'.done {
      if Flying(s, i) { assert Flying(s', i); }
    }
    forall p | p in s'.flying && Awaits(p) ensures OnItsWay(s', p) {
      assert OnItsWay(s, p);
      if p == p0 {
        var r := ReplyTo(p0, codes);
        assert r[0] in s'.ba && IsAnswer(r[0], p);
      } else if r :| r in s.ba && IsAnswer(r, p) {
        assert r in s'.ba;
      } else {
        assert p in s.ab[1..];
      }
    }
    forall i: Id ensures SentFor(s', i) {
      assert SentFor(s, i);
      if i in s.orig && Q0(s.orig[i]) && i in s.done {
        if s.orig[i] == p0 && p0.id == i {
          assert DeliveriesOf(s.store, p0) == [Delivery(i, 0, p0.body)];
        } else if s.orig[i] in s.ab && s.orig[i] != p0 {
          assert s.orig[i] in s.ab[1..];
        }
      }
    }
  }

  // ---------------------------------------------------------------- nothing on its way

  /** With nothing on its way, every packet that needs an answer is waiting or done, and a QoS 0 message that is done was delivered. */
  lemma Settled(s: Proto, i: Id)
    requires Typed(s) && Live(s) && s.ab == [] && s.ba == [] && i in s.orig && s.orig[i] !in s.waiting
    ensures Awaits(s.orig[i]) ==> i in s.done
    ensures Q0(s.orig[i]) && i in s.done ==> Delivery(i, 0, s.orig[i].body) in s.delivered
  {
    assert SentFor(s, i);
    assert forall p | p in s.flying :: Known(s, p);
  }
}
