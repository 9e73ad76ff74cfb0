/**
  How a session ends: the close step, the single notification of the session manager, and the will
  (section 3.1.2.5 of MQTT 3.1.1).  Each function is one atomic step of session/session.go; a failing
  read is two of them, because the channel reports it twice and other steps can come in between.
*/
module Lifecycle {
  import opened Common

  datatype Reason = DisErrSent | DisErrRecv | DisErrPingTimeout

  const OPEN := 0
  const CLOSING := 1
  const CLOSED := 2

  datatype Life = Life(
    isServer: bool,
    connected: int,
    clostep: nat,
    willFlag: bool,
    hadDisconnectException: Option<Reason>,
    spawned: seq<Reason>,       // onDisconnectException goroutines that have not run yet
    notified: nat,              // how often the session told its manager to close it
    willPublished: nat,         // how often the will was handed to the subscribers
    disconnectedCalls: nat)     // how often the owner's onDisconnected callback ran

  function Fresh(isServer: bool): Life {
    Life(isServer, 0, OPEN, false, None, [], 0, 0, 0)
  }

  /** The common body of mgrOnDisconnected, mgrOnPingTimeout and mgrOnConnectTimeout. */
  function Notify(l: Life): Life {
    if l.clostep > OPEN then l else l.(clostep := CLOSING, notified := l.notified + 1)
  }

  /** onChannelReaded. */
  function OnReaded(l: Life, failed: bool): Life {
    if l.clostep > OPEN || !failed then l else l.(spawned := l.spawned + [DisErrRecv])
  }

  /** OnChannelError. */
  function OnChannelError(l: Life): Life {
    Notify(l)
  }

  /** onChannelWrited. */
  function OnWrited(l: Life, failed: bool): Life {
    if l.clostep > OPEN || !failed then l else l.(spawned := l.spawned + [DisErrSent])
  }

  /** The timeout check of OnTick; an expired client only sends PINGREQ. */
  function OnTick(l: Life, expired: bool): Life {
    if l.clostep > OPEN || !expired || !l.isServer then l
    else if l.connected > 0 then
      var l1 := Notify(l);
      l1.(spawned := l1.spawned + [DisErrPingTimeout])
    else Notify(l)
  }

  /** RecvMsg with a DISCONNECT, or with the nil that stands for a remote close. */
  function OnDisconnect(l: Life): Life {
    Notify(l)
  }

  /** RecvMsg with a CONNECT whose reserved bit is clear: accepted once, and it may carry a will. */
  function OnConnect(l: Life, will: bool): Life {
    if l.clostep > OPEN || l.connected > 0 then l
    else l.(connected := 1, willFlag := l.willFlag || will)
  }

  /** RecvMsg with a CONNACK: a refusal keeps its return code with the sign flipped. */
  function OnConnack(l: Life, code: int): Life {
    if l.clostep > OPEN then l else l.(connected := if code > 0 then -code else 1)
  }

  /** One spawned onDisconnectException runs. */
  function RunException(l: Life, k: nat): Life {
    if k >= |l.spawned| then l else
      var r := l.spawned[k];
      var l1 := l.(spawned := l.spawned[..k] + l.spawned[k + 1..]);
      if l.hadDisconnectException.Some? then l1
      else l1.(hadDisconnectException := Some(r), willPublished := if l.willFlag then l.willPublished + 1 else l.willPublished)
  }

  /** Close. */
  function OnClose(l: Life): Life {
    if l.clostep == CLOSED then l else l.(clostep := CLOSED, disconnectedCalls := l.disconnectedCalls + 1)
  }

  datatype Event =
    | Readed(failed: bool)
    | ChannelError
    | Writed(failed: bool)
    | Tick(expired: bool)
    | Disconnect
    | Connect(will: bool)
    | Connack(code: int)
    | Exception(k: nat)
    | Close

  function Apply(l: Life, ev: Event): Life {
    match ev
    case Readed(failed) => OnReaded(l, failed)
    case ChannelError => OnChannelError(l)
    case Writed(failed) => OnWrited(l, failed)
    case Tick(expired) => OnTick(l, expired)
    case Disconnect => OnDisconnect(l)
    case Connect(will) => OnConnect(l, will)
    case Connack(code) => OnConnack(l, code)
    case Exception(k) => RunException(l, k)
    case Close => OnClose(l)
  }

  function Run(l: Life, evs: seq<Event>): Life {
    if evs == [] then l else Apply(Run(l, evs[..|evs| - 1]), evs[|evs| - 1])
  }

  // ---------------------------------------------------------------- every run

  ghost predicate Counted(l: Life) {
    && l.clostep <= CLOSED
    && l.notified <= (if l.clostep == OPEN then 0 else 1)
    && l.disconnectedCalls == (if l.clostep == CLOSED then 1 else 0)
    && l.willPublished <= (if l.hadDisconnectException.Some? then 1 else 0)
  }

  /** A single step keeps the counts and never takes the close step back. */
  lemma StepCounted(l: Life, ev: Event)
    requires Counted(l)
    ensures Counted(Apply(l, ev)) && l.clostep <= Apply(l, ev).clostep
  {
  }

  /** The manager, the owner and the subscribers hear of the end at most once each, in every run. */
  lemma {:induction false} EndsOnce(isServer: bool, evs: seq<Event>)
    ensures var l := Run(Fresh(isServer), evs);
            l.notified <= 1 && l.willPublished <= 1 && l.disconnectedCalls <= 1 && (l.disconnectedCalls == 1 <==> l.clostep == CLOSED)
    ensures Counted(Run(Fresh(isServer), evs))
  {
    if evs != [] {
      EndsOnce(isServer, evs[..|evs| - 1]);
      StepCounted(Run(Fresh(isServer), evs[..|evs| - 1]), evs[|evs| - 1]);
    }
  }

  /** The close step never decreases along a run. */
  lemma {:induction false} CloseStepMonotone(isServer: bool, evs: seq<Event>, n: nat)
    requires n <= |evs|
    ensures Run(Fresh(isServer), evs[..n]).clostep <= Run(Fresh(isServer), evs).clostep
  {
    if n == |evs| {
      assert evs[..n] == evs;
    } else {
      var evs0 := evs[..|evs| - 1];
      assert evs[..n] == evs0[..n];
      CloseStepMonotone(isServer, evs0, n);
      EndsOnce(isServer, evs0);
      StepCounted(Run(Fresh(isServer), evs0), evs[|evs| - 1]);
    }
  }

  // ---------------------------------------------------------------- in terms of the events alone

  /** The event ends an open session. */
  predicate Ends(isServer: bool, ev: Event) {
    ev.Disconnect? || ev.ChannelError? || ev.Close? || (isServer && ev == Tick(true))
  }

  /** The first event that ends the session. */
  function EndedBy(isServer: bool, evs: seq<Event>): (e: Option<Event>)
    ensures e.Some? ==> Ends(isServer, e.value)
  {
    if evs == [] then None
    else
      var n := |evs| - 1;
      var e := EndedBy(isServer, evs[..n]);
      if e.Some? || !Ends(isServer, evs[n]) then e else Some(evs[n])
  }

  lemma {:induction false} IsServerStays(isServer: bool, evs: seq<Event>)
    ensures Run(Fresh(isServer), evs).isServer == isServer
  {
    if evs != [] { IsServerStays(isServer, evs[..|evs| - 1]); }
  }

  /** Who has been told what, when `end` came first and Close came or did not. */
  predicate Told(l: Life, end: Option<Event>, closed: bool) {
    && (l.clostep == OPEN <==> end == None) && (l.clostep == CLOSED <==> closed) && l.clostep <= CLOSED
    && l.notified == (if end.Some? && end.value != Close then 1 else 0)
    && l.disconnectedCalls == (if closed then 1 else 0)
  }

  lemma ToldStep(l: Life, end: Option<Event>, closed: bool, ev: Event)
    requires Told(l, end, closed)
    ensures Told(Apply(l, ev), if end.Some? || !Ends(l.isServer, ev) then end else Some(ev), closed || ev == Close)
  {
  }

  /**
    The manager is told exactly when the session is ended by anything but Close, the owner exactly when it is closed, and
    the session is open exactly as long as nothing has ended it.
  */
  lemma {:induction false} ToldExactly(isServer: bool, evs: seq<Event>)
    ensures Told(Run(Fresh(isServer), evs), EndedBy(isServer, evs), Close in evs)
  {
    if evs != [] {
      var n := |evs| - 1;
      ToldExactly(isServer, evs[..n]);
      IsServerStays(isServer, evs[..n]);
      ToldStep(Run(Fresh(isServer), evs[..n]), EndedBy(isServer, evs[..n]), Close in evs[..n], evs[n]);
      assert evs == evs[..n] + [evs[n]];
    }
  }

  /** The last thing said about the connection before now accepts it: a CONNECT, or a CONNACK that does not refuse. */
  predicate Linked(evs: seq<Event>) {
    evs != [] &&
    match evs[|evs| - 1]
    case Connect(_) => true
    case Connack(code) => code <= 0
    case _ => Linked(evs[..|evs| - 1])
  }

  /** Some CONNECT brought a will, to an open session that was not connected. */
  predicate BroughtWill(isServer: bool, evs: seq<Event>) {
    evs != [] &&
    var n := |evs| - 1;
    BroughtWill(isServer, evs[..n]) || (evs[n] == Connect(true) && EndedBy(isServer, evs[..n]) == None && !Linked(evs[..n]))
  }

  /** As long as the session is open it is connected exactly when linked, and a refusal keeps its code; it has a will exactly when one was brought. */
  lemma {:induction false} ConnectedExactly(isServer: bool, evs: seq<Event>)
    ensures var l := Run(Fresh(isServer), evs);
            && (EndedBy(isServer, evs) == None ==> if Linked(evs) then l.connected == 1 else l.connected <= 0)
            && (EndedBy(isServer, evs) == None && evs != [] && evs[|evs| - 1].Connack? && evs[|evs| - 1].code > 0 ==>
                  l.connected == -evs[|evs| - 1].code)
            && l.willFlag == BroughtWill(isServer, evs)
  {
    if evs != [] {
      ConnectedExactly(isServer, evs[..|evs| - 1]);
      ToldExactly(isServer, evs[..|evs| - 1]);
    }
  }

  /** After these events this one is a failure of the open session: a read, a write, or a connected client's deadline. */
  predicate Fails(isServer: bool, evs: seq<Event>, ev: Event) {
    && EndedBy(isServer, evs) == None
    && (ev == Readed(true) || ev == Writed(true) || (ev == Tick(true) && isServer && Linked(evs)))
  }

  predicate Failed(isServer: bool, evs: seq<Event>) {
    evs != [] && (Failed(isServer, evs[..|evs| - 1]) || Fails(isServer, evs[..|evs| - 1], evs[|evs| - 1]))
  }

  /** In this state, the event is a failure the will must be published for. */
  predicate Fault(l: Life, ev: Event) {
    l.clostep == OPEN &&
    match ev
    case Readed(failed) => failed
    case Writed(failed) => failed
    case Tick(expired) => expired && l.isServer && l.connected > 0
    case _ => false
  }

  ghost predicate FaultFree(l: Life, evs: seq<Event>) {
    evs == [] || (FaultFree(l, evs[..|evs| - 1]) && !Fault(Run(l, evs[..|evs| - 1]), evs[|evs| - 1]))
  }

  ghost predicate Untroubled(l: Life) {
    l.spawned == [] && l.hadDisconnectException == None && l.willPublished == 0
  }

  lemma {:induction false} FaultFreeIsUntroubled(l: Life, evs: seq<Event>)
    requires Untroubled(l) && FaultFree(l, evs)
    ensures Untroubled(Run(l, evs))
  {
    if evs != [] { FaultFreeIsUntroubled(l, evs[..|evs| - 1]); }
  }

  lemma {:induction false} EndedStaysUntroubled(l: Life, evs: seq<Event>)
    requires Untroubled(l) && l.clostep > OPEN
    ensures Untroubled(Run(l, evs)) && Run(l, evs).clostep > OPEN
  {
    if evs != [] { EndedStaysUntroubled(l, evs[..|evs| - 1]); }
  }

  lemma {:induction false} RunSplits(l: Life, a: seq<Event>, b: seq<Event>)
    ensures Run(l, a + b) == Run(Run(l, a), b)
  {
    if b == [] {
      assert a + b == a;
    } else {
      RunSplits(l, a, b[..|b| - 1]);
      assert (a + b)[..|a + b| - 1] == a + b[..|b| - 1];
    }
  }

  /** When DISCONNECT or Close comes before any failure, the will is never published, whatever follows. */
  lemma NoWillAfterCleanEnd(isServer: bool, before: seq<Event>, end: Event, after: seq<Event>)
    requires FaultFree(Fresh(isServer), before) && (end == Disconnect || end == Close)
    ensures Run(Fresh(isServer), before + [end] + after).willPublished == 0
  {
    var l := Fresh(isServer);
    FaultFreeIsUntroubled(l, before);
    RunSplits(l, before, [end]);
    assert Run(Run(l, before), [end]) == Apply(Run(Run(l, before), []), end);
    EndedStaysUntroubled(Run(l, before + [end]), after);
    RunSplits(l, before + [end], after);
  }

  /** Once a failure has spawned its goroutine: publication happened exactly if some goroutine ran with the will set. */
  ghost predicate Troubled(l: Life, will: bool) {
    && l.willFlag == will
    && (l.spawned != [] || l.hadDisconnectException.Some?)
    && l.willPublished == (if will && l.hadDisconnectException.Some? then 1 else 0)
  }

  /** A CONNECT that is still accepted, and brings the session a will it did not have. */
  predicate BringsWill(l: Life, ev: Event) {
    ev == Connect(true) && l.clostep == OPEN && l.connected <= 0 && !l.willFlag
  }

  ghost predicate NoNewWill(l: Life, evs: seq<Event>) {
    evs == [] || (NoNewWill(l, evs[..|evs| - 1]) && !BringsWill(Run(l, evs[..|evs| - 1]), evs[|evs| - 1]))
  }

  lemma TroubleStep(l: Life, will: bool, ev: Event)
    requires Troubled(l, will) && !BringsWill(l, ev)
    ensures Troubled(Apply(l, ev), will)
  {
  }

  lemma {:induction false} TroubleLasts(l: Life, will: bool, evs: seq<Event>)
    requires Troubled(l, will) && NoNewWill(l, evs)
    ensures Troubled(Run(l, evs), will)
  {
    if evs != [] {
      TroubleLasts(l, will, evs[..|evs| - 1]);
      TroubleStep(Run(l, evs[..|evs| - 1]), will, evs[|evs| - 1]);
    }
  }

  /**
    When a failure comes first, then after it, once every spawned goroutine has run, the will has been
    published exactly once if there is one, however many failures, closes and ticks came together.
  */
  lemma {:induction false} WillAfterFailure(isServer: bool, before: seq<Event>, fault: Event, after: seq<Event>)
    requires FaultFree(Fresh(isServer), before) && Fault(Run(Fresh(isServer), before), fault)
    requires NoNewWill(Run(Fresh(isServer), before + [fault]), after)
    requires Run(Fresh(isServer), before + [fault] + after).spawned == []
    ensures Run(Fresh(isServer), before + [fault] + after).willPublished == if Run(Fresh(isServer), before).willFlag then 1 else 0
  {
    var l := Fresh(isServer);
    var l1 := Run(l, before);
    FaultFreeIsUntroubled(l, before);
    RunSplits(l, before, [fault]);
    assert Run(l1, [fault]) == Apply(Run(l1, []), fault);
    TroubleLasts(Run(l, before + [fault]), l1.willFlag, after);
    RunSplits(l, before + [fault], after);
  }

  // ---------------------------------------------------------------- the will, in terms of the events alone

  lemma FaultIsFailure(isServer: bool, evs: seq<Event>, ev: Event)
    ensures Fault(Run(Fresh(isServer), evs), ev) <==> Fails(isServer, evs, ev)
  {
    ToldExactly(isServer, evs);
    ConnectedExactly(isServer, evs);
    IsServerStays(isServer, evs);
  }

  lemma {:induction false} FaultFreeIsUnfailed(isServer: bool, evs: seq<Event>)
    ensures FaultFree(Fresh(isServer), evs) <==> !Failed(isServer, evs)
  {
    if evs != [] {
      FaultFreeIsUnfailed(isServer, evs[..|evs| - 1]);
      FaultIsFailure(isServer, evs[..|evs| - 1], evs[|evs| - 1]);
    }
  }

  /** A session that has a will keeps it, and one whose events bring none gets none. */
  lemma {:induction false} NoWillComes(isServer: bool, before: seq<Event>, after: seq<Event>)
    requires BroughtWill(isServer, before) || !BroughtWill(isServer, before + after)
    ensures BroughtWill(isServer, before) ==> BroughtWill(isServer, before + after)
    ensures NoNewWill(Run(Fresh(isServer), before), after)
  {
    var l := Fresh(isServer);
    if after == [] {
      assert before + after == before;
    } else {
      var n := |after| - 1;
      assert (before + after)[..|before| + n] == before + after[..n] && (before + after)[|before| + n] == after[n];
      NoWillComes(isServer, before, after[..n]);
      RunSplits(l, before, after[..n]);
      ToldExactly(isServer, before + after[..n]);
      ConnectedExactly(isServer, before + after[..n]);
    }
  }

  /**
    The will, from the events: after the first failure, once every spawned goroutine has run, the will has been published
    once if some accepted CONNECT had brought one, and not at all if none does.
  */
  lemma WillExactly(isServer: bool, before: seq<Event>, fault: Event, after: seq<Event>)
    requires !Failed(isServer, before) && Fails(isServer, before, fault)
    requires BroughtWill(isServer, before) || !BroughtWill(isServer, before + [fault] + after)
    requires Run(Fresh(isServer), before + [fault] + after).spawned == []
    ensures Run(Fresh(isServer), before + [fault] + after).willPublished == if BroughtWill(isServer, before) then 1 else 0
  {
    FaultFreeIsUnfailed(isServer, before);
    FaultIsFailure(isServer, before, fault);
    assert (before + [fault])[..|before|] == before;
    assert BroughtWill(isServer, before) ==> BroughtWill(isServer, before + [fault]);
    NoWillComes(isServer, before + [fault], after);
    WillAfterFailure(isServer, before, fault, after);
    ConnectedExactly(isServer, before);
  }

  /** What happened for this reason. */
  function Cause(r: Reason): Event {
    match r
    case DisErrSent => Writed(true)
    case DisErrRecv => Readed(true)
    case DisErrPingTimeout => Tick(true)
  }

  /** Every reason that is waiting to be handled, or has been, has happened. */
  lemma {:induction false} ReasonsHappened(isServer: bool, evs: seq<Event>, r: Reason)
    requires var l := Run(Fresh(isServer), evs); r in l.spawned || l.hadDisconnectException == Some(r)
    ensures Cause(r) in evs
  {
    if evs != [] {
      var n := |evs| - 1;
      var l0 := Run(Fresh(isServer), evs[..n]);
      assert evs == evs[..n] + [evs[n]];
      if r in l0.spawned || l0.hadDisconnectException == Some(r) { ReasonsHappened(isServer, evs[..n], r); }
    }
  }
}
