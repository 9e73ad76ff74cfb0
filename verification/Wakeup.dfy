/**
  The list of utils/list.go taken apart into the steps that can really interleave: locking and unlocking
  its mutex, the append, the signal that Push sends after unlocking, the receive from Wait(), the removal
  of the head, and the signal Pop sends while it still holds the lock.  Any number of threads.
*/
module Wakeup {
  import opened Common

  /** Where a thread is. */
  datatype Pc<T> =
    | Idle
    | PushLocked(v: T)     // Push holds the lock and has not appended
    | PushAppended         // Push has appended and still holds the lock
    | PushUnlocked         // Push has unlocked and has not signalled
    | Waiting              // blocked in <-Wait()
    | Woken                // took the signal, Pop not started
    | PopLocked            // Pop holds the lock, head not removed
    | PopTook              // Pop removed the head, has not decided about the signal
    | PopDone              // Pop still holds the lock, nothing left to do
    | RemoveLocked         // Remove holds the lock

  datatype State<T> = State(
    items: seq<T>,
    slot: bool,                     // the one-slot channel is full
    holder: Option<nat>,            // the thread holding the mutex
    pcs: map<nat, Pc<T>>,
    pushed: seq<T>, popped: seq<T>) // histories

  datatype Act<T> =
    | StartPush(v: T) | Append | UnlockPush | Signal
    | StartWait | Receive
    | StartPop | Take | Resignal | UnlockPop
    | StartRemove | Delete(k: nat) | UnlockRemove

  function At<T>(s: State<T>, t: nat): Pc<T> {
    if t in s.pcs then s.pcs[t] else Idle
  }

  function Goto<T>(s: State<T>, t: nat, pc: Pc<T>): State<T> {
    s.(pcs := s.pcs[t := pc])
  }

  /** May thread t take this step now? */
  predicate Enabled<T>(s: State<T>, t: nat, act: Act<T>) {
    var pc := At(s, t);
    match act
    case StartPush(_) => pc.Idle? && s.holder.None?
    case Append => pc.PushLocked?
    case UnlockPush => pc.PushAppended?
    case Signal => pc.PushUnlocked?
    case StartWait => pc.Idle?
    case Receive => pc.Waiting? && s.slot
    case StartPop => (pc.Idle? || pc.Woken?) && s.holder.None?
    case Take => pc.PopLocked?
    case Resignal => pc.PopTook?
    case UnlockPop => pc.PopDone?
    case StartRemove => pc.Idle? && s.holder.None?
    case Delete(k) => pc.RemoveLocked? && k < |s.items|
    case UnlockRemove => pc.RemoveLocked?
  }

  function Next<T>(s: State<T>, t: nat, act: Act<T>): State<T> {
    if !Enabled(s, t, act) then s else
      match act
      case StartPush(v) => Goto(s.(holder := Some(t)), t, PushLocked(v))
      case Append =>
        var v := At(s, t).v;
        Goto(s.(items := s.items + [v], pushed := s.pushed + [v]), t, PushAppended)
      case UnlockPush => Goto(s.(holder := None), t, PushUnlocked)
      case Signal => Goto(s.(slot := true), t, Idle)
      case StartWait => Goto(s, t, Waiting)
      case Receive => Goto(s.(slot := false), t, Woken)
      case StartPop => Goto(s.(holder := Some(t)), t, PopLocked)
      case Take =>
        if s.items == [] then Goto(s, t, PopDone)
        else Goto(s.(items := s.items[1..], popped := s.popped + [s.items[0]]), t, PopTook)
      case Resignal => Goto(s.(slot := s.slot || s.items != []), t, PopDone)
      case UnlockPop => Goto(s.(holder := None), t, Idle)
      case StartRemove => Goto(s.(holder := Some(t)), t, RemoveLocked)
      case Delete(k) => s.(items := s.items[..k] + s.items[k + 1..])
      case UnlockRemove => Goto(s.(holder := None), t, Idle)
  }

  datatype Move<T> = Move(t: nat, act: Act<T>)

  function Run<T>(ms: seq<Move<T>>): State<T> {
    if ms == [] then State([], false, None, map[], [], [])
    else Next(Run(ms[..|ms| - 1]), ms[|ms| - 1].t, ms[|ms| - 1].act)
  }

  // ---------------------------------------------------------------- safety

  predicate HoldsLock<T>(pc: Pc<T>) {
    pc.PushLocked? || pc.PushAppended? || pc.PopLocked? || pc.PopTook? || pc.PopDone? || pc.RemoveLocked?
  }

  ghost predicate MutualExclusion<T>(s: State<T>) {
    forall t: nat :: HoldsLock(At(s, t)) <==> s.holder == Some(t)
  }

  /** A producer between its append and its signal. */
  predicate OwesSignal<T>(pc: Pc<T>) {
    pc.PushAppended? || pc.PushUnlocked?
  }

  /** A consumer that took a signal, or the lock, and has not yet finished the Pop that goes with it. */
  predicate OwesPop<T>(pc: Pc<T>) {
    pc.Woken? || pc.PopLocked? || pc.PopTook?
  }

  ghost predicate Cared<T>(s: State<T>) {
    s.slot || exists t: nat :: OwesSignal(At(s, t)) || OwesPop(At(s, t))
  }

  ghost predicate Inv<T>(s: State<T>) {
    MutualExclusion(s) && (s.items != [] ==> Cared(s))
  }

  lemma NextKeepsCare<T>(s: State<T>, t: nat, act: Act<T>)
    requires Inv(s)
    ensures var s' := Next(s, t, act); s'.items != [] ==> Cared(s')
  {
    var s' := Next(s, t, act);
    if s'.items != [] && Enabled(s, t, act) {
      if OwesSignal(At(s', t)) || OwesPop(At(s', t)) || s'.slot {
      } else {
        assert s.items != [];
        assert !s.slot;
        var u: nat :| OwesSignal(At(s, u)) || OwesPop(At(s, u));
        assert u != t;
        assert At(s', u) == At(s, u);
      }
    }
  }

  lemma NextKeepsMutex<T>(s: State<T>, t: nat, act: Act<T>)
    requires MutualExclusion(s)
    ensures MutualExclusion(Next(s, t, act))
  {
    var s' := Next(s, t, act);
    assert forall u: nat | u != t :: At(s', u) == At(s, u);
    assert HoldsLock(At(s, t)) <==> s.holder == Some(t);
  }

  lemma {:induction false} RunInv<T>(ms: seq<Move<T>>)
    ensures Inv(Run(ms))
  {
    if ms != [] {
      RunInv(ms[..|ms| - 1]);
      NextKeepsCare(Run(ms[..|ms| - 1]), ms[|ms| - 1].t, ms[|ms| - 1].act);
      NextKeepsMutex(Run(ms[..|ms| - 1]), ms[|ms| - 1].t, ms[|ms| - 1].act);
    }
  }

  /**
    No lost wake-up, in every interleaving: while the list is not empty, the signal slot is full, or a
    producer is between its append and its signal, or a consumer is between its wake-up and the end of its Pop.
  */
  lemma NoLostWakeup<T>(ms: seq<Move<T>>)
    requires Run(ms).items != []
    ensures Run(ms).slot || exists t: nat :: OwesSignal(At(Run(ms), t)) || OwesPop(At(Run(ms), t))
  {
    RunInv(ms);
  }

  /** When nobody is in the middle of an operation and the signal has been taken, nothing is left in the list. */
  lemma QuietMeansDrained<T>(ms: seq<Move<T>>)
    requires !Run(ms).slot && forall t: nat :: At(Run(ms), t).Idle? || At(Run(ms), t).Waiting?
    ensures Run(ms).items == []
  {
    RunInv(ms);
  }

  // ---------------------------------------------------------------- progress

  /** A step that carries on an operation already begun. */
  predicate Continues<T>(s: State<T>, t: nat, act: Act<T>) {
    Enabled(s, t, act) && !At(s, t).Idle?
  }

  /** Whoever holds the lock can take its next step. */
  function OwnStep<T>(pc: Pc<T>): Act<T> {
    match pc
    case PushLocked(_) => Append
    case PushAppended => UnlockPush
    case PushUnlocked => Signal
    case Waiting => Receive
    case Woken => StartPop
    case PopLocked => Take
    case PopTook => Resignal
    case PopDone => UnlockPop
    case RemoveLocked => UnlockRemove
    case Idle => StartWait
  }

  /** A waiting consumer is never stuck beside a non-empty list: some operation already begun can go on. */
  lemma NeverStuck<T>(ms: seq<Move<T>>, w: nat)
    requires Run(ms).items != [] && At(Run(ms), w).Waiting?
    ensures exists t: nat, act: Act<T> :: Continues(Run(ms), t, act)
  {
    RunInv(ms);
    var s := Run(ms);
    if s.slot {
      assert Continues(s, w, Receive);
    } else {
      var t: nat :| OwesSignal(At(s, t)) || OwesPop(At(s, t));
      if At(s, t).Woken? && s.holder.Some? {
        var h := s.holder.value;
        assert HoldsLock(At(s, h));
        assert Continues(s, h, OwnStep(At(s, h)));
      } else {
        assert Continues(s, t, OwnStep(At(s, t)));
      }
    }
  }

  // ---------------------------------------------------------------- first in, first out

  lemma NextKeepsOrder<T>(s: State<T>, t: nat, act: Act<T>)
    requires !act.Delete? && s.popped + s.items == s.pushed
    ensures var s' := Next(s, t, act); s'.popped + s'.items == s'.pushed
  {
    if act.Append? && Enabled(s, t, act) {
      var v := At(s, t).v;
      assert s.popped + (s.items + [v]) == (s.popped + s.items) + [v];
    } else if act.Take? && Enabled(s, t, act) && s.items != [] {
      assert (s.popped + [s.items[0]]) + s.items[1..] == s.popped + ([s.items[0]] + s.items[1..]);
      assert s.items == [s.items[0]] + s.items[1..];
    }
  }

  /** Without Remove, what was popped followed by what is left is what was pushed, in that order. */
  lemma {:induction false} PopsInPushOrder<T>(ms: seq<Move<T>>)
    requires forall k | 0 <= k < |ms| :: !ms[k].act.Delete?
    ensures Run(ms).popped + Run(ms).items == Run(ms).pushed
  {
    if ms != [] {
      var ms0, m := ms[..|ms| - 1], ms[|ms| - 1];
      assert forall k | 0 <= k < |ms0| :: ms0[k] == ms[k];
      PopsInPushOrder(ms0);
      NextKeepsOrder(Run(ms0), m.t, m.act);
    }
  }

  // ---------------------------------------------------------------- undisturbed operations

  /** An undisturbed Push is the atomic Push of the list class: append, and the slot ends full. */
  lemma UndisturbedPush<T>(s: State<T>, t: nat, v: T)
    requires MutualExclusion(s) && s.holder.None? && At(s, t).Idle?
    ensures var s4 := Next(Next(Next(Next(s, t, StartPush(v)), t, Append), t, UnlockPush), t, Signal);
            s4.items == s.items + [v] && s4.slot && s4.holder.None? && At(s4, t).Idle?
  {
  }

  /** An undisturbed Pop, with or without a signal before it, takes the head and fills the slot exactly when something is left. */
  lemma UndisturbedPop<T>(s: State<T>, t: nat)
    requires MutualExclusion(s) && s.holder.None? && (At(s, t).Woken? || At(s, t).Idle?) && s.items != []
    ensures var s4 := Next(Next(Next(Next(s, t, StartPop), t, Take), t, Resignal), t, UnlockPop);
            && s4.items == s.items[1..] && s4.popped == s.popped + [s.items[0]]
            && (s4.slot <==> s.slot || s.items[1..] != []) && s4.holder.None? && At(s4, t).Idle?
  {
  }

  /** On an empty list it takes nothing and leaves the slot alone. */
  lemma UndisturbedPopOfNothing<T>(s: State<T>, t: nat)
    requires MutualExclusion(s) && s.holder.None? && (At(s, t).Woken? || At(s, t).Idle?) && s.items == []
    ensures var s3 := Next(Next(Next(s, t, StartPop), t, Take), t, UnlockPop);
            s3.items == [] && s3.popped == s.popped && s3.slot == s.slot && s3.holder.None? && At(s3, t).Idle?
  {
  }
}
