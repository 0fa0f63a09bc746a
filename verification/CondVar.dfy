/** Condition variables built from two event semaphores (compat/os2threads.h).

    Threads interleave at the granularity of single atomic operations. The semaphores are
    DCE_POSTONE: a post lets exactly one wait through and is used up by it. */
module CondVar {
  import opened Options

  type Tid = nat

  /** Where a thread stands. `locked` tells whether a signaller holds the mutex, `all`
      whether it runs the loop of pthread_cond_broadcast. */
  datatype Pc =
    | Outside
    | Inside
    | Count      // pthread_cond_wait: about to increment wait_count
    | Release    // about to unlock the mutex
    | Blocked    // waiting for event_sem
    | Woken      // about to decrement wait_count
    | Acking     // about to post ack_sem
    | Relock     // about to lock the mutex
    | Test(locked: bool, all: bool)   // pthread_cond_signal: about to read wait_count
    | Post(locked: bool, all: bool)   // about to post event_sem
    | Await(locked: bool, all: bool)  // waiting for ack_sem
    | Loop(locked: bool)              // pthread_cond_broadcast: the loop test

  datatype State = State(pc: seq<Pc>, mutex: Option<Tid>, waitCount: int, event: bool, ack: bool)

  datatype Action = Go | Lock | Unlock | CallWait | CallSignal | CallBroadcast

  /** The step thread `t` takes by `a`, or None when it cannot. */
  function Next(s: State, t: Tid, a: Action): Option<State> {
    if t >= |s.pc| then None
    else if a == Go then Continue(s, t, s.pc[t])
    else if s.pc[t] == Outside then Enter(s, t, a)
    else if s.pc[t] == Inside then Call(s, t, a)
    else None
  }

  /** A thread without the mutex locks it, or signals all the same. */
  function Enter(s: State, t: Tid, a: Action): Option<State>
    requires t < |s.pc|
  {
    match a
    case Lock => if s.mutex.None? then Some(At(s, t, Inside).(mutex := Some(t))) else None
    case CallSignal => Some(At(s, t, Test(false, false)))
    case CallBroadcast => Some(At(s, t, Loop(false)))
    case _ => None
  }

  /** A thread with the mutex. */
  function Call(s: State, t: Tid, a: Action): Option<State>
    requires t < |s.pc|
  {
    match a
    case Unlock => Some(At(s, t, Outside).(mutex := None))
    case CallWait => Some(At(s, t, Count))
    case CallSignal => Some(At(s, t, Test(true, false)))
    case CallBroadcast => Some(At(s, t, Loop(true)))
    case _ => None
  }

  /** A thread inside one of the three functions. */
  function Continue(s: State, t: Tid, p: Pc): Option<State>
    requires t < |s.pc|
  {
    match p
    case Outside => None
    case Inside => None
    case Count => Some(At(s, t, Release).(waitCount := s.waitCount + 1))
    case Release => Some(At(s, t, Blocked).(mutex := None))
    case Blocked => if s.event then Some(At(s, t, Woken).(event := false)) else None
    case Woken => Some(At(s, t, Acking).(waitCount := s.waitCount - 1))
    case Acking => Some(At(s, t, Relock).(ack := true))
    case Relock => if s.mutex.None? then Some(At(s, t, Inside).(mutex := Some(t))) else None
    case Test(l, all) => Some(At(s, t, if s.waitCount != 0 then Post(l, all) else Returned(l, all)))
    case Post(l, all) => Some(At(s, t, Await(l, all)).(event := true))
    case Await(l, all) => if s.ack then Some(At(s, t, Returned(l, all)).(ack := false)) else None
    case Loop(l) => Some(At(s, t, if s.waitCount != 0 then Test(l, true) else Returned(l, false)))
  }

  function At(s: State, t: Tid, p: Pc): State
    requires t < |s.pc|
  {
    s.(pc := s.pc[t := p])
  }

  /** Where pthread_cond_signal returns to. */
  function Returned(locked: bool, all: bool): Pc {
    if all then Loop(locked) else if locked then Inside else Outside
  }

  predicate Signalling(p: Pc) { p.Test? || p.Post? || p.Await? || p.Loop? }

  predicate Holds(p: Pc) {
    p.Inside? || p.Count? || p.Release? || (Signalling(p) && p.locked)
  }

  predicate Counted(p: Pc) { p.Release? || p.Blocked? || p.Woken? }

  predicate InFlight(p: Pc) { p.Woken? || p.Acking? }

  /** A start state: nobody is inside the condition variable. */
  ghost predicate Initial(s: State) {
    s.mutex == None && s.waitCount == 0 && !s.event && !s.ack &&
    forall t :: 0 <= t < |s.pc| ==> s.pc[t] == Outside
  }

  // ---- what a run must keep ----

  ghost predicate Exclusive(s: State) { forall t :: 0 <= t < |s.pc| ==> !Signalling(s.pc[t]) }

  /** A step that starts no signal while another one is under way. */
  ghost predicate Step(s: State, t: Tid, a: Action, s': State) {
    && Next(s, t, a) == Some(s')
    && (a.CallSignal? || a.CallBroadcast? ==> Exclusive(s))
  }

  ghost function CountedThreads(s: State): set<Tid> { set t: Tid | t < |s.pc| && Counted(s.pc[t]) }

  ghost function BlockedThreads(s: State): set<Tid> { set t: Tid | t < |s.pc| && s.pc[t].Blocked? }

  ghost function ReleasedThreads(s: State): set<Tid> { set t: Tid | t < |s.pc| && s.pc[t].Relock? }

  ghost predicate MutexSound(s: State) {
    && (s.mutex.Some? ==> s.mutex.value < |s.pc|)
    && forall t :: 0 <= t < |s.pc| ==> (Holds(s.pc[t]) <==> s.mutex == Some(t))
  }

  ghost predicate OneSignaller(s: State) {
    forall t, u :: 0 <= t < u < |s.pc| ==> !Signalling(s.pc[t]) || !Signalling(s.pc[u])
  }

  ghost predicate NoneInFlight(s: State) { forall t :: 0 <= t < |s.pc| ==> !InFlight(s.pc[t]) }

  ghost predicate OnlyInFlight(s: State, w: Tid) {
    w < |s.pc| && InFlight(s.pc[w]) && forall t :: 0 <= t < |s.pc| && InFlight(s.pc[t]) ==> t == w
  }

  predicate OnTheWay(p: Pc) { p.Release? || p.Blocked? }

  /** Someone is on the way to event_sem. */
  ghost predicate Pending(s: State) {
    exists t :: 0 <= t < |s.pc| && OnTheWay(s.pc[t])
  }

  ghost predicate Quiet(s: State) { !s.event && !s.ack && NoneInFlight(s) }

  /** Exactly one token travels from the signaller to a waiter and back. */
  ghost predicate OneToken(s: State) {
    || (s.event && !s.ack && NoneInFlight(s) && Pending(s))
    || (!s.event && !s.ack && exists w :: OnlyInFlight(s, w))
    || (!s.event && s.ack && NoneInFlight(s))
  }

  ghost predicate Awaiting(s: State) { exists t :: 0 <= t < |s.pc| && s.pc[t].Await? }

  ghost predicate Handshake(s: State) {
    && (if Awaiting(s) then OneToken(s) else Quiet(s))
    && ((exists t :: 0 <= t < |s.pc| && s.pc[t].Post?) ==> Pending(s))
  }

  ghost predicate Inv(s: State) {
    && MutexSound(s)
    && OneSignaller(s)
    && s.waitCount == |CountedThreads(s)|
    && Handshake(s)
  }

  lemma InitialInv(s: State)
    requires Initial(s)
    ensures Inv(s)
  {
    assert CountedThreads(s) == {};
  }

  /** What one step of thread `t` from `p` to `q` does to the mutex, the count and the
      threads. */
  predicate StepEffects(s: State, t: Tid, a: Action, s': State) {
    && t < |s.pc| == |s'.pc| && s'.pc == s.pc[t := s'.pc[t]]
    && var p, q := s.pc[t], s'.pc[t];
    && (if Holds(p) == Holds(q) then s'.mutex == s.mutex
        else if Holds(q) then s.mutex.None? && s'.mutex == Some(t)
        else s'.mutex.None?)
    && s'.waitCount - s.waitCount == (if Counted(q) then 1 else 0) - (if Counted(p) then 1 else 0)
    && (Signalling(q) && !Signalling(p) ==> a.CallSignal? || a.CallBroadcast?)
  }

  lemma Effects(s: State, t: Tid, a: Action, s': State)
    requires Next(s, t, a) == Some(s')
    ensures StepEffects(s, t, a, s')
  {
    if a == Go {
      if Signalling(s.pc[t]) {
        SignalEffects(s, t, s');
      } else {
        WaitEffects(s, t, s');
      }
    }
  }

  lemma SignalEffects(s: State, t: Tid, s': State)
    requires t < |s.pc| && Signalling(s.pc[t]) && Continue(s, t, s.pc[t]) == Some(s')
    ensures StepEffects(s, t, Go, s')
  {
  }

  lemma WaitEffects(s: State, t: Tid, s': State)
    requires t < |s.pc| && !Signalling(s.pc[t]) && Continue(s, t, s.pc[t]) == Some(s')
    ensures StepEffects(s, t, Go, s')
  {
  }

  lemma MutexStep(s: State, t: Tid, a: Action, s': State)
    requires MutexSound(s) && Next(s, t, a) == Some(s')
    ensures MutexSound(s')
  {
    Effects(s, t, a, s');
    KeepMutex(s, t, s');
  }

  lemma KeepMutex(s: State, t: Tid, s': State)
    requires MutexSound(s) && t < |s.pc| == |s'.pc| && s'.pc == s.pc[t := s'.pc[t]]
    requires var p, q := s.pc[t], s'.pc[t];
      if Holds(p) == Holds(q) then s'.mutex == s.mutex
      else if Holds(q) then s.mutex.None? && s'.mutex == Some(t)
      else s'.mutex.None?
    ensures MutexSound(s')
  {
  }

  lemma CountStep(s: State, t: Tid, a: Action, s': State)
    requires s.waitCount == |CountedThreads(s)| && Next(s, t, a) == Some(s')
    ensures s'.waitCount == |CountedThreads(s')|
  {
    Effects(s, t, a, s');
    var was, now := CountedThreads(s), CountedThreads(s');
    assert now == if Counted(s'.pc[t]) then was + {t} else was - {t};
    assert t in was <==> Counted(s.pc[t]);
  }

  lemma SignallerStep(s: State, t: Tid, a: Action, s': State)
    requires OneSignaller(s) && Step(s, t, a, s')
    ensures OneSignaller(s')
  {
    Effects(s, t, a, s');
  }

  /** While nothing is in flight, a positive count means somebody can take the event. */
  lemma CountedPending(s: State)
    requires s.waitCount == |CountedThreads(s)| && s.waitCount != 0 && NoneInFlight(s)
    ensures Pending(s)
  {
    assert CountedThreads(s) != {};
    var t :| t in CountedThreads(s);
    assert OnTheWay(s.pc[t]);
  }

  /** A signaller that is not yet waiting finds both semaphores reset. */
  lemma SignallerFindsQuiet(s: State, t: Tid)
    requires OneSignaller(s) && Handshake(s)
    requires t < |s.pc| && Signalling(s.pc[t]) && !s.pc[t].Await?
    ensures Quiet(s) && !Awaiting(s)
  {
    if u :| 0 <= u < |s.pc| && s.pc[u].Await? {
      assert t != u;
    }
  }

  /** Steps that touch neither semaphore. */
  predicate Silent(p: Pc) { !p.Blocked? && !p.Woken? && !p.Acking? && !p.Post? && !p.Await? }

  lemma SilentEffects(s: State, t: Tid, a: Action, s': State)
    requires Next(s, t, a) == Some(s') && Silent(s.pc[t])
    ensures s'.event == s.event && s'.ack == s.ack
    ensures var p, q := s.pc[t], s'.pc[t];
      && !InFlight(q) && !q.Await? && (OnTheWay(p) ==> OnTheWay(q))
      && (q.Post? ==> p.Test? && s.waitCount != 0)
  {
  }

  lemma SilentStep(s: State, t: Tid, a: Action, s': State)
    requires Inv(s) && Next(s, t, a) == Some(s') && Silent(s.pc[t])
    ensures Handshake(s')
  {
    Effects(s, t, a, s');
    SilentEffects(s, t, a, s');
    if s'.pc[t].Post? {
      SignallerFindsQuiet(s, t);
      CountedPending(s);
    }
    SilentKeeps(s, t, s');
  }

  lemma SilentKeeps(s: State, t: Tid, s': State)
    requires Handshake(s) && t < |s.pc| == |s'.pc| && s'.pc == s.pc[t := s'.pc[t]]
    requires s'.event == s.event && s'.ack == s.ack
    requires var p, q := s.pc[t], s'.pc[t];
      && !InFlight(p) && !InFlight(q) && !p.Await? && !q.Await? && (OnTheWay(p) ==> OnTheWay(q))
      && (q.Post? ==> Pending(s))
    ensures Handshake(s')
  {
    var p, q := s.pc[t], s'.pc[t];
    forall u | 0 <= u < |s.pc|
      ensures OnTheWay(s.pc[u]) ==> OnTheWay(s'.pc[u])
      ensures InFlight(s.pc[u]) <==> InFlight(s'.pc[u])
      ensures s.pc[u].Await? <==> s'.pc[u].Await?
    {
      assert s'.pc[u] == if u == t then q else s.pc[u];
    }
    if Pending(s) {
      var u :| 0 <= u < |s.pc| && OnTheWay(s.pc[u]);
      assert OnTheWay(s'.pc[u]);
    }
    if w :| OnlyInFlight(s, w) {
      assert OnlyInFlight(s', w);
    }
    assert Awaiting(s) <==> Awaiting(s');
  }

  /** Posting the event puts the token on its way. */
  lemma PostStep(s: State, t: Tid, a: Action, s': State)
    requires Inv(s) && Next(s, t, a) == Some(s') && s.pc[t].Post?
    ensures Handshake(s')
  {
    var q := s'.pc[t];
    SignallerFindsQuiet(s, t);
    assert s'.pc == s.pc[t := q] && q.Await? && s'.event && !s'.ack;
    var u :| 0 <= u < |s.pc| && OnTheWay(s.pc[u]);
    assert OnTheWay(s'.pc[u]);
    assert s'.pc[t].Await?;
    assert NoneInFlight(s');
  }

  /** A blocked thread takes the event and with it the token. */
  lemma WakeStep(s: State, t: Tid, a: Action, s': State)
    requires Inv(s) && Next(s, t, a) == Some(s') && s.pc[t].Blocked?
    ensures Handshake(s')
  {
    assert s'.pc == s.pc[t := Woken] && s.event && !s'.event && s'.ack == s.ack;
    var h :| 0 <= h < |s.pc| && s.pc[h].Await?;
    assert s'.pc[h].Await?;
    assert OnlyInFlight(s', t);
    NoPostWhileAwaiting(s, h, s', t);
  }

  lemma NoPostWhileAwaiting(s: State, h: Tid, s': State, t: Tid)
    requires OneSignaller(s) && h < |s.pc| && s.pc[h].Await?
    requires t < |s.pc| == |s'.pc| && s'.pc == s.pc[t := s'.pc[t]] && !s'.pc[t].Post?
    ensures forall u :: 0 <= u < |s'.pc| ==> !s'.pc[u].Post?
  {
    forall u | 0 <= u < |s'.pc|
      ensures !s'.pc[u].Post?
    {
      assert u != t ==> s'.pc[u] == s.pc[u];
    }
  }

  /** The woken thread uncounts itself, then hands the token back. */
  lemma CarryStep(s: State, t: Tid, a: Action, s': State)
    requires Inv(s) && Next(s, t, a) == Some(s') && InFlight(s.pc[t])
    ensures Handshake(s')
  {
    assert s'.pc == s.pc[t := s'.pc[t]];
    assert !NoneInFlight(s) && Awaiting(s);
    var h :| 0 <= h < |s.pc| && s.pc[h].Await?;
    assert s'.pc[h].Await?;
    var w :| OnlyInFlight(s, w);
    assert w == t && !s.event && !s.ack && !s'.event;
    if s.pc[t].Woken? {
      assert OnlyInFlight(s', t);
    } else {
      assert NoneInFlight(s');
    }
    NoPostWhileAwaiting(s, h, s', t);
  }

  /** The signaller takes the token home. */
  lemma AckStep(s: State, t: Tid, a: Action, s': State)
    requires Inv(s) && Next(s, t, a) == Some(s') && s.pc[t].Await?
    ensures Handshake(s')
  {
    var q := s'.pc[t];
    assert s'.pc == s.pc[t := q] && s.ack && !s'.ack && s'.event == s.event && !q.Await? && !InFlight(q);
    assert Awaiting(s);
    assert !Awaiting(s') by {
      forall u | 0 <= u < |s'.pc|
        ensures !s'.pc[u].Await?
      {
        assert u != t ==> s'.pc[u] == s.pc[u];
      }
    }
    assert NoneInFlight(s');
    NoPostWhileAwaiting(s, t, s', t);
  }

  lemma InvStep(s: State, t: Tid, a: Action, s': State)
    requires Inv(s) && Step(s, t, a, s')
    ensures Inv(s')
  {
    MutexStep(s, t, a, s');
    SignallerStep(s, t, a, s');
    CountStep(s, t, a, s');
    if s.pc[t].Blocked? {
      WakeStep(s, t, a, s');
    } else if InFlight(s.pc[t]) {
      CarryStep(s, t, a, s');
    } else if s.pc[t].Post? {
      PostStep(s, t, a, s');
    } else if s.pc[t].Await? {
      AckStep(s, t, a, s');
    } else {
      SilentStep(s, t, a, s');
    }
  }
}
