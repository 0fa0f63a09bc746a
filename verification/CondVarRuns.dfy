/** Whole runs of the condition variable: what a signal and a broadcast release, that an
    acknowledgement always comes, and what goes wrong when signallers overlap. */
module CondVarRuns {
  import opened Options
  import opened CondVar

  datatype Move = Move(t: Tid, a: Action)

  /** The state after `moves`, or None if one of them was not possible. */
  ghost function After(s: State, moves: seq<Move>): Option<State> {
    if moves == [] then Some(s)
    else
      var n := |moves| - 1;
      var before := After(s, moves[..n]);
      Moved(before, moves[n])
  }

  ghost function Moved(before: Option<State>, m: Move): Option<State> {
    if before.None? || !Allowed(before.value, m) then None
    else Next(before.value, m.t, m.a)
  }

  /** No signal starts while another is under way. */
  ghost predicate Allowed(s: State, m: Move) {
    m.a.CallSignal? || m.a.CallBroadcast? ==> Exclusive(s)
  }

  lemma {:induction false} ReachableInv(s: State, moves: seq<Move>)
    requires Inv(s) && After(s, moves).Some?
    ensures Inv(After(s, moves).value)
    ensures |After(s, moves).value.pc| == |s.pc|
  {
    if moves != [] {
      var n := |moves| - 1;
      ReachableInv(s, moves[..n]);
      var before := After(s, moves[..n]).value;
      Effects(before, moves[n].t, moves[n].a, After(s, moves).value);
      InvStep(before, moves[n].t, moves[n].a, After(s, moves).value);
    }
  }

  /** Signallers that hold the mutex can never overlap: a call from inside the mutex finds
      nobody else signalling with it. */
  lemma MutexExcludesSignallers(s: State, t: Tid)
    requires MutexSound(s) && t < |s.pc| && s.pc[t].Inside?
    requires forall u :: 0 <= u < |s.pc| && Signalling(s.pc[u]) ==> s.pc[u].locked
    ensures Exclusive(s)
  {
    forall u | 0 <= u < |s.pc|
      ensures !Signalling(s.pc[u])
    {
      assert Holds(s.pc[t]);
      assert Signalling(s.pc[u]) ==> Holds(s.pc[u]) && u != t;
    }
  }

  // ---- what a call releases ----

  predicate Waiter(p: Pc) { p.Blocked? || p.Woken? || p.Acking? || p.Relock? }

  ghost function Waiters(s: State): set<Tid> { set t: Tid | t < |s.pc| && Waiter(s.pc[t]) }

  /** A signaller under the mutex: nobody starts or finishes waiting meanwhile. */
  ghost predicate Commands(s: State, t: Tid) {
    t < |s.pc| && Signalling(s.pc[t]) && s.pc[t].locked
  }

  lemma CommandEffects(s: State, u: Tid, a: Action, s': State, t: Tid)
    requires Inv(s) && Step(s, u, a, s') && Commands(s, t)
    ensures u == t || s.pc[u].Blocked? || InFlight(s.pc[u])
    ensures Waiters(s') == Waiters(s) && s'.mutex == Some(t)
    ensures BlockedThreads(s') == if s.pc[u].Blocked? then BlockedThreads(s) - {u} else BlockedThreads(s)
    ensures s.pc[u].Blocked? ==> s.event
    ensures u != t ==> s'.pc[t] == s.pc[t]
  {
    Effects(s, u, a, s');
    assert Holds(s.pc[t]);
    if u != t {
      assert !Holds(s.pc[u]) && !Signalling(s.pc[u]);
      assert s.pc[u].Outside? ==> a.Lock? || !Exclusive(s);
    }
    assert Waiter(s.pc[u]) <==> Waiter(s'.pc[u]);
    assert forall v :: 0 <= v < |s.pc| && v != u ==> s'.pc[v] == s.pc[v];
  }

  predicate InSignal(p: Pc) { p.Test? || p.Post? || p.Await? }

  /** How far the signal that thread `t` began in state `e` has come. */
  ghost predicate SignalPhase(e: State, s: State, t: Tid, all: bool) {
    && Inv(s) && t < |s.pc| && InSignal(s.pc[t]) && s.pc[t].locked && s.pc[t].all == all
    && Waiters(s) == Waiters(e)
    && (if s.pc[t].Await? && !s.event
        then exists w :: w in BlockedThreads(e) && BlockedThreads(s) == BlockedThreads(e) - {w}
        else BlockedThreads(s) == BlockedThreads(e))
  }

  /** What it leaves behind. */
  ghost predicate SignalDone(e: State, s: State) {
    && Inv(s) && Quiet(s)
    && if BlockedThreads(e) == {} then
         BlockedThreads(s) == {} && ReleasedThreads(s) == ReleasedThreads(e)
       else
         exists w :: w in BlockedThreads(e) && BlockedThreads(s) == BlockedThreads(e) - {w} &&
           ReleasedThreads(s) == ReleasedThreads(e) + {w}
  }

  lemma QuietWaiters(s: State)
    requires NoneInFlight(s)
    ensures Waiters(s) == BlockedThreads(s) + ReleasedThreads(s)
    ensures BlockedThreads(s) !! ReleasedThreads(s)
  {
  }

  lemma SignalPhaseStep(e: State, s: State, t: Tid, all: bool, u: Tid, a: Action, s': State)
    requires SignalPhase(e, s, t, all) && Step(s, u, a, s') && t < |s'.pc| && InSignal(s'.pc[t])
    ensures SignalPhase(e, s', t, all)
  {
    InvStep(s, u, a, s');
    CommandEffects(s, u, a, s', t);
    if s.pc[u].Blocked? {
      assert Awaiting(s) by {
        assert s.event;
      }
      assert s.pc[t].Await? by {
        if !s.pc[t].Await? {
          SignallerFindsQuiet(s, t);
        }
      }
      assert u in BlockedThreads(e);
    } else if u != t {
      assert s'.event == s.event;
    }
  }

  lemma ReturnStep(s: State, t: Tid, u: Tid, a: Action, s': State)
    requires Inv(s) && Commands(s, t) && InSignal(s.pc[t]) && Step(s, u, a, s')
    requires t < |s'.pc| && s'.pc[t] == Returned(true, s.pc[t].all)
    ensures u == t && Quiet(s') && BlockedThreads(s') == BlockedThreads(s) && Waiters(s') == Waiters(s)
    ensures s.pc[t].Await? ==> !s.event
    ensures !s.pc[t].Await? ==> BlockedThreads(s) == {}
  {
    InvStep(s, u, a, s');
    CommandEffects(s, u, a, s', t);
    if s.pc[t].Await? {
      assert Awaiting(s);
    } else {
      assert s.pc[t].Test? && s.waitCount == 0;
      assert CountedThreads(s) == {};
      assert BlockedThreads(s) <= CountedThreads(s);
    }
    forall h | 0 <= h < |s'.pc|
      ensures !s'.pc[h].Await?
    {
      assert h != t ==> s'.pc[h] == s.pc[h] && !Signalling(s.pc[h]);
    }
  }

  lemma SignalReturn(e: State, s: State, t: Tid, all: bool, u: Tid, a: Action, s': State)
    requires Inv(e) && Quiet(e) && SignalPhase(e, s, t, all)
    requires Step(s, u, a, s') && t < |s'.pc| && s'.pc[t] == Returned(true, all)
    ensures SignalDone(e, s')
  {
    InvStep(s, u, a, s');
    ReturnStep(s, t, u, a, s');
    QuietWaiters(e);
    QuietWaiters(s');
    if s.pc[t].Await? {
      var w :| w in BlockedThreads(e) && BlockedThreads(s) == BlockedThreads(e) - {w};
      OneMoved(BlockedThreads(e), ReleasedThreads(e), BlockedThreads(s'), ReleasedThreads(s'), w);
    } else {
      assert ReleasedThreads(s') == ReleasedThreads(e);
    }
  }

  lemma OneMoved(b: set<Tid>, r: set<Tid>, b': set<Tid>, r': set<Tid>, w: Tid)
    requires b !! r && b' !! r' && b + r == b' + r' && w in b && b' == b - {w}
    ensures r' == r + {w}
  {
    assert forall x :: x in r' <==> x in b + r && x !in b';
  }

  /** Thread `t` stays in its signal up to the last of `moves`. */
  ghost predicate StaysInSignal(e: State, t: Tid, moves: seq<Move>)
    requires t < |e.pc|
  {
    moves == [] ||
    var n := |moves| - 1;
    && StaysInSignal(e, t, moves[..n])
    && var s := After(e, moves[..n]);
    && s.Some? && t < |s.value.pc| && InSignal(s.value.pc[t])
  }

  lemma {:induction false} SignalPhaseRun(e: State, t: Tid, all: bool, moves: seq<Move>)
    requires Inv(e) && t < |e.pc| && e.pc[t] == Test(true, all)
    requires StaysInSignal(e, t, moves) && After(e, moves).Some?
    requires t < |After(e, moves).value.pc| && InSignal(After(e, moves).value.pc[t])
    ensures SignalPhase(e, After(e, moves).value, t, all)
  {
    if moves != [] {
      var n := |moves| - 1;
      SignalPhaseRun(e, t, all, moves[..n]);
      SignalPhaseStep(e, After(e, moves[..n]).value, t, all, moves[n].t, moves[n].a, After(e, moves).value);
    }
  }

  /** However other threads interleave, a signal under the mutex releases exactly one of the
      threads blocked when it began, none if there were none, and leaves both semaphores reset. */
  lemma SignalReleasesOne(e: State, t: Tid, all: bool, moves: seq<Move>)
    requires Inv(e) && t < |e.pc| && e.pc[t] == Test(true, all)
    requires moves != [] && StaysInSignal(e, t, moves) && After(e, moves).Some?
    requires t < |After(e, moves).value.pc| && After(e, moves).value.pc[t] == Returned(true, all)
    ensures SignalDone(e, After(e, moves).value)
  {
    var n := |moves| - 1;
    SignallerFindsQuiet(e, t);
    SignalPhaseRun(e, t, all, moves[..n]);
    SignalReturn(e, After(e, moves[..n]).value, t, all, moves[n].t, moves[n].a, After(e, moves).value);
  }

  /** Thread `t` stays in its broadcast up to the last of `moves`. */
  ghost predicate StaysInBroadcast(e: State, t: Tid, moves: seq<Move>)
    requires t < |e.pc|
  {
    moves == [] ||
    var n := |moves| - 1;
    && StaysInBroadcast(e, t, moves[..n])
    && var s := After(e, moves[..n]);
    && s.Some? && t < |s.value.pc| && Signalling(s.value.pc[t])
  }

  lemma {:induction false} BroadcastRun(e: State, t: Tid, moves: seq<Move>)
    requires Inv(e) && t < |e.pc| && e.pc[t] == Loop(true)
    requires StaysInBroadcast(e, t, moves) && After(e, moves).Some?
    ensures var s := After(e, moves).value;
      && Inv(s) && |s.pc| == |e.pc| && Waiters(s) == Waiters(e)
      && (Signalling(s.pc[t]) ==> s.pc[t].locked && (s.pc[t].Loop? || s.pc[t].all))
  {
    if moves != [] {
      var n := |moves| - 1;
      BroadcastRun(e, t, moves[..n]);
      BroadcastStep(After(e, moves[..n]).value, t, moves[n].t, moves[n].a, After(e, moves).value);
    }
  }

  lemma BroadcastStep(s: State, t: Tid, u: Tid, a: Action, s': State)
    requires Inv(s) && Commands(s, t) && (s.pc[t].Loop? || s.pc[t].all) && Step(s, u, a, s')
    ensures Inv(s') && |s'.pc| == |s.pc| && Waiters(s') == Waiters(s)
    ensures Signalling(s'.pc[t]) ==> s'.pc[t].locked && (s'.pc[t].Loop? || s'.pc[t].all)
  {
    InvStep(s, u, a, s');
    Effects(s, u, a, s');
    CommandEffects(s, u, a, s', t);
  }

  /** The step with which a broadcast ends finds nobody left. */
  lemma BroadcastReturn(s: State, t: Tid, u: Tid, a: Action, s': State)
    requires Inv(s) && Commands(s, t) && (s.pc[t].Loop? || s.pc[t].all)
    requires Step(s, u, a, s') && s'.pc[t] == Inside
    ensures BlockedThreads(s') == {} && NoneInFlight(s') && Quiet(s')
  {
    CommandEffects(s, u, a, s', t);
    assert u == t && s.pc[t].Loop? && s.waitCount == 0;
    SignallerFindsQuiet(s, t);
    assert CountedThreads(s) == {};
    assert BlockedThreads(s) <= CountedThreads(s);
  }

  /** A broadcast under the mutex releases exactly the threads blocked when it began. */
  lemma BroadcastReleasesAll(e: State, t: Tid, moves: seq<Move>)
    requires Inv(e) && t < |e.pc| && e.pc[t] == Loop(true)
    requires moves != [] && StaysInBroadcast(e, t, moves) && After(e, moves).Some?
    requires t < |After(e, moves).value.pc| && After(e, moves).value.pc[t] == Inside
    ensures var s := After(e, moves).value;
      BlockedThreads(s) == {} && ReleasedThreads(s) == ReleasedThreads(e) + BlockedThreads(e) && Quiet(s)
  {
    var n := |moves| - 1;
    var s := After(e, moves[..n]).value;
    var s' := After(e, moves).value;
    BroadcastRun(e, t, moves[..n]);
    BroadcastRun(e, t, moves);
    SignallerFindsQuiet(e, t);
    QuietWaiters(e);
    BroadcastReturn(s, t, moves[n].t, moves[n].a, s');
    QuietWaiters(s');
  }

  // ---- the acknowledgement always comes ----

  /** Steps the token still has to make before the signaller can return. */
  ghost function Rank(s: State): nat {
    if s.event then (if exists w :: 0 <= w < |s.pc| && s.pc[w].Blocked? then 3 else 4)
    else if exists w :: 0 <= w < |s.pc| && s.pc[w].Woken? then 2
    else if s.ack then 0
    else 1
  }

  /** While a signaller waits, no step of any thread sends the token back. */
  lemma TokenNeverRetreats(s: State, t: Tid, u: Tid, a: Action, s': State)
    requires Inv(s) && t < |s.pc| && s.pc[t].Await? && Step(s, u, a, s') && s'.pc[t].Await?
    ensures Rank(s') <= Rank(s)
  {
    Effects(s, u, a, s');
    assert Awaiting(s);
    if u != t {
      assert !s.pc[u].Post? && !s.pc[u].Await? by {
        assert Signalling(s.pc[t]);
      }
    }
    if s.event {
      if w :| 0 <= w < |s.pc| && s.pc[w].Blocked? {
        assert s'.event ==> s'.pc[w].Blocked?;
      }
    } else if s.pc[u].Woken? {
      assert InFlight(s.pc[u]);
    } else if w :| 0 <= w < |s'.pc| && s'.pc[w].Woken? {
      assert w != u ==> s.pc[w].Woken?;
    }
  }

  /** Whenever a signaller waits and the acknowledgement is not posted yet, some thread that
      carries the token, or is owed it, can move it on. */
  lemma TokenCanAdvance(s: State, t: Tid) returns (w: Tid, s': State)
    requires Inv(s) && t < |s.pc| && s.pc[t].Await? && !s.ack
    ensures Step(s, w, Go, s') && |s'.pc| == |s.pc| && s'.pc[t] == s.pc[t] && Rank(s') < Rank(s)
  {
    assert Awaiting(s);
    if s.event {
      if u :| 0 <= u < |s.pc| && s.pc[u].Blocked? {
        w := u;
        s' := EventTaken(s, w);
      } else {
        w :| 0 <= w < |s.pc| && OnTheWay(s.pc[w]);
        s' := WaiterBlocks(s, w);
      }
    } else {
      w :| OnlyInFlight(s, w);
      s' := TokenCarried(s, w);
    }
    Effects(s, w, Go, s');
  }

  lemma EventTaken(s: State, w: Tid) returns (s': State)
    requires s.event && NoneInFlight(s) && w < |s.pc| && s.pc[w].Blocked?
    ensures Next(s, w, Go) == Some(s') && Rank(s') < Rank(s)
  {
    s' := Next(s, w, Go).value;
    assert s'.pc[w].Woken? && !s'.event;
  }

  lemma WaiterBlocks(s: State, w: Tid) returns (s': State)
    requires s.event && w < |s.pc| && s.pc[w].Release? && forall u :: 0 <= u < |s.pc| ==> !s.pc[u].Blocked?
    ensures Next(s, w, Go) == Some(s') && Rank(s') < Rank(s)
  {
    s' := Next(s, w, Go).value;
    assert s'.pc[w].Blocked? && s'.event;
  }

  lemma TokenCarried(s: State, w: Tid) returns (s': State)
    requires !s.event && !s.ack && OnlyInFlight(s, w)
    ensures Next(s, w, Go) == Some(s') && Rank(s') < Rank(s)
  {
    s' := Next(s, w, Go).value;
    assert forall u :: 0 <= u < |s'.pc| ==> !s'.pc[u].Woken?;
  }

  /** From every reachable state in which a signaller waits there is a way for it to return,
      by at most five steps of threads already inside the condition variable; with the mutex,
      and its event still untaken, somebody blocked is released on the way. */
  lemma SignallerCanReturn(s: State, t: Tid) returns (moves: seq<Move>)
    requires Inv(s) && t < |s.pc| && s.pc[t].Await?
    ensures |moves| <= 5 && forall i :: 0 <= i < |moves| ==> moves[i].a == Go
    ensures After(s, moves).Some? && t < |After(s, moves).value.pc|
    ensures After(s, moves).value.pc[t] == Returned(s.pc[t].locked, s.pc[t].all)
    ensures s.pc[t].locked && s.event ==> BlockedThreads(After(s, moves).value) < BlockedThreads(s)
  {
    var now := s;
    moves := [];
    while !now.ack
      invariant StillAwaits(s, t, moves, now)
      decreases Rank(now)
    {
      moves, now := Onward(s, t, moves, now);
    }
    moves := Arrival(s, t, moves, now);
  }

  /** The signaller still waits after `moves`, which led from `s` to `now`. */
  ghost predicate StillAwaits(s: State, t: Tid, moves: seq<Move>, now: State)
    requires t < |s.pc|
  {
    && Inv(now) && |now.pc| == |s.pc| && now.pc[t] == s.pc[t] && s.pc[t].Await?
    && After(s, moves) == Some(now) && |moves| + Rank(now) <= 4
    && (forall i :: 0 <= i < |moves| ==> moves[i].a == Go)
    && (s.pc[t].locked ==> BlockedThreads(now) <= BlockedThreads(s))
    && (s.pc[t].locked && s.event && !now.event ==> BlockedThreads(now) < BlockedThreads(s))
  }

  lemma Onward(s: State, t: Tid, moves: seq<Move>, now: State) returns (more: seq<Move>, next: State)
    requires Inv(s) && t < |s.pc| && StillAwaits(s, t, moves, now) && !now.ack
    ensures StillAwaits(s, t, more, next) && Rank(next) < Rank(now)
  {
    var w;
    w, next := TokenCanAdvance(now, t);
    InvStep(now, w, Go, next);
    AfterMore(s, moves, now, Move(w, Go));
    if s.pc[t].locked {
      StepReleases(now, w, next, t);
    }
    more := moves + [Move(w, Go)];
  }

  lemma Arrival(s: State, t: Tid, moves: seq<Move>, now: State) returns (more: seq<Move>)
    requires Inv(s) && t < |s.pc| && StillAwaits(s, t, moves, now) && now.ack
    ensures |more| <= 5 && forall i :: 0 <= i < |more| ==> more[i].a == Go
    ensures After(s, more).Some? && t < |After(s, more).value.pc|
    ensures After(s, more).value.pc[t] == Returned(s.pc[t].locked, s.pc[t].all)
    ensures s.pc[t].locked && s.event ==> BlockedThreads(After(s, more).value) < BlockedThreads(s)
  {
    AfterMore(s, moves, now, Move(t, Go));
    more := moves + [Move(t, Go)];
    if s.pc[t].locked {
      StepReleases(now, t, After(s, more).value, t);
      assert Awaiting(now) && !now.event;
    }
  }

  /** Under a signaller with the mutex blocked threads only get fewer, and an event that goes
      has released one. */
  lemma StepReleases(s: State, w: Tid, s': State, t: Tid)
    requires Inv(s) && Commands(s, t) && s.pc[t].Await? && Next(s, w, Go) == Some(s')
    ensures BlockedThreads(s') <= BlockedThreads(s)
    ensures s.event && !s'.event ==> BlockedThreads(s') < BlockedThreads(s)
  {
    CommandEffects(s, w, Go, s', t);
    if s.event && !s'.event {
      assert s.pc[w].Blocked?;
      assert w in BlockedThreads(s);
    }
  }

  lemma AfterMore(s: State, moves: seq<Move>, now: State, m: Move)
    requires After(s, moves) == Some(now) && Allowed(now, m)
    ensures After(s, moves + [m]) == Next(now, m.t, m.a)
  {
    assert (moves + [m])[..|moves|] == moves;
  }

  /** The whole system never locks up: unless every thread is blocked for want of a signal,
      some thread can move. */
  lemma SomebodyCanMove(s: State, t: Tid) returns (u: Tid, a: Action)
    requires Inv(s) && t < |s.pc| && !s.pc[t].Blocked?
    ensures Next(s, u, a).Some? && Allowed(s, Move(u, a))
  {
    u := if s.mutex.Some? then s.mutex.value else t;
    if s.pc[u].Await? && !s.ack {
      var s';
      u, s' := TokenCanAdvance(s, u);
      a := Go;
    } else {
      assert s.mutex.Some? ==> Holds(s.pc[u]);
      a := if s.pc[u].Outside? then Lock else if s.pc[u].Inside? then Unlock else Go;
    }
  }

  // ---- broadcasts end ----

  /** With a signaller that holds the mutex and no token under way, everybody counted is
      blocked. */
  lemma CountedAreBlocked(s: State, t: Tid)
    requires Inv(s) && Commands(s, t) && NoneInFlight(s)
    ensures CountedThreads(s) == BlockedThreads(s) && s.waitCount == |BlockedThreads(s)|
  {
    forall u | 0 <= u < |s.pc|
      ensures Counted(s.pc[u]) <==> s.pc[u].Blocked?
    {
      assert Holds(s.pc[t]) && (Holds(s.pc[u]) ==> u == t);
      assert !InFlight(s.pc[u]);
    }
  }

  /** However threads interleave, each round of a broadcast lowers wait_count by exactly one. */
  lemma RoundLowersCount(e: State, t: Tid, moves: seq<Move>)
    requires Inv(e) && t < |e.pc| && e.pc[t] == Test(true, true) && e.waitCount != 0
    requires moves != [] && StaysInSignal(e, t, moves) && After(e, moves).Some?
    requires t < |After(e, moves).value.pc| && After(e, moves).value.pc[t] == Loop(true)
    ensures After(e, moves).value.waitCount == e.waitCount - 1
  {
    var s := After(e, moves).value;
    SignalReleasesOne(e, t, true, moves);
    SignallerFindsQuiet(e, t);
    CountedAreBlocked(e, t);
    CountedAreBlocked(s, t);
    assert BlockedThreads(e) != {};
    var w :| w in BlockedThreads(e) && BlockedThreads(s) == BlockedThreads(e) - {w};
  }

  lemma {:induction false} AfterConcat(s: State, a: seq<Move>, b: seq<Move>)
    requires After(s, a).Some?
    ensures After(s, a + b) == After(After(s, a).value, b)
    decreases |b|
  {
    if b == [] {
      assert a + b == a;
    } else {
      var n := |b| - 1;
      AfterConcat(s, a, b[..n]);
      assert (a + b)[..|a + b| - 1] == a + b[..n];
      LastMove(s, a + b);
      LastMove(After(s, a).value, b);
    }
  }

  lemma LastMove(s: State, moves: seq<Move>)
    requires moves != []
    ensures After(s, moves) == Moved(After(s, moves[..|moves| - 1]), moves[|moves| - 1])
  {
  }

  lemma OwnStep(s: State, t: Tid, p: Pc) returns (s': State)
    requires Inv(s) && t < |s.pc| && Signalling(s.pc[t]) && s.pc[t].locked && !s.pc[t].Await?
    requires Next(s, t, Go).Some? && Next(s, t, Go).value.pc[t] == p && Signalling(p)
    ensures Next(s, t, Go) == Some(s') && Inv(s') && |s'.pc| == |s.pc| && s'.pc[t] == p
    ensures BlockedThreads(s') == BlockedThreads(s) && s'.waitCount == s.waitCount
    ensures s.pc[t].Post? ==> s'.event
  {
    s' := Next(s, t, Go).value;
    InvStep(s, t, Go, s');
    CommandEffects(s, t, Go, s', t);
  }

  /** A broadcast that finds somebody counted gets to wait for an acknowledgement. */
  lemma RoundBegins(s: State, t: Tid) returns (s': State)
    requires Inv(s) && t < |s.pc| && s.pc[t] == Loop(true) && s.waitCount != 0
    ensures After(s, [Move(t, Go), Move(t, Go), Move(t, Go)]) == Some(s')
    ensures Inv(s') && |s'.pc| == |s.pc| && s'.pc[t] == Await(true, true) && s'.event
    ensures BlockedThreads(s') == BlockedThreads(s)
  {
    var s1 := OwnStep(s, t, Test(true, true));
    var s2 := OwnStep(s1, t, Post(true, true));
    s' := OwnStep(s2, t, Await(true, true));
    ThreeMore(s, Move(t, Go), s1, s2, s');
  }

  /** One round of a broadcast can be run through, and leaves fewer threads blocked. */
  lemma RoundCanRun(s: State, t: Tid) returns (moves: seq<Move>, s': State)
    requires Inv(s) && t < |s.pc| && s.pc[t] == Loop(true) && s.waitCount != 0
    ensures |moves| <= 8 && forall i :: 0 <= i < |moves| ==> moves[i].a == Go
    ensures After(s, moves) == Some(s') && Inv(s') && |s'.pc| == |s.pc| && s'.pc[t] == Loop(true)
    ensures BlockedThreads(s') < BlockedThreads(s)
  {
    var first := [Move(t, Go), Move(t, Go), Move(t, Go)];
    var awaiting := RoundBegins(s, t);
    var rest := SignallerCanReturn(awaiting, t);
    moves := first + rest;
    AfterConcat(s, first, rest);
    s' := After(s, moves).value;
    ReachableInv(awaiting, rest);
  }

  lemma ThreeMore(s: State, m: Move, s1: State, s2: State, s3: State)
    requires m.a == Go && Next(s, m.t, Go) == Some(s1) && Next(s1, m.t, Go) == Some(s2) && Next(s2, m.t, Go) == Some(s3)
    ensures After(s, [m, m, m]) == Some(s3)
  {
    AfterMore(s, [], s, m);
    AfterMore(s, [m], s1, m);
    AfterMore(s, [m, m], s2, m);
    assert [] + [m] == [m] && [m] + [m] == [m, m] && [m, m] + [m] == [m, m, m];
  }

  /** From every reachable state a broadcast with the mutex can run to its end, by steps of
      threads already inside the condition variable, in as many rounds as threads are blocked. */
  lemma {:induction false} BroadcastCanReturn(s: State, t: Tid) returns (moves: seq<Move>)
    requires Inv(s) && t < |s.pc| && s.pc[t] == Loop(true)
    ensures |moves| <= 8 * |BlockedThreads(s)| + 1 && forall i :: 0 <= i < |moves| ==> moves[i].a == Go
    ensures After(s, moves).Some? && t < |After(s, moves).value.pc| && After(s, moves).value.pc[t] == Inside
    decreases |BlockedThreads(s)|
  {
    if s.waitCount == 0 {
      moves := [Move(t, Go)];
      LoopEnds(s, t);
    } else {
      var round, s' := RoundCanRun(s, t);
      FewerBlocked(s, s');
      var rest := BroadcastCanReturn(s', t);
      moves := round + rest;
      AfterConcat(s, round, rest);
      GoesAppend(round, rest);
    }
  }

  /** The loop ends when nobody is counted. */
  lemma LoopEnds(s: State, t: Tid)
    requires t < |s.pc| && s.pc[t] == Loop(true) && s.waitCount == 0
    ensures var r := After(s, [Move(t, Go)]);
            r.Some? && t < |r.value.pc| && r.value.pc[t] == Inside
  {
    AfterMore(s, [], s, Move(t, Go));
    assert [] + [Move(t, Go)] == [Move(t, Go)];
  }

  lemma GoesAppend(a: seq<Move>, b: seq<Move>)
    requires forall i :: 0 <= i < |a| ==> a[i].a == Go
    requires forall i :: 0 <= i < |b| ==> b[i].a == Go
    ensures forall i :: 0 <= i < |a + b| ==> (a + b)[i].a == Go
  {
  }

  lemma FewerBlocked(s: State, s': State)
    requires BlockedThreads(s') < BlockedThreads(s)
    ensures |BlockedThreads(s')| < |BlockedThreads(s)|
  {
    var more := BlockedThreads(s) - BlockedThreads(s');
    assert more != {};
    assert BlockedThreads(s) == BlockedThreads(s') + more;
  }
}
