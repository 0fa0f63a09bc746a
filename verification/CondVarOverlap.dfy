/** Signals that overlap: exactly when a signaller can be left waiting for an acknowledgement
    that nobody owes it. */
module CondVarOverlap {
  import opened Options
  import opened CondVar
  import opened CondVarRuns

  /** The same steps without the rule against overlapping. */
  function AfterAny(s: State, moves: seq<Move>): Option<State> {
    if moves == [] then Some(s)
    else
      var before := AfterAny(s, moves[..|moves| - 1]);
      if before.None? then None else Next(before.value, moves[|moves| - 1].t, moves[|moves| - 1].a)
  }

  /** A signaller whose token went to somebody else: the event it posted is still there, no
      thread is on the way to it, and no acknowledgement is due. */
  ghost predicate Stranded(s: State, t: Tid) {
    && t < |s.pc| && s.pc[t].Await? && s.event && !s.ack && s.waitCount == 0
    && forall u :: 0 <= u < |s.pc| && u != t ==>
         s.pc[u] == Outside || s.pc[u] == Inside || s.pc[u].Test? || s.pc[u].Loop? || s.pc[u].Relock?
  }

  /** It stays there as long as nobody waits anew, whatever else the threads do. */
  lemma {:induction false} StrandedForever(s: State, t: Tid, moves: seq<Move>)
    requires Stranded(s, t) && AfterAny(s, moves).Some?
    requires forall i :: 0 <= i < |moves| ==> moves[i].a != CallWait
    ensures Stranded(AfterAny(s, moves).value, t)
  {
    if moves != [] {
      StrandedForever(s, t, moves[..|moves| - 1]);
      StrandedStep(AfterAny(s, moves[..|moves| - 1]).value, t, moves[|moves| - 1], AfterAny(s, moves).value);
    }
  }

  lemma StrandedStep(s: State, t: Tid, m: Move, s': State)
    requires Stranded(s, t) && Next(s, m.t, m.a) == Some(s') && m.a != CallWait
    ensures Stranded(s', t)
  {
    assert s'.pc == s.pc[m.t := s'.pc[m.t]];
  }

  /** A signaller whose token is gone altogether: no event, no acknowledgement, nobody who
      carries one, and no other signaller. */
  ghost predicate Doomed(s: State, t: Tid) {
    && t < |s.pc| && s.pc[t].Await? && !s.event && !s.ack && NoneInFlight(s)
    && forall u :: 0 <= u < |s.pc| && u != t ==> !Signalling(s.pc[u])
  }

  /** It waits as long as nobody signals anew, whatever else the threads do. */
  lemma {:induction false} DoomedForever(s: State, t: Tid, moves: seq<Move>)
    requires Doomed(s, t) && AfterAny(s, moves).Some?
    requires forall i :: 0 <= i < |moves| ==> !moves[i].a.CallSignal? && !moves[i].a.CallBroadcast?
    ensures Doomed(AfterAny(s, moves).value, t)
    decreases |moves|
  {
    if moves != [] {
      var n := |moves| - 1;
      DoomedForever(s, t, moves[..n]);
      DoomedStep(AfterAny(s, moves[..n]).value, t, moves[n], AfterAny(s, moves).value);
    }
  }

  lemma DoomedStep(s: State, t: Tid, m: Move, s': State)
    requires Doomed(s, t) && Next(s, m.t, m.a) == Some(s')
    requires !m.a.CallSignal? && !m.a.CallBroadcast?
    ensures Doomed(s', t)
  {
    Effects(s, m.t, m.a, s');
    forall u | 0 <= u < |s'.pc|
      ensures !InFlight(s'.pc[u]) && (u != t ==> !Signalling(s'.pc[u]))
    {
      assert u != m.t ==> s'.pc[u] == s.pc[u];
    }
  }

  /** A thread that may call, with or without the mutex. */
  predicate Free(p: Pc) { p.Outside? || p.Inside? }

  ghost predicate Lost(s: State, t: Tid) { Doomed(s, t) || Stranded(s, t) }

  // ---- building a run ----

  predicate NoNewWaits(moves: seq<Move>) { forall i :: 0 <= i < |moves| ==> moves[i].a != CallWait }

  predicate Path(start: State, moves: seq<Move>, s: State) {
    AfterAny(start, moves) == Some(s) && NoNewWaits(moves)
  }

  ghost predicate Books(s: State) { MutexSound(s) && s.waitCount == |CountedThreads(s)| }

  lemma Advance(start: State, moves: seq<Move>, s: State, v: Tid, a: Action) returns (longer: seq<Move>, s': State)
    requires Path(start, moves, s) && Books(s) && Next(s, v, a).Some? && a != CallWait
    ensures Path(start, longer, s') && Next(s, v, a) == Some(s') && Books(s')
    ensures v < |s.pc| == |s'.pc| && s'.pc == s.pc[v := s'.pc[v]]
  {
    longer := moves + [Move(v, a)];
    assert longer[..|longer| - 1] == moves;
    s' := Next(s, v, a).value;
    Effects(s, v, a, s');
    MutexStep(s, v, a, s');
    CountStep(s, v, a, s');
  }

  /** A signaller that finds somebody counted posts the event and waits. */
  lemma TestToAwait(start: State, moves: seq<Move>, s: State, v: Tid) returns (longer: seq<Move>, s': State)
    requires Path(start, moves, s) && Books(s) && v < |s.pc| && s.pc[v].Test? && s.waitCount != 0
    ensures Path(start, longer, s') && Books(s') && s'.pc == s.pc[v := Await(s.pc[v].locked, s.pc[v].all)]
    ensures s'.event && s'.ack == s.ack && s'.waitCount == s.waitCount
  {
    var posting;
    longer, posting := Advance(start, moves, s, v, Go);
    assert posting.pc == s.pc[v := Post(s.pc[v].locked, s.pc[v].all)] && posting.waitCount == s.waitCount;
    longer, s' := Advance(start, longer, posting, v, Go);
  }

  ghost predicate OnlyTwo(s: State, u: Tid, t: Tid) {
    && u < |s.pc| && t < |s.pc| && u != t && s.pc[t].Await?
    && forall v :: 0 <= v < |s.pc| && v != u && v != t ==> !Signalling(s.pc[v])
  }

  /** Two signallers wait, and only one event is out for both. */
  ghost predicate Merged(s: State, u: Tid, t: Tid) {
    Books(s) && OnlyTwo(s, u, t) && s.pc[u].Await? && s.event && NoneInFlight(s) && Pending(s)
  }

  /** One of them is served, the other's token is gone. */
  ghost predicate Drained(s: State, u: Tid, t: Tid) {
    && Books(s) && OnlyTwo(s, u, t) && !s.event && !s.ack && NoneInFlight(s)
    && (s.pc[u].Outside? || s.pc[u].Inside? || s.pc[u].Loop?)
  }

  /** A thread on the way takes the event and hands back the acknowledgement. */
  lemma WaiterServes(start: State, moves: seq<Move>, s: State, x: Tid) returns (longer: seq<Move>, s': State)
    requires Path(start, moves, s) && Books(s) && x < |s.pc| && OnTheWay(s.pc[x]) && s.event
    ensures Path(start, longer, s') && Books(s') && s'.pc == s.pc[x := Relock]
    ensures !s'.event && s'.ack && s'.waitCount == s.waitCount - 1
  {
    longer, s' := moves, s;
    if s.pc[x].Release? {
      longer, s' := Advance(start, longer, s', x, Go);
    }
    var blocked := s';
    assert blocked.pc == s.pc[x := Blocked] && blocked.event && blocked.waitCount == s.waitCount;
    longer, s' := Advance(start, longer, s', x, Go);
    longer, s' := Advance(start, longer, s', x, Go);
    longer, s' := Advance(start, longer, s', x, Go);
    assert s'.pc == s.pc[x := Relock];
  }

  lemma MergedRun(start: State, moves: seq<Move>, s: State, u: Tid, t: Tid) returns (longer: seq<Move>, s': State)
    requires Path(start, moves, s) && Merged(s, u, t)
    ensures Path(start, longer, s') && Drained(s', u, t) && s'.waitCount == s.waitCount - 1
  {
    var x :| 0 <= x < |s.pc| && OnTheWay(s.pc[x]);
    var served;
    longer, served := WaiterServes(start, moves, s, x);
    longer, s' := Advance(start, longer, served, u, Go);
    assert s'.pc == s.pc[x := Relock][u := Returned(s.pc[u].locked, s.pc[u].all)];
    NowDrained(s, u, t, x, s');
  }

  lemma NowDrained(s: State, u: Tid, t: Tid, x: Tid, s': State)
    requires Merged(s, u, t) && x < |s.pc| && OnTheWay(s.pc[x]) && Books(s') && !s'.event && !s'.ack
    requires s'.pc == s.pc[x := Relock][u := Returned(s.pc[u].locked, s.pc[u].all)]
    ensures Drained(s', u, t)
  {
    forall v | 0 <= v < |s.pc|
      ensures !InFlight(s'.pc[v]) && (v != u && v != t ==> !Signalling(s'.pc[v]))
    {
      assert v != u && v != x ==> s'.pc[v] == s.pc[v];
    }
  }

  /** A broadcast goes on until nobody is left, and takes every acknowledgement itself. */
  lemma {:induction false} DrainToDoom(start: State, moves: seq<Move>, s: State, u: Tid, t: Tid)
      returns (longer: seq<Move>, s': State)
    requires Path(start, moves, s) && Drained(s, u, t)
    ensures Path(start, longer, s') && Doomed(s', t)
    decreases s.waitCount
  {
    if !s.pc[u].Loop? {
      longer, s' := moves, s;
    } else if s.waitCount == 0 {
      longer, s' := Advance(start, moves, s, u, Go);
    } else {
      var merged;
      longer, merged := LoopMerges(start, moves, s, u, t);
      longer, s' := MergedRun(start, longer, merged, u, t);
      longer, s' := DrainToDoom(start, longer, s', u, t);
    }
  }

  lemma LoopMerges(start: State, moves: seq<Move>, s: State, u: Tid, t: Tid) returns (longer: seq<Move>, s': State)
    requires Path(start, moves, s) && Drained(s, u, t) && s.pc[u].Loop? && s.waitCount != 0
    ensures Path(start, longer, s') && Merged(s', u, t) && s'.waitCount == s.waitCount
  {
    CountedPending(s);
    var x :| 0 <= x < |s.pc| && OnTheWay(s.pc[x]);
    var l := s.pc[u].locked;
    longer, s' := Advance(start, moves, s, u, Go);
    assert s'.pc == s.pc[u := Test(l, true)] && s'.waitCount == s.waitCount;
    longer, s' := TestToAwait(start, longer, s', u);
    assert s'.pc == s.pc[u := Await(l, true)];
    MergedAgain(s, u, t, x, s');
  }

  lemma MergedAgain(s: State, u: Tid, t: Tid, x: Tid, s': State)
    requires Drained(s, u, t) && s.pc[u].Loop? && x < |s.pc| && OnTheWay(s.pc[x])
    requires s'.pc == s.pc[u := Await(s.pc[u].locked, true)] && s'.event && Books(s')
    ensures Merged(s', u, t)
  {
    assert OnTheWay(s'.pc[x]);
    forall v | 0 <= v < |s.pc|
      ensures !InFlight(s'.pc[v]) && (v != u && v != t ==> !Signalling(s'.pc[v]))
    {
      assert v != u ==> s'.pc[v] == s.pc[v];
    }
  }

  // ---- a second signaller joins ----

  /** The first signaller waits, its token is out or back, and another thread is on the way. */
  ghost predicate Ready(s: State, u: Tid, t: Tid) {
    && Inv(s) && u < |s.pc| && t < |s.pc| && s.pc[u].Await? && Free(s.pc[t])
    && NoneInFlight(s) && Pending(s)
  }

  /** The only thread counted carries the first signaller's token, and nobody is about to wait. */
  ghost predicate Alone(s: State, u: Tid, t: Tid) {
    && Inv(s) && u < |s.pc| && t < |s.pc| && s.pc[u].Await? && Free(s.pc[t])
    && s.waitCount != 0 && !s.event && !Pending(s)
    && forall v :: 0 <= v < |s.pc| ==> !s.pc[v].Count?
  }

  lemma Join(start: State, moves: seq<Move>, s: State, t: Tid) returns (longer: seq<Move>, s': State)
    requires Path(start, moves, s) && Books(s) && t < |s.pc| && Free(s.pc[t]) && s.waitCount != 0
    ensures Path(start, longer, s') && Books(s') && s'.pc == s.pc[t := Await(s.pc[t].Inside?, false)]
    ensures s'.event && s'.ack == s.ack && s'.waitCount == s.waitCount
  {
    longer, s' := Advance(start, moves, s, t, CallSignal);
    assert s'.pc == s.pc[t := Test(s.pc[t].Inside?, false)] && s'.waitCount == s.waitCount;
    longer, s' := TestToAwait(start, longer, s', t);
    assert s'.pc == s.pc[t := Await(s.pc[t].Inside?, false)];
  }

  lemma ReadyMerges(start: State, moves: seq<Move>, s: State, u: Tid, t: Tid) returns (longer: seq<Move>, s': State)
    requires Path(start, moves, s) && Ready(s, u, t)
    ensures Path(start, longer, s') && Merged(s', u, t)
  {
    var x :| 0 <= x < |s.pc| && OnTheWay(s.pc[x]);
    assert x in CountedThreads(s);
    longer, s' := Join(start, moves, s, t);
    assert OnTheWay(s'.pc[x]);
    forall v | 0 <= v < |s.pc| && v != u && v != t
      ensures !Signalling(s'.pc[v])
    {
      assert s'.pc[v] == s.pc[v] && Signalling(s.pc[u]);
    }
  }

  lemma AloneCarrier(s: State, u: Tid, t: Tid) returns (w: Tid)
    requires Alone(s, u, t)
    ensures OnlyInFlight(s, w) && s.pc[w].Woken? && CountedThreads(s) == {w} && s.waitCount == 1 && !s.ack
  {
    assert Awaiting(s);
    w :| w in CountedThreads(s);
    assert !OnTheWay(s.pc[w]);
    assert InFlight(s.pc[w]) && !NoneInFlight(s);
    var o :| OnlyInFlight(s, o);
    assert o == w;
    forall v | v in CountedThreads(s)
      ensures v == w
    {
      assert !OnTheWay(s.pc[v]);
      assert InFlight(s.pc[v]);
    }
    assert CountedThreads(s) == {w};
  }

  /** Then nobody is left to take the second event. */
  lemma AloneStrands(start: State, moves: seq<Move>, s: State, u: Tid, t: Tid) returns (longer: seq<Move>, s': State)
    requires Path(start, moves, s) && Alone(s, u, t)
    ensures Path(start, longer, s') && Stranded(s', t)
  {
    var w := AloneCarrier(s, u, t);
    var joined, acked;
    longer, joined := Join(start, moves, s, t);
    longer, acked := Advance(start, longer, joined, w, Go);
    longer, acked := Advance(start, longer, acked, w, Go);
    assert acked.pc == s.pc[t := Await(s.pc[t].Inside?, false)][w := Relock] && acked.ack && acked.waitCount == 0;
    longer, s' := Advance(start, longer, acked, u, Go);
    forall v | 0 <= v < |s.pc| && v != t && v != u && v != w
      ensures s'.pc[v].Outside? || s'.pc[v].Inside? || s'.pc[v].Relock?
    {
      assert s'.pc[v] == s.pc[v];
      assert !Signalling(s.pc[v]) && !InFlight(s.pc[v]) && !OnTheWay(s.pc[v]) && !s.pc[v].Count?;
    }
  }

  // ---- getting there ----

  ghost predicate SignalsWhileCounted(s: State, u: Tid, t: Tid) {
    && Inv(s) && u < |s.pc| && t < |s.pc| && Signalling(s.pc[u]) && Free(s.pc[t])
    && s.waitCount != 0 && forall v :: 0 <= v < |s.pc| ==> !s.pc[v].Count?
  }

  lemma SignallerPosts(start: State, moves: seq<Move>, s: State, u: Tid, t: Tid) returns (longer: seq<Move>, s': State)
    requires Path(start, moves, s) && SignalsWhileCounted(s, u, t) && !s.pc[u].Await?
    ensures Path(start, longer, s') && Ready(s', u, t)
    decreases if s.pc[u].Loop? then 2 else if s.pc[u].Test? then 1 else 0
  {
    longer, s' := Advance(start, moves, s, u, Go);
    InvStep(s, u, Go, s');
    forall v | 0 <= v < |s.pc|
      ensures !s'.pc[v].Count?
    {
      assert v != u ==> s'.pc[v] == s.pc[v];
    }
    if s.pc[u].Post? {
      assert s'.pc[u].Await? && s'.event;
      assert Awaiting(s');
    } else {
      longer, s' := SignallerPosts(start, longer, s', u, t);
    }
  }

  /** While the token is carried, another thread stays on the way. */
  lemma CarrierReturns(start: State, moves: seq<Move>, s: State, u: Tid, t: Tid, w: Tid)
      returns (longer: seq<Move>, s': State)
    requires Path(start, moves, s) && SignalsWhileCounted(s, u, t) && s.pc[u].Await?
    requires OnlyInFlight(s, w) && Pending(s)
    ensures Path(start, longer, s') && Ready(s', u, t)
    decreases if s.pc[w].Woken? then 1 else 0
  {
    var x :| 0 <= x < |s.pc| && OnTheWay(s.pc[x]);
    longer, s' := Advance(start, moves, s, w, Go);
    InvStep(s, w, Go, s');
    assert OnTheWay(s'.pc[x]);
    assert x in CountedThreads(s');
    forall v | 0 <= v < |s.pc|
      ensures !s'.pc[v].Count? && (v != w ==> !InFlight(s'.pc[v]))
    {
      assert v != w ==> s'.pc[v] == s.pc[v];
    }
    if s.pc[w].Woken? {
      longer, s' := CarrierReturns(start, longer, s', u, t, w);
    }
  }

  lemma CountedSignalLoses(start: State, moves: seq<Move>, s: State, u: Tid, t: Tid)
      returns (longer: seq<Move>, s': State)
    requires Path(start, moves, s) && SignalsWhileCounted(s, u, t)
    ensures Path(start, longer, s') && Lost(s', t)
  {
    longer, s' := moves, s;
    if !s.pc[u].Await? {
      longer, s' := SignallerPosts(start, moves, s, u, t);
    } else {
      assert Awaiting(s);
      if NoneInFlight(s) {
        CountedPending(s);
      } else if Pending(s) {
        var w :| OnlyInFlight(s, w);
        longer, s' := CarrierReturns(start, moves, s, u, t, w);
      } else {
        longer, s' := AloneStrands(start, moves, s, u, t);
        return;
      }
    }
    longer, s' := ReadyMerges(start, longer, s', u, t);
    longer, s' := MergedRun(start, longer, s', u, t);
    longer, s' := DrainToDoom(start, longer, s', u, t);
  }

  /** Somebody waits, or is about to. */
  ghost predicate SomebodyWaits(s: State) {
    s.waitCount != 0 || exists v :: 0 <= v < |s.pc| && s.pc[v].Count?
  }

  lemma OverlapLoses(s: State, u: Tid, t: Tid) returns (moves: seq<Move>, s': State)
    requires Inv(s) && u < |s.pc| && t < |s.pc| && Signalling(s.pc[u]) && Free(s.pc[t]) && SomebodyWaits(s)
    ensures Path(s, moves, s') && Lost(s', t)
  {
    moves, s' := [], s;
    if v :| 0 <= v < |s.pc| && s.pc[v].Count? {
      moves, s' := Advance(s, moves, s', v, Go);
      InvStep(s, v, Go, s');
      assert v in CountedThreads(s');
      forall w | 0 <= w < |s.pc|
        ensures !s'.pc[w].Count?
      {
        assert Holds(s.pc[v]) && (w != v ==> !Holds(s.pc[w]));
      }
    }
    moves, s' := CountedSignalLoses(s, moves, s', u, t);
  }

  // ---- and only there ----

  /** Nobody is counted or about to be, and `t` has not posted anything. */
  ghost predicate Uncounted(s: State, t: Tid) {
    && s.waitCount == 0 && t < |s.pc| && !s.pc[t].Post? && !s.pc[t].Await?
    && forall v :: 0 <= v < |s.pc| ==> !s.pc[v].Count? && !Counted(s.pc[v])
  }

  lemma {:induction false} UncountedStays(s: State, t: Tid, moves: seq<Move>)
    requires Uncounted(s, t) && NoNewWaits(moves) && AfterAny(s, moves).Some?
    ensures Uncounted(AfterAny(s, moves).value, t)
    decreases |moves|
  {
    if moves != [] {
      var n := |moves| - 1;
      UncountedStays(s, t, moves[..n]);
      UncountedStep(AfterAny(s, moves[..n]).value, t, moves[n], AfterAny(s, moves).value);
    }
  }

  lemma UncountedStep(s: State, t: Tid, m: Move, s': State)
    requires Uncounted(s, t) && Next(s, m.t, m.a) == Some(s') && m.a != CallWait
    ensures Uncounted(s', t)
  {
    Effects(s, m.t, m.a, s');
    assert !Counted(s'.pc[m.t]) && !s'.pc[m.t].Count?;
    forall v | 0 <= v < |s'.pc|
      ensures !s'.pc[v].Count? && !Counted(s'.pc[v])
    {
      assert v != m.t ==> s'.pc[v] == s.pc[v];
    }
  }

  /** Which overlaps are fatal: while one thread signals, another that calls pthread_cond_signal
      can be left waiting for good, without anybody waiting anew, exactly if somebody waits or is about to. */
  lemma OverlapFatalExactly(s: State, u: Tid, t: Tid)
    requires Inv(s) && u < |s.pc| && t < |s.pc| && Signalling(s.pc[u]) && Free(s.pc[t])
    ensures (exists moves :: NoNewWaits(moves) && AfterAny(s, moves).Some? && Lost(AfterAny(s, moves).value, t))
            <==> SomebodyWaits(s)
  {
    if SomebodyWaits(s) {
      var moves, s' := OverlapLoses(s, u, t);
    } else {
      forall v | 0 <= v < |s.pc|
        ensures !Counted(s.pc[v])
      {
        assert v in CountedThreads(s) ==> |CountedThreads(s)| > 0;
      }
      forall moves | NoNewWaits(moves) && AfterAny(s, moves).Some?
        ensures !Lost(AfterAny(s, moves).value, t)
      {
        UncountedStays(s, t, moves);
      }
    }
  }

  // ---- the smallest case ----

  const START := State([Outside, Outside, Outside], None, 0, false, false)

  /** Thread 0 waits. */
  lemma OneThreadWaits() returns (moves: seq<Move>, s: State)
    ensures AfterAny(START, moves) == Some(s) && |s.pc| == 3
    ensures s.pc[0] == Blocked && s.pc[1] == s.pc[2] == Outside
    ensures s.waitCount == 1 && !s.event && !s.ack
  {
    s := START;
    moves := [];
    moves, s := Extend(START, moves, s, 0, Lock, Inside);
    moves, s := Extend(START, moves, s, 0, CallWait, Count);
    moves, s := Extend(START, moves, s, 0, Go, Release);
    moves, s := Extend(START, moves, s, 0, Go, Blocked);
  }

  /** Two signallers see it counted. */
  lemma BothSeeTheWaiter() returns (moves: seq<Move>, s: State)
    ensures AfterAny(START, moves) == Some(s) && |s.pc| == 3
    ensures s.pc[0] == Blocked && s.pc[1] == s.pc[2] == Post(false, false)
    ensures s.waitCount == 1 && !s.event && !s.ack
  {
    moves, s := OneThreadWaits();
    moves, s := Extend(START, moves, s, 1, CallSignal, Test(false, false));
    moves, s := Extend(START, moves, s, 2, CallSignal, Test(false, false));
    moves, s := Extend(START, moves, s, 1, Go, Post(false, false));
    moves, s := Extend(START, moves, s, 2, Go, Post(false, false));
  }

  /** The waiter takes the first event, and the second signaller posts another. */
  lemma SecondEventPosted() returns (moves: seq<Move>, s: State)
    ensures AfterAny(START, moves) == Some(s) && |s.pc| == 3
    ensures s.pc[0] == Woken && s.pc[1] == s.pc[2] == Await(false, false)
    ensures s.waitCount == 1 && s.event && !s.ack
  {
    moves, s := BothSeeTheWaiter();
    moves, s := Extend(START, moves, s, 1, Go, Await(false, false));
    moves, s := Extend(START, moves, s, 0, Go, Woken);
    moves, s := Extend(START, moves, s, 2, Go, Await(false, false));
  }

  /** IEEE Std 1003.1 lets pthread_cond_signal be called without the mutex. Two such calls
      meeting one waiter strand the second caller. */
  lemma OverlapStrands() returns (moves: seq<Move>)
    ensures Initial(START)
    ensures AfterAny(START, moves).Some? && Stranded(AfterAny(START, moves).value, 2)
  {
    var s;
    moves, s := SecondEventPosted();
    moves, s := Extend(START, moves, s, 0, Go, Acking);
    moves, s := Extend(START, moves, s, 0, Go, Relock);
    moves, s := Extend(START, moves, s, 1, Go, Outside);
  }

  lemma Extend(start: State, moves: seq<Move>, s: State, t: Tid, a: Action, p: Pc)
      returns (longer: seq<Move>, s': State)
    requires AfterAny(start, moves) == Some(s) && t < |s.pc|
    requires Next(s, t, a).Some? && Next(s, t, a).value.pc[t] == p
    ensures AfterAny(start, longer) == Some(s') && Next(s, t, a) == Some(s')
    ensures |s'.pc| == |s.pc| && s'.pc[t] == p && forall u :: 0 <= u < |s.pc| && u != t ==> s'.pc[u] == s.pc[u]
  {
    longer := moves + [Move(t, a)];
    assert longer[..|longer| - 1] == moves;
    s' := Next(s, t, a).value;
    Effects(s, t, a, s');
  }
}
