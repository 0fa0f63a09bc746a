/** Accounting for frames: what the drop and dup counters mean, and what survives of order
    and of key frames. */
module FrameConservation {
  import Arithmetic
  import FrameClock
  import opened Options
  import opened FrameSync
  import opened FrameSyncRuns

  /** Zero when every frame is accounted for: sent + dropped + held back = received + duplicated. */
  function Balance(s: State, received: nat): int {
    |s.sent| + s.nbDrop + s.lastDropped - received - s.nbDup
  }

  predicate WellFormed(s: State) {
    && |s.hist| == 3 && s.lastDropped <= 1
    && (s.last.None? ==> s.hist == [0, 0, 0] && s.lastDropped == 0)
  }

  /** An over-limit burst that finds a held-back frame and no use for it counts it as dropped
      but leaves the flag set, so that the frame will be counted again. */
  predicate CountsTwice(cfg: Config, s: State, f: Frame) {
    Burstful(cfg, s, f) && s.lastDropped != 0 && Decide(cfg, s.nextPts, s.frameNumber, f).nbPrev == 0
  }

  /** The previous frame is never repeated more often than the two together. */
  lemma PrevWithinTotal(cfg: Config, s: State, f: Frame)
    requires f.span >= 0.0
    ensures var p := Decide(cfg, s.nextPts, s.frameNumber, f); p.nbPrev <= p.nb
  {
    var drift := f.syncIpts - s.nextPts as real;
    Arithmetic.RoundEvenMonotone(drift - 0.6, drift + f.span);
  }

  lemma FeedWellFormed(cfg: Config, s: State, f: Frame, accepts: nat)
    requires WellFormed(s) && !Feed(cfg, s, f, accepts).eofOut
    ensures WellFormed(Feed(cfg, s, f, accepts)) && Feed(cfg, s, f, accepts).last.Some?
  {
  }

  /** The counters agree with a decision except in that case. */
  lemma AccountBalance(cfg: Config, s: State, nb: nat, nbPrev: nat, key: bool)
    requires |s.hist| == 3 && s.lastDropped <= 1 && nbPrev <= nb
    ensures var t := Account(cfg, s, nb, nbPrev, Some(key));
      var sending := if OverLimit(cfg, s, nb, nbPrev) then 0 else nb;
      sending + t.nbDrop + t.lastDropped - t.nbDup ==
      s.nbDrop + s.lastDropped + 1 - s.nbDup + Bit(OverLimit(cfg, s, nb, nbPrev) && s.lastDropped != 0 && nbPrev == 0)
  {
  }

  lemma FeedBalance(cfg: Config, s: State, f: Frame, accepts: nat, received: nat)
    requires WellFormed(s) && !s.eofOut && f.span >= 0.0 && !Feed(cfg, s, f, accepts).eofOut
    ensures Balance(Feed(cfg, s, f, accepts), received + 1) == Balance(s, received) + Bit(CountsTwice(cfg, s, f))
  {
    PrevWithinTotal(cfg, s, f);
    var p := Decide(cfg, s.nextPts, s.frameNumber, f);
    AccountBalance(cfg, s.(nextPts := p.nextPts), p.nb, p.nbPrev, f.key);
    SendBalance(Synced(cfg, s, f), Image(f.id, p.duration, f.key),
                if Burstful(cfg, s, f) then 0 else p.nb, p.nbPrev, accepts);
  }

  /** Sending everything changes no counter. */
  lemma SendBalance(s: State, cur: Image, nb: nat, nbPrev: nat, accepts: nat)
    requires !SendAll(s, Some(cur), nb, nbPrev, accepts).eofOut
    ensures var t := SendAll(s, Some(cur), nb, nbPrev, accepts);
      && |t.sent| == |s.sent| + nb && t.nbDrop == s.nbDrop && t.nbDup == s.nbDup && t.lastDropped == s.lastDropped
  {
  }

  /** How often a run hits that case. */
  function TwiceCounted(cfg: Config, s: State, arrivals: seq<Arrival>): nat
    requires |s.hist| == 3
  {
    if arrivals == [] then 0
    else
      var n := |arrivals| - 1;
      TwiceCounted(cfg, s, arrivals[..n]) + Bit(CountsTwice(cfg, Run(cfg, s, arrivals[..n]), arrivals[n].frame))
  }

  ghost predicate Lengthy(arrivals: seq<Arrival>) {
    forall i :: 0 <= i < |arrivals| ==> arrivals[i].frame.span >= 0.0
  }

  lemma StillOpen(cfg: Config, start: State, arrivals: seq<Arrival>)
    requires arrivals != [] && |start.hist| == 3 && !Run(cfg, start, arrivals).eofOut
    ensures var n := |arrivals| - 1;
      var s := Run(cfg, start, arrivals[..n]);
      !s.eofOut && Run(cfg, start, arrivals) == Feed(cfg, s, arrivals[n].frame, arrivals[n].accepts)
  {
  }

  /** For every vsync method a run adds to the balance exactly the number of frames it counts
      twice; without an over-limit burst that is none. */
  lemma {:induction false} BalanceKept(cfg: Config, start: State, arrivals: seq<Arrival>, received: nat)
    requires Lengthy(arrivals) && WellFormed(start)
    ensures var t := Run(cfg, start, arrivals);
      !t.eofOut ==>
        && WellFormed(t)
        && (arrivals != [] ==> t.last.Some?)
        && Balance(t, received + |arrivals|) == Balance(start, received) + TwiceCounted(cfg, start, arrivals)
    decreases |arrivals|
  {
    if arrivals != [] && !Run(cfg, start, arrivals).eofOut {
      var n := |arrivals| - 1;
      var s := Run(cfg, start, arrivals[..n]);
      StillOpen(cfg, start, arrivals);
      BalanceKept(cfg, start, arrivals[..n], received);
      FeedWellFormed(cfg, s, arrivals[n].frame, arrivals[n].accepts);
      FeedBalance(cfg, s, arrivals[n].frame, arrivals[n].accepts, received + n);
    }
  }

  lemma {:induction false} NoBurstNoneTwice(cfg: Config, start: State, arrivals: seq<Arrival>)
    requires |start.hist| == 3 && NoBurst(cfg, start, arrivals)
    ensures TwiceCounted(cfg, start, arrivals) == 0
    decreases |arrivals|
  {
    if arrivals != [] {
      NoBurstNoneTwice(cfg, start, arrivals[..|arrivals| - 1]);
    }
  }

  /** So from the beginning the balance is that number. */
  lemma Conservation(cfg: Config, arrivals: seq<Arrival>)
    requires Lengthy(arrivals)
    ensures var t := Run(cfg, INITIAL, arrivals);
      !t.eofOut ==>
        && WellFormed(t)
        && Balance(t, |arrivals|) == TwiceCounted(cfg, INITIAL, arrivals)
        && (NoBurst(cfg, INITIAL, arrivals) ==> Balance(t, |arrivals|) == 0)
  {
    ConservationFrom(cfg, INITIAL, arrivals);
  }

  lemma ConservationFrom(cfg: Config, start: State, arrivals: seq<Arrival>)
    requires Lengthy(arrivals) && WellFormed(start) && Balance(start, 0) == 0
    ensures var t := Run(cfg, start, arrivals);
      !t.eofOut ==>
        && WellFormed(t)
        && Balance(t, |arrivals|) == TwiceCounted(cfg, start, arrivals)
        && (NoBurst(cfg, start, arrivals) ==> Balance(t, |arrivals|) == 0)
  {
    BalanceKept(cfg, start, arrivals, 0);
    if NoBurst(cfg, start, arrivals) {
      NoBurstNoneTwice(cfg, start, arrivals);
    }
  }

  /** The flush keeps the balance unless it closes over a held-back frame with a zero median,
      which it counts in two places, or over a median beyond the limit. */
  lemma FlushBalance(cfg: Config, s: State, accepts: nat, received: nat)
    requires WellFormed(s) && !s.eofOut && !Flush(cfg, s, accepts).eofOut
    ensures var m := Arithmetic.Median3(s.hist[0], s.hist[1], s.hist[2]);
      (Balance(Flush(cfg, s, accepts), received) == Balance(s, received)) <==>
      (!s.gotFrame || !((m == 0 && s.lastDropped != 0) || OverLimit(cfg, AtEof(s), m, m)))
  {
  }

  // ---- order, and the frames that never leave ----

  ghost function UnsentIds(sent: seq<Sent>, received: nat): set<nat> {
    set k: nat | k < received && !IsSent(sent, k)
  }

  ghost predicate IsSent(sent: seq<Sent>, id: nat) {
    exists j :: 0 <= j < |sent| && sent[j].id == id
  }

  /** Frames numbered in order of arrival. */
  ghost predicate Numbered(arrivals: seq<Arrival>) {
    forall i :: 0 <= i < |arrivals| ==> arrivals[i].frame.id == i
  }

  ghost predicate InOrder(s: State, received: nat) {
    && (forall i, j :: 0 <= i < j < |s.sent| ==> s.sent[i].id <= s.sent[j].id)
    && (forall i :: 0 <= i < |s.sent| ==> s.sent[i].id < received)
    && (s.last.Some? ==> received > 0 && s.last.value.id == received - 1)
  }

  lemma SendInOrder(s: State, cur: Option<Image>, nb: nat, nbPrev: nat, accepts: nat, received: nat)
    requires InOrder(s, received) && (cur.Some? ==> cur.value.id == received)
    ensures var t := SendAll(s, cur, nb, nbPrev, accepts);
      && (forall i, j :: 0 <= i < j < |t.sent| ==> t.sent[i].id <= t.sent[j].id)
      && (forall i :: 0 <= i < |t.sent| ==> t.sent[i].id < received + Bit(cur.Some?))
  {
    var k := Arithmetic.Min(Copies(s.last, cur, nb, nbPrev), accepts);
    forall j | 0 <= j < k
      ensures Burst(s.last, cur, s.nextPts, s.droppedKeyframe, nbPrev, k)[j].id
           == Source(s.last, cur, nbPrev, j).value.id
    {
      BurstAt(s.last, cur, s.nextPts, s.droppedKeyframe, nbPrev, k, j);
    }
  }

  lemma FeedInOrder(cfg: Config, s: State, f: Frame, accepts: nat, n: nat)
    requires |s.hist| == 3 && !s.eofOut && InOrder(s, n) && f.id == n
    ensures var t := Feed(cfg, s, f, accepts);
      && (forall i, j :: 0 <= i < j < |t.sent| ==> t.sent[i].id <= t.sent[j].id)
      && (forall i :: 0 <= i < |t.sent| ==> t.sent[i].id <= n)
      && (!t.eofOut ==> InOrder(t, n + 1))
  {
    var p := Decide(cfg, s.nextPts, s.frameNumber, f);
    SendInOrder(Synced(cfg, s, f), Some(Image(f.id, p.duration, f.key)),
                if Burstful(cfg, s, f) then 0 else p.nb, p.nbPrev, accepts, n);
  }

  /** Copies leave in the order in which their frames arrived. */
  lemma {:induction false} SentInOrder(cfg: Config, arrivals: seq<Arrival>)
    requires Numbered(arrivals)
    ensures var t := Run(cfg, INITIAL, arrivals);
      && (forall i, j :: 0 <= i < j < |t.sent| ==> t.sent[i].id <= t.sent[j].id)
      && (forall i :: 0 <= i < |t.sent| ==> t.sent[i].id < |arrivals|)
      && (!t.eofOut ==> InOrder(t, |arrivals|))
  {
    if arrivals != [] {
      var n := |arrivals| - 1;
      SentInOrder(cfg, arrivals[..n]);
      var s := Run(cfg, INITIAL, arrivals[..n]);
      if !s.eofOut {
        FeedInOrder(cfg, s, arrivals[n].frame, arrivals[n].accepts, n);
      }
    }
  }

  /** What a burst adds: the previous frame when it is repeated, the current one when there
      are more copies than that. */
  lemma SentIdsAfter(s: State, cur: Image, nb: nat, nbPrev: nat, accepts: nat, id: nat)
    requires nbPrev <= nb <= accepts
    ensures var t := SendAll(s, Some(cur), nb, nbPrev, accepts);
      IsSent(t.sent, id) <==>
        || IsSent(s.sent, id)
        || (s.last.Some? && nbPrev > 0 && id == s.last.value.id)
        || ((nb > nbPrev || (s.last.None? && nb > 0)) && id == cur.id)
  {
    var b := Burst(s.last, Some(cur), s.nextPts, s.droppedKeyframe, nbPrev, nb);
    var t := SendAll(s, Some(cur), nb, nbPrev, accepts);
    forall j | 0 <= j < nb
      ensures b[j].id == if j < nbPrev && s.last.Some? then s.last.value.id else cur.id
    {
      BurstAt(s.last, Some(cur), s.nextPts, s.droppedKeyframe, nbPrev, nb, j);
    }
    assert t.sent == s.sent + b;
    if IsSent(s.sent, id) {
      var j :| 0 <= j < |s.sent| && s.sent[j].id == id;
      assert t.sent[j].id == id;
    }
    if nb > 0 {
      assert t.sent[|s.sent|] == b[0];
      assert t.sent[|s.sent| + nb - 1] == b[nb - 1];
    }
    if IsSent(t.sent, id) {
      var j :| 0 <= j < |t.sent| && t.sent[j].id == id;
      assert j < |s.sent| ==> s.sent[j].id == id;
      assert j >= |s.sent| ==> t.sent[j] == b[j - |s.sent|];
    }
  }

  /** The frame is not asked to stand in for a previous one only. */
  predicate RepeatsNothing(cfg: Config, s: State, f: Frame) {
    var p := Decide(cfg, s.nextPts, s.frameNumber, f);
    p.nb > p.nbPrev || p.nb == 0
  }

  predicate FirstRepeatsNothing(cfg: Config, arrivals: seq<Arrival>) {
    arrivals == [] || RepeatsNothing(cfg, INITIAL, arrivals[0].frame)
  }

  /** The second frame calls for the first one again. */
  predicate SecondRepeats(cfg: Config, arrivals: seq<Arrival>) {
    && |arrivals| > 1
    && var s := Run(cfg, INITIAL, arrivals[..1]);
       Decide(cfg, s.nextPts, s.frameNumber, arrivals[1].frame).nbPrev > 0
  }

  /** The drop counter and the held-back flag exceed the number of unsent frames by `error`. */
  ghost predicate OffBy(s: State, received: nat, error: nat) {
    && |UnsentIds(s.sent, received)| + error == s.nbDrop + s.lastDropped
    && (received > 0 ==> (s.lastDropped != 0 <==> !IsSent(s.sent, received - 1)))
  }

  /** The only frame so far was sent in place of the previous one it does not have, and yet
      is held back. */
  ghost predicate Misled(s: State, received: nat) {
    && received == 1 && UnsentIds(s.sent, 1) == {} && IsSent(s.sent, 0)
    && s.nbDrop == 0 && s.lastDropped == 1
  }

  ghost predicate Orderly(s: State, n: nat) {
    WellFormed(s) && InOrder(s, n) && (s.last.Some? <==> n > 0)
  }

  function DropError(cfg: Config, arrivals: seq<Arrival>): nat {
    Bit(!FirstRepeatsNothing(cfg, arrivals) && !SecondRepeats(cfg, arrivals))
  }

  /** Without an over-limit burst the drop counter and the held-back flag together count the
      frames that were never sent, exactly if the first frame does not repeat a previous one it
      does not have, or the second one repeats the first. */
  lemma DropCounterExact(cfg: Config, arrivals: seq<Arrival>)
    requires Lengthy(arrivals) && Numbered(arrivals)
    ensures var t := Run(cfg, INITIAL, arrivals);
      NoBurst(cfg, INITIAL, arrivals) && !t.eofOut ==>
        (|UnsentIds(t.sent, |arrivals|)| == t.nbDrop + t.lastDropped <==>
         FirstRepeatsNothing(cfg, arrivals) || SecondRepeats(cfg, arrivals))
  {
    DropCounterOff(cfg, arrivals);
  }

  /** No over-limit burst, and no send was refused. */
  predicate Smooth(cfg: Config, arrivals: seq<Arrival>) {
    NoBurst(cfg, INITIAL, arrivals) && !Run(cfg, INITIAL, arrivals).eofOut
  }

  /** By how much they are off, and that the flag tells whether the last frame was sent. */
  lemma {:induction false} DropCounterOff(cfg: Config, arrivals: seq<Arrival>)
    requires Lengthy(arrivals) && Numbered(arrivals)
    ensures var t := Run(cfg, INITIAL, arrivals);
      Smooth(cfg, arrivals) ==>
        && Orderly(t, |arrivals|)
        && if |arrivals| == 1 && DropError(cfg, arrivals) == 1 then Misled(t, 1)
           else OffBy(t, |arrivals|, DropError(cfg, arrivals))
    decreases |arrivals|
  {
    if arrivals == [] {
      assert UnsentIds([], 0) == {};
    } else if Smooth(cfg, arrivals) {
      var n := |arrivals| - 1;
      var last := arrivals[n];
      LastFed(cfg, arrivals);
      DropCounterOff(cfg, arrivals[..n]);
      DropErrorKept(cfg, arrivals);
      DropStep(cfg, arrivals, Run(cfg, INITIAL, arrivals[..n]), last.frame, last.accepts, n);
    }
  }

  /** What the hypotheses about a run say about its last frame. */
  lemma LastFed(cfg: Config, arrivals: seq<Arrival>)
    requires arrivals != [] && Lengthy(arrivals) && Numbered(arrivals)
    ensures var n, last := |arrivals| - 1, arrivals[|arrivals| - 1];
      var s := Run(cfg, INITIAL, arrivals[..n]);
      && Run(cfg, INITIAL, arrivals) == Feed(cfg, s, last.frame, last.accepts)
      && Lengthy(arrivals[..n]) && Numbered(arrivals[..n])
      && last.frame.span >= 0.0 && last.frame.id == n
      && (Smooth(cfg, arrivals) ==> Smooth(cfg, arrivals[..n]) && !s.eofOut && !Burstful(cfg, s, last.frame))
  {
  }

  lemma DropErrorKept(cfg: Config, arrivals: seq<Arrival>)
    requires arrivals != []
    ensures |arrivals| > 2 ==> DropError(cfg, arrivals) == DropError(cfg, arrivals[..|arrivals| - 1])
    ensures |arrivals| == 2 ==>
              FirstRepeatsNothing(cfg, arrivals) == FirstRepeatsNothing(cfg, arrivals[..1])
              && !SecondRepeats(cfg, arrivals[..1])
  {
    var init := arrivals[..|arrivals| - 1];
    if |arrivals| > 1 {
      assert init[0] == arrivals[0];
    }
    if |arrivals| > 2 {
      assert init[1] == arrivals[1] && init[..1] == arrivals[..1];
    }
  }

  /** The last frame of `arrivals`, fed in state `s`. */
  lemma DropStep(cfg: Config, arrivals: seq<Arrival>, s: State, f: Frame, accepts: nat, n: nat)
    requires |arrivals| == n + 1 && s == Run(cfg, INITIAL, arrivals[..n]) && f == arrivals[n].frame
    requires Orderly(s, n) && !s.eofOut && f.span >= 0.0 && !Burstful(cfg, s, f) && f.id == n
    requires !Feed(cfg, s, f, accepts).eofOut
    requires if n == 1 && DropError(cfg, arrivals[..n]) == 1 then Misled(s, 1)
             else OffBy(s, n, DropError(cfg, arrivals[..n]))
    requires n > 1 ==> DropError(cfg, arrivals) == DropError(cfg, arrivals[..n])
    requires n == 1 ==> FirstRepeatsNothing(cfg, arrivals) == FirstRepeatsNothing(cfg, arrivals[..1])
                        && !SecondRepeats(cfg, arrivals[..1])
    ensures Orderly(Feed(cfg, s, f, accepts), n + 1)
    ensures if n == 0 && DropError(cfg, arrivals) == 1 then Misled(Feed(cfg, s, f, accepts), 1)
            else OffBy(Feed(cfg, s, f, accepts), n + 1, DropError(cfg, arrivals))
  {
    FeedWellFormed(cfg, s, f, accepts);
    FeedInOrder(cfg, s, f, accepts, n);
    if n == 0 && !RepeatsNothing(cfg, s, f) {
      FirstMisleads(cfg, s, f, accepts);
    } else if n == 1 && DropError(cfg, arrivals[..n]) == 1 {
      MisledStep(cfg, s, f, accepts);
    } else {
      CountersStep(cfg, s, f, accepts, n, DropError(cfg, arrivals[..n]));
    }
  }

  /** What one frame adds to the ids sent. */
  lemma NewlySent(cfg: Config, s: State, f: Frame, accepts: nat, n: nat, id: nat)
    requires |s.hist| == 3 && !s.eofOut && f.span >= 0.0 && !Burstful(cfg, s, f) && f.id == n
    requires !Feed(cfg, s, f, accepts).eofOut && (s.last.Some? <==> n > 0) && InOrder(s, n)
    ensures var p := Decide(cfg, s.nextPts, s.frameNumber, f);
      IsSent(Feed(cfg, s, f, accepts).sent, id) <==>
        || IsSent(s.sent, id)
        || (n > 0 && p.nbPrev > 0 && id == n - 1)
        || ((p.nb > p.nbPrev || (n == 0 && p.nb > 0)) && id == n)
  {
    PrevWithinTotal(cfg, s, f);
    var p := Decide(cfg, s.nextPts, s.frameNumber, f);
    SentIdsAfter(Synced(cfg, s, f), Image(f.id, p.duration, f.key), p.nb, p.nbPrev, accepts, id);
  }

  /** What matters of the initial state. */
  predicate Untouched(s: State) {
    && |s.hist| == 3 && s.sent == [] && s.last.None? && !s.eofOut
    && s.lastDropped == 0 && s.nbDrop == 0 && s.nextPts == 0 && s.frameNumber == 0
  }

  lemma FirstMisleads(cfg: Config, s: State, f: Frame, accepts: nat)
    requires Untouched(s) && f.span >= 0.0 && !Burstful(cfg, s, f) && f.id == 0
    requires !Feed(cfg, s, f, accepts).eofOut && !RepeatsNothing(cfg, s, f)
    ensures Misled(Feed(cfg, s, f, accepts), 1)
  {
    PrevWithinTotal(cfg, s, f);
    NewlySent(cfg, s, f, accepts, 0, 0);
  }

  lemma MisledStep(cfg: Config, s: State, f: Frame, accepts: nat)
    requires Misled(s, 1) && Orderly(s, 1) && !s.eofOut && f.span >= 0.0 && !Burstful(cfg, s, f) && f.id == 1
    requires !Feed(cfg, s, f, accepts).eofOut
    ensures OffBy(Feed(cfg, s, f, accepts), 2, Bit(Decide(cfg, s.nextPts, s.frameNumber, f).nbPrev == 0))
  {
    PrevWithinTotal(cfg, s, f);
    var own := Decide(cfg, s.nextPts, s.frameNumber, f).nb > Decide(cfg, s.nextPts, s.frameNumber, f).nbPrev;
    var t := Feed(cfg, s, f, accepts);
    NewlySent(cfg, s, f, accepts, 1, 0);
    NewlySent(cfg, s, f, accepts, 1, 1);
    assert !IsSent(s.sent, 1);
    assert UnsentIds(t.sent, 2) == if own then {} else {1};
  }

  lemma CountersStep(cfg: Config, s: State, f: Frame, accepts: nat, n: nat, error: nat)
    requires Orderly(s, n) && !s.eofOut && f.span >= 0.0 && !Burstful(cfg, s, f) && f.id == n
    requires !Feed(cfg, s, f, accepts).eofOut
    requires OffBy(s, n, error) && (n == 0 ==> RepeatsNothing(cfg, s, f))
    ensures OffBy(Feed(cfg, s, f, accepts), n + 1, error)
  {
    PrevWithinTotal(cfg, s, f);
    var p := Decide(cfg, s.nextPts, s.frameNumber, f);
    var t := Feed(cfg, s, f, accepts);
    var again := n > 0 && p.nbPrev > 0;
    var own := p.nb > p.nbPrev;
    forall id: nat
      ensures IsSent(t.sent, id) <==> IsSent(s.sent, id) || (again && id == n - 1) || (own && id == n)
    {
      NewlySent(cfg, s, f, accepts, n, id);
    }
    UnsentAfter(s.sent, t.sent, n, again, own);
    assert t.nbDrop + t.lastDropped ==
      s.nbDrop + s.lastDropped - Bit(again && s.lastDropped != 0) + Bit(!own);
  }

  /** The position of a first frame that is a fifth of a tick late, as the sync code computes
      it. */
  const A_FIFTH_LATE := 157287.0 / 131072.0

  lemma AFifthLate()
    ensures FrameClock.SyncIpts(78643, Arithmetic.Rational(1, 65536), Arithmetic.Rational(1, 1), 0, 16) == A_FIFTH_LATE
  {
    FrameClock.OneTickBase(78643);
    assert A_FIFTH_LATE == 78643.0 / 65536.0 + FrameClock.NUDGE;
  }

  /** Such a frame of little length is sent for want of a previous one, yet held back, and never
      known to have been sent. */
  lemma FirstFrameMiscounted(cfg: Config, s: State, f: Frame, accepts: nat)
    requires cfg.vsync == Cfr && cfg.dupLimit >= 1.0 && accepts > 0 && Untouched(s)
    requires f.id == 0 && f.syncIpts == A_FIFTH_LATE && 0.0 <= f.span <= 0.2
    ensures !Burstful(cfg, s, f) && Misled(Feed(cfg, s, f, accepts), 1)
  {
    LatePlan(cfg, f);
    SentOnce(cfg, s, f, accepts);
    FirstMisleads(cfg, s, f, accepts);
  }

  lemma LatePlan(cfg: Config, f: Frame)
    requires cfg.vsync == Cfr && f.syncIpts == A_FIFTH_LATE && 0.0 <= f.span <= 0.2
    ensures Decide(cfg, 0, 0, f) == Plan(1, 1, 0, 1)
  {
    assert 1.2 <= A_FIFTH_LATE <= 1.2001;
    assert Arithmetic.RoundEven(A_FIFTH_LATE + f.span) == 1 && Arithmetic.RoundEven(A_FIFTH_LATE - 0.6) == 1;
  }

  lemma SentOnce(cfg: Config, s: State, f: Frame, accepts: nat)
    requires |s.hist| == 3 && !s.eofOut && cfg.dupLimit >= 1.0 && accepts > 0
    requires Decide(cfg, s.nextPts, s.frameNumber, f).nb == 1
    ensures !Burstful(cfg, s, f) && !Feed(cfg, s, f, accepts).eofOut
  {
  }

  /** Bringing back the previous id takes it out of the unsent ones; the current id joins
      them unless it is sent. */
  lemma UnsentAfter(sent: seq<Sent>, sent': seq<Sent>, n: nat, again: bool, own: bool)
    requires again ==> n > 0
    requires forall i :: 0 <= i < |sent| ==> sent[i].id < n
    requires forall id: nat ::
      IsSent(sent', id) <==> IsSent(sent, id) || (again && id == n - 1) || (own && id == n)
    ensures |UnsentIds(sent', n + 1)| ==
      |UnsentIds(sent, n)| - Bit(again && !IsSent(sent, n - 1)) + Bit(!own)
    ensures IsSent(sent', n) <==> own
  {
    var was := UnsentIds(sent, n);
    var kept := if again then was - {n - 1} else was;
    assert again && !IsSent(sent, n - 1) ==> n - 1 in was;
    NewUnsent(sent, sent', n, again, own, kept);
  }

  lemma NewUnsent(sent: seq<Sent>, sent': seq<Sent>, n: nat, again: bool, own: bool, kept: set<nat>)
    requires again ==> n > 0
    requires forall i :: 0 <= i < |sent| ==> sent[i].id < n
    requires forall id: nat ::
      IsSent(sent', id) <==> IsSent(sent, id) || (again && id == n - 1) || (own && id == n)
    requires kept == if again then UnsentIds(sent, n) - {n - 1} else UnsentIds(sent, n)
    ensures UnsentIds(sent', n + 1) == if own then kept else kept + {n}
    ensures n !in kept && !IsSent(sent, n)
  {
    assert !IsSent(sent, n);
    forall k: nat
      ensures k in UnsentIds(sent', n + 1) <==> k in kept || (!own && k == n)
    {
      assert k in UnsentIds(sent, n) <==> k < n && !IsSent(sent, k);
      assert k in UnsentIds(sent', n + 1) <==> k <= n && !IsSent(sent', k);
    }
  }

  // ---- key frames ----

  /** The mark of a key frame that was fed after `from` copies had been sent is either on a
      later copy or waiting for the next one. */
  ghost predicate KeyCarried(s: State, from: nat) {
    s.droppedKeyframe || exists j :: from <= j < |s.sent| && s.sent[j].key
  }

  /** Some copy of the burst bears a pending mark, the previous frame's or the current one's. */
  predicate KeyDue(last: Option<Image>, cur: Image, boost: bool, nb: nat, nbPrev: nat) {
    var repeated := if last.Some? then last.value.key else cur.key;
    nb > 0 && (boost || (nbPrev > 0 && repeated) || (nb > nbPrev && cur.key))
  }

  lemma BurstKeys(last: Option<Image>, cur: Image, pts: int, boost: bool, nb: nat, nbPrev: nat)
    requires nbPrev <= nb
    ensures var b := Burst(last, Some(cur), pts, boost, nbPrev, nb);
      |b| == nb && ((exists j :: 0 <= j < |b| && b[j].key) <==> KeyDue(last, cur, boost, nb, nbPrev))
  {
    var b := Burst(last, Some(cur), pts, boost, nbPrev, nb);
    forall j | 0 <= j < nb
      ensures b[j].key == (Source(last, Some(cur), nbPrev, j).value.key || (j == 0 && boost))
    {
      BurstAt(last, Some(cur), pts, boost, nbPrev, nb, j);
    }
    if j :| 0 <= j < |b| && b[j].key {
      assert KeyDue(last, cur, boost, nb, nbPrev);
    }
    if KeyDue(last, cur, boost, nb, nbPrev) {
      assert b[0].key || b[nbPrev].key;
    }
  }

  lemma KeysBehind(front: seq<Sent>, back: seq<Sent>)
    ensures (exists j :: |front| <= j < |front + back| && (front + back)[j].key) <==>
            (exists j :: 0 <= j < |back| && back[j].key)
  {
    if j :| 0 <= j < |back| && back[j].key {
      assert (front + back)[|front| + j].key;
    }
    if j :| |front| <= j < |front + back| && (front + back)[j].key {
      assert back[j - |front|].key;
    }
  }

  lemma KeyCopies(s: State, cur: Image, nb: nat, nbPrev: nat, accepts: nat)
    requires nbPrev <= nb <= accepts
    ensures var t := SendAll(s, Some(cur), nb, nbPrev, accepts);
      && |t.sent| == |s.sent| + nb && t.sent[..|s.sent|] == s.sent
      && t.droppedKeyframe == (s.droppedKeyframe && nb == 0)
      && ((exists j :: |s.sent| <= j < |t.sent| && t.sent[j].key) <==>
          KeyDue(s.last, cur, s.droppedKeyframe, nb, nbPrev))
  {
    var b := Burst(s.last, Some(cur), s.nextPts, s.droppedKeyframe, nbPrev, nb);
    assert SendAll(s, Some(cur), nb, nbPrev, accepts).sent == s.sent + b;
    BurstKeys(s.last, cur, s.nextPts, s.droppedKeyframe, nb, nbPrev);
    KeysBehind(s.sent, b);
  }

  /** The frame puts a mark on a copy, or leaves one pending: its own, or one that the previous
      frame still bears. */
  predicate Marks(cfg: Config, s: State, f: Frame) {
    && !Burstful(cfg, s, f)
    && (f.key || (s.last.Some? && s.last.value.key && Decide(cfg, s.nextPts, s.frameNumber, f).nbPrev > 0))
  }

  /** Exactly what one frame does to the marks. A mark once carried stays. */
  lemma MarkStep(cfg: Config, s: State, f: Frame, accepts: nat, from: nat)
    requires |s.hist| == 3 && !s.eofOut && f.span >= 0.0
    requires !Feed(cfg, s, f, accepts).eofOut && from <= |s.sent|
    ensures |s.sent| <= |Feed(cfg, s, f, accepts).sent|
    ensures KeyCarried(Feed(cfg, s, f, accepts), from) <==> KeyCarried(s, from) || Marks(cfg, s, f)
  {
    PrevWithinTotal(cfg, s, f);
    var p := Decide(cfg, s.nextPts, s.frameNumber, f);
    var t := Feed(cfg, s, f, accepts);
    var synced, cur := Synced(cfg, s, f), Image(f.id, p.duration, f.key);
    if Burstful(cfg, s, f) {
      NoCopies(synced, cur, p.nbPrev, accepts);
    } else {
      KeyCopies(synced, cur, p.nb, p.nbPrev, accepts);
    }
    MarksAdd(s, t, from);
  }

  lemma NoCopies(s: State, cur: Image, nbPrev: nat, accepts: nat)
    ensures var t := SendAll(s, Some(cur), 0, nbPrev, accepts);
      t.sent == s.sent && t.droppedKeyframe == s.droppedKeyframe
  {
  }

  lemma MarksAdd(s: State, t: State, from: nat)
    requires from <= |s.sent| <= |t.sent| && t.sent[..|s.sent|] == s.sent
    ensures (exists j :: from <= j < |t.sent| && t.sent[j].key) <==>
            || (exists j :: from <= j < |s.sent| && s.sent[j].key)
            || (exists j :: |s.sent| <= j < |t.sent| && t.sent[j].key)
  {
    assert forall j :: 0 <= j < |s.sent| ==> t.sent[j] == s.sent[j];
    if j :| from <= j < |s.sent| && s.sent[j].key {
      assert t.sent[j].key;
    }
  }

  /** The mark of frame k is carried from where it was fed. */
  ghost predicate KeyFrom(cfg: Config, start: State, arrivals: seq<Arrival>, k: nat)
    requires k <= |arrivals| && |start.hist| == 3
  {
    CarriedFrom(Run(cfg, start, arrivals), |Run(cfg, start, arrivals[..k]).sent|)
  }

  ghost predicate CarriedFrom(s: State, from: nat) { from <= |s.sent| && KeyCarried(s, from) }

  /** Some frame of the run from k on marks. */
  predicate Marked(cfg: Config, start: State, arrivals: seq<Arrival>, k: nat)
    requires |start.hist| == 3
    decreases |arrivals|
  {
    k < |arrivals| &&
    var n := |arrivals| - 1;
    Marked(cfg, start, arrivals[..n], k) || Marks(cfg, Run(cfg, start, arrivals[..n]), arrivals[n].frame)
  }

  /** From any state, there is a mark at or behind frame k, or pending, exactly if one was
      pending before it or some frame from it on marks. */
  lemma {:induction false} KeyFromExactly(cfg: Config, start: State, arrivals: seq<Arrival>, k: nat)
    requires Lengthy(arrivals) && k <= |arrivals| && |start.hist| == 3
    ensures !Run(cfg, start, arrivals).eofOut ==>
              (KeyFrom(cfg, start, arrivals, k) <==>
               Run(cfg, start, arrivals[..k]).droppedKeyframe || Marked(cfg, start, arrivals, k))
    decreases |arrivals|
  {
    if !Run(cfg, start, arrivals).eofOut {
      if k == |arrivals| {
        assert arrivals[..k] == arrivals;
      } else {
        var n := |arrivals| - 1;
        assert arrivals[..n][..k] == arrivals[..k];
        StillOpen(cfg, start, arrivals);
        KeyFromExactly(cfg, start, arrivals[..n], k);
        KeyFromGrows(cfg, start, arrivals, k);
      }
    }
  }

  /** What the last frame adds. */
  lemma KeyFromGrows(cfg: Config, start: State, arrivals: seq<Arrival>, k: nat)
    requires Lengthy(arrivals) && k < |arrivals| && |start.hist| == 3 && !Run(cfg, start, arrivals).eofOut
    ensures var n := |arrivals| - 1;
      KeyFrom(cfg, start, arrivals, k) <==>
      KeyFrom(cfg, start, arrivals[..n], k) || Marks(cfg, Run(cfg, start, arrivals[..n]), arrivals[n].frame)
  {
    var n := |arrivals| - 1;
    assert arrivals[..n][..k] == arrivals[..k];
    StillOpen(cfg, start, arrivals);
    SentGrows(cfg, start, arrivals[..n], k);
    CarriedOn(cfg, Run(cfg, start, arrivals[..n]), arrivals[n], Run(cfg, start, arrivals),
              |Run(cfg, start, arrivals[..k]).sent|);
  }

  lemma CarriedOn(cfg: Config, s: State, a: Arrival, t: State, from: nat)
    requires |s.hist| == 3 && !s.eofOut && a.frame.span >= 0.0
    requires t == Feed(cfg, s, a.frame, a.accepts) && !t.eofOut && from <= |s.sent|
    ensures CarriedFrom(t, from) <==> CarriedFrom(s, from) || Marks(cfg, s, a.frame)
  {
    MarkStep(cfg, s, a.frame, a.accepts, from);
  }

  lemma {:induction false} SentGrows(cfg: Config, start: State, arrivals: seq<Arrival>, k: nat)
    requires Lengthy(arrivals) && k <= |arrivals| && |start.hist| == 3 && !Run(cfg, start, arrivals).eofOut
    ensures |Run(cfg, start, arrivals[..k]).sent| <= |Run(cfg, start, arrivals).sent|
    decreases |arrivals|
  {
    if k == |arrivals| {
      assert arrivals[..k] == arrivals;
    } else {
      var n := |arrivals| - 1;
      var s := Run(cfg, start, arrivals[..n]);
      assert arrivals[..n][..k] == arrivals[..k];
      SentGrows(cfg, start, arrivals[..n], k);
      MarkStep(cfg, s, arrivals[n].frame, arrivals[n].accepts, |s.sent|);
    }
  }

  lemma {:induction false} MarksFrom(cfg: Config, start: State, arrivals: seq<Arrival>, k: nat)
    requires k < |arrivals| && |start.hist| == 3
    requires Marks(cfg, Run(cfg, start, arrivals[..k]), arrivals[k].frame)
    ensures Marked(cfg, start, arrivals, k)
    decreases |arrivals|
  {
    if k < |arrivals| - 1 {
      assert arrivals[..|arrivals| - 1][..k] == arrivals[..k];
      MarksFrom(cfg, start, arrivals[..|arrivals| - 1], k);
    }
  }

  /** A key frame is not lost unless it is over the limit itself: its mark reaches a frame sent
      no earlier than itself, or is still pending when the run ends. */
  lemma KeyframesSurvive(cfg: Config, start: State, arrivals: seq<Arrival>, k: nat)
    requires Lengthy(arrivals) && k < |arrivals| && |start.hist| == 3 && arrivals[k].frame.key
    ensures var s := Run(cfg, start, arrivals[..k]);
      !Run(cfg, start, arrivals).eofOut && (s.droppedKeyframe || !Burstful(cfg, s, arrivals[k].frame)) ==>
        KeyFrom(cfg, start, arrivals, k)
  {
    KeyFromExactly(cfg, start, arrivals, k);
    if !Burstful(cfg, Run(cfg, start, arrivals[..k]), arrivals[k].frame) {
      MarksFrom(cfg, start, arrivals, k);
    }
  }

  /** For the frame itself that is exact. */
  lemma KeyframeCarriedExactly(cfg: Config, s: State, f: Frame, accepts: nat)
    requires |s.hist| == 3 && !s.eofOut && f.span >= 0.0 && f.key && !Feed(cfg, s, f, accepts).eofOut
    ensures KeyCarried(Feed(cfg, s, f, accepts), |s.sent|) <==> !Burstful(cfg, s, f) || s.droppedKeyframe
  {
    MarkStep(cfg, s, f, accepts, |s.sent|);
  }

  // ---- where the accounting breaks ----

  /** A frame that ends more than 1.1 ticks before the output's clock is held back. */
  lemma LateFrameHeldBack(cfg: Config, s: State, f: Frame, accepts: nat)
    requires ConstantOutputRate(cfg) && |s.hist| == 3 && !s.eofOut && s.frameNumber > 0
    requires f.span >= 0.0 && End(f) - s.nextPts as real < -1.1
    ensures var t := Feed(cfg, s, f, accepts);
      && t.lastDropped == 1 && t.nbDrop == s.nbDrop + Bit(s.lastDropped != 0)
      && t.sent == s.sent && t.nbDup == s.nbDup && t.hist == [0] + s.hist[..2]
      && t.eofOut == s.eofOut && t.gotFrame == s.gotFrame && t.last.Some?
  {
    assert Decide(cfg, s.nextPts, s.frameNumber, f).nb == 0;
  }

  /** Closing over a held-back frame with a zero median counts it in two places. */
  lemma FlushCountsTwice(cfg: Config, s: State, accepts: nat, received: nat)
    requires |s.hist| == 3 && !s.eofOut && s.gotFrame && s.lastDropped == 1
    requires Arithmetic.Median3(s.hist[0], s.hist[1], s.hist[2]) == 0 && cfg.dupLimit >= 0.0
    ensures Flush(cfg, s, accepts).nbDrop == s.nbDrop + 2
    ensures Balance(Flush(cfg, s, accepts), received) == Balance(s, received) + 1
  {
    var e := AtEof(s);
    assert e.nbDrop == s.nbDrop + 1 && e.lastDropped == 2;
    assert !OverLimit(cfg, e, 0, 0);
    var t := Account(cfg, e, 0, 0, None);
    assert t.nbDrop == s.nbDrop + 2 && t.lastDropped == 0;
  }

  /** So does every run whose last frame is that late, after two that repeated nothing. */
  lemma LateEndCountsTwice(cfg: Config, s: State, f: Frame, accepts: nat, received: nat)
    requires ConstantOutputRate(cfg) && cfg.dupLimit >= 0.0
    requires WellFormed(s) && !s.eofOut && s.gotFrame && s.frameNumber > 0 && s.hist[0] == s.hist[1] == 0
    requires f.span >= 0.0 && End(f) - s.nextPts as real < -1.1
    ensures var t := Feed(cfg, s, f, accepts);
      && Balance(t, received + 1) == Balance(s, received)
      && Balance(Flush(cfg, t, accepts), received + 1) == Balance(s, received) + 1
  {
    LateFrameHeldBack(cfg, s, f, accepts);
    var t := Feed(cfg, s, f, accepts);
    assert t.hist[0] == 0 && t.hist[1] == 0;
    FlushCountsTwice(cfg, t, accepts, received + 1);
  }

  /** A frame beyond the limit, right on the output's clock, is skipped; a frame held back
      before it is counted with it but not forgotten. */
  lemma BurstCountsTwice(cfg: Config, s: State, f: Frame, accepts: nat, received: nat)
    requires ConstantOutputRate(cfg) && cfg.dropThreshold == 0.0 && cfg.dupLimit >= 1.0
    requires WellFormed(s) && !s.eofOut && s.lastDropped == 1 && s.frameNumber > 0
    requires f.syncIpts == s.nextPts as real && f.span >= cfg.dupLimit + 1.0
    ensures CountsTwice(cfg, s, f)
    ensures Balance(Feed(cfg, s, f, accepts), received + 1) == Balance(s, received) + 1
  {
    assert Decide(cfg, s.nextPts, s.frameNumber, f) == Plan(Arithmetic.RoundEven(f.span), 0, s.nextPts, 1);
    assert Arithmetic.RoundEven(f.span) as real > cfg.dupLimit;
    FeedBalance(cfg, s, f, accepts, received);
  }

  /** A key frame beyond the limit, right on the output's clock, and a frame of one tick right
      behind it: the mark is gone. */
  lemma KeyframeLost(cfg: Config, s: State, f: Frame, g: Frame, accepts: nat)
    requires ConstantOutputRate(cfg) && cfg.dropThreshold == 0.0 && cfg.dupLimit >= 1.0 && accepts > 0
    requires WellFormed(s) && !s.eofOut && !s.droppedKeyframe && s.lastDropped == 0 && s.frameNumber > 0
    requires f.key && f.syncIpts == s.nextPts as real && f.span >= cfg.dupLimit + 1.0
    requires !g.key && g.syncIpts == s.nextPts as real && g.span == 1.0
    ensures var t := Feed(cfg, s, f, accepts);
      && |t.hist| == 3 && t.sent == s.sent && !KeyCarried(t, |s.sent|)
      && !Feed(cfg, t, g, accepts).eofOut && !KeyCarried(Feed(cfg, t, g, accepts), |s.sent|)
  {
    LongPlan(cfg, s, f);
    var t := Feed(cfg, s, f, accepts);
    assert Burstful(cfg, s, f);
    KeyframeCarriedExactly(cfg, s, f, accepts);
    TickPlan(cfg, t, g);
    assert !Burstful(cfg, t, g) && !Feed(cfg, t, g, accepts).eofOut;
    MarkStep(cfg, t, g, accepts, |s.sent|);
  }

  lemma LongPlan(cfg: Config, s: State, f: Frame)
    requires ConstantOutputRate(cfg) && cfg.dropThreshold == 0.0 && cfg.dupLimit >= 1.0 && s.frameNumber > 0
    requires f.syncIpts == s.nextPts as real && f.span >= cfg.dupLimit + 1.0
    ensures var p := Decide(cfg, s.nextPts, s.frameNumber, f);
      p.nbPrev == 0 && p.nextPts == s.nextPts && p.nb as real > cfg.dupLimit
  {
    assert Decide(cfg, s.nextPts, s.frameNumber, f) == Plan(Arithmetic.RoundEven(f.span), 0, s.nextPts, 1);
  }

  lemma TickPlan(cfg: Config, s: State, f: Frame)
    requires ConstantOutputRate(cfg) && cfg.dropThreshold == 0.0 && s.frameNumber > 0
    requires f.syncIpts == s.nextPts as real && f.span == 1.0
    ensures Decide(cfg, s.nextPts, s.frameNumber, f) == Plan(1, 0, s.nextPts, 1)
  {
  }
}
