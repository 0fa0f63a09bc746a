/** What whole runs of the frame-rate conversion keep. */
module FrameSyncRuns {
  import Arithmetic
  import opened Options
  import opened FrameSync

  /** A frame reaching the output, and how many sends its consumer accepts meanwhile. */
  datatype Arrival = Arrival(frame: Frame, accepts: nat)

  function Run(cfg: Config, s: State, arrivals: seq<Arrival>): (t: State)
    requires |s.hist| == 3
    ensures |t.hist| == 3
  {
    if arrivals == [] then s
    else
      var n := |arrivals| - 1;
      Feed(cfg, Run(cfg, s, arrivals[..n]), arrivals[n].frame, arrivals[n].accepts)
  }

  /** No frame of the run asks for more copies than the limit allows. */
  predicate NoBurst(cfg: Config, s: State, arrivals: seq<Arrival>)
    requires |s.hist| == 3
  {
    arrivals == [] ||
    var n := |arrivals| - 1;
    NoBurst(cfg, s, arrivals[..n]) && !Burstful(cfg, Run(cfg, s, arrivals[..n]), arrivals[n].frame)
  }

  lemma {:induction false} BurstAt(last: Option<Image>, cur: Option<Image>, pts: int, boost: bool, nbPrev: nat,
                                   k: nat, j: nat)
    requires k > 0 ==> cur.Some? || (last.Some? && k <= nbPrev)
    requires j < k
    ensures var m := Source(last, cur, nbPrev, j).value;
      Burst(last, cur, pts, boost, nbPrev, k)[j] == Sent(m.id, pts + j, m.duration, m.key || (j == 0 && boost))
  {
    if j < k - 1 {
      BurstAt(last, cur, pts, boost, nbPrev, k - 1, j);
    }
  }

  // ---- the drift between input clock and output count ----

  function End(f: Frame): real { f.syncIpts + f.span }

  predicate ConstantOutputRate(cfg: Config) { cfg.vsync == Cfr || cfg.vsync == Vscfr }

  const LAG := 2.1

  /** How far the input may run ahead of the output. */
  function Lead(cfg: Config): real {
    var rounding := if cfg.vsync == Vscfr then 1.0 else 0.5;
    if cfg.dropThreshold > rounding then cfg.dropThreshold else rounding
  }

  lemma FedPts(cfg: Config, s: State, f: Frame, accepts: nat)
    requires |s.hist| == 3 && !s.eofOut && !Feed(cfg, s, f, accepts).eofOut && !Burstful(cfg, s, f)
    ensures var p := Decide(cfg, s.nextPts, s.frameNumber, f);
      Feed(cfg, s, f, accepts).nextPts == p.nextPts + p.nb
  {
  }

  lemma DriftStep(cfg: Config, s: State, f: Frame, accepts: nat)
    requires |s.hist| == 3 && ConstantOutputRate(cfg)
    requires f.span >= 0.0 && !Burstful(cfg, s, f)
    requires End(f) - s.nextPts as real >= -LAG
    requires !Feed(cfg, s, f, accepts).eofOut
    ensures -LAG <= End(f) - Feed(cfg, s, f, accepts).nextPts as real <= Lead(cfg)
  {
    FedPts(cfg, s, f, accepts);
  }

  /** Input ends never step back and no frame has a negative length. */
  ghost predicate Steady(arrivals: seq<Arrival>) {
    && (forall i :: 0 <= i < |arrivals| ==> arrivals[i].frame.span >= 0.0)
    && forall i, j :: 0 <= i < j < |arrivals| ==> End(arrivals[i].frame) <= End(arrivals[j].frame)
  }

  /** At a constant output rate the end of the frame just handled stays within a fixed
      distance of the output's clock, however long the run. */
  lemma {:induction false} DriftBound(cfg: Config, s: State, arrivals: seq<Arrival>)
    requires |s.hist| == 3 && ConstantOutputRate(cfg) && arrivals != []
    requires Steady(arrivals) && NoBurst(cfg, s, arrivals)
    requires End(arrivals[0].frame) - s.nextPts as real >= -LAG
    ensures var t := Run(cfg, s, arrivals);
      !t.eofOut ==> -LAG <= End(arrivals[|arrivals| - 1].frame) - t.nextPts as real <= Lead(cfg)
  {
    var n := |arrivals| - 1;
    var before := Run(cfg, s, arrivals[..n]);
    if !Run(cfg, s, arrivals).eofOut {
      if n > 0 {
        DriftBound(cfg, s, arrivals[..n]);
        assert !before.eofOut;
        assert End(arrivals[n - 1].frame) <= End(arrivals[n].frame);
      }
      assert arrivals[..n] == [] ==> before == s;
      DriftStep(cfg, before, arrivals[n].frame, arrivals[n].accepts);
    }
  }

  // ---- stamps ----

  /** One output tick per frame, without gaps. */
  ghost predicate Consecutive(s: State) {
    && (forall i :: 0 <= i < |s.sent| ==> s.sent[i].pts == s.nextPts - |s.sent| + i && s.sent[i].duration == 1)
    && (s.last.Some? ==> s.last.value.duration == 1)
    && s.frameNumber == |s.sent|
  }

  ghost predicate Increasing(s: State) {
    && (forall i, j :: 0 <= i < j < |s.sent| ==> s.sent[i].pts < s.sent[j].pts)
    && forall i :: 0 <= i < |s.sent| ==> s.sent[i].pts < s.nextPts
  }

  lemma SendConsecutive(s: State, cur: Option<Image>, nb: nat, nbPrev: nat, accepts: nat)
    requires Consecutive(s) && (cur.Some? ==> cur.value.duration == 1)
    ensures Consecutive(SendAll(s, cur, nb, nbPrev, accepts))
  {
    var k := Arithmetic.Min(Copies(s.last, cur, nb, nbPrev), accepts);
    forall j | 0 <= j < k
      ensures Burst(s.last, cur, s.nextPts, s.droppedKeyframe, nbPrev, k)[j].pts == s.nextPts + j
      ensures Burst(s.last, cur, s.nextPts, s.droppedKeyframe, nbPrev, k)[j].duration == 1
    {
      BurstAt(s.last, cur, s.nextPts, s.droppedKeyframe, nbPrev, k, j);
    }
  }

  lemma SendIncreasing(s: State, cur: Option<Image>, nb: nat, nbPrev: nat, accepts: nat)
    requires Increasing(s)
    ensures Increasing(SendAll(s, cur, nb, nbPrev, accepts))
  {
    var k := Arithmetic.Min(Copies(s.last, cur, nb, nbPrev), accepts);
    forall j | 0 <= j < k
      ensures Burst(s.last, cur, s.nextPts, s.droppedKeyframe, nbPrev, k)[j].pts == s.nextPts + j
    {
      BurstAt(s.last, cur, s.nextPts, s.droppedKeyframe, nbPrev, k, j);
    }
  }

  /** The output clock never runs back, whatever stamps and lengths come in. */
  lemma VfrClockAdvances(cfg: Config, s: State, f: Frame)
    requires cfg.vsync == Vfr
    ensures Decide(cfg, s.nextPts, s.frameNumber, f).nextPts >= s.nextPts
  {
    var drift := f.syncIpts - s.nextPts as real;
    Arithmetic.RoundEvenKeepsBound(if drift < 0.0 then s.nextPts as real else f.syncIpts, s.nextPts);
  }

  lemma FeedConsecutive(cfg: Config, s: State, f: Frame, accepts: nat)
    requires |s.hist| == 3 && ConstantOutputRate(cfg) && Consecutive(s)
    ensures Consecutive(Feed(cfg, s, f, accepts))
  {
    if !s.eofOut {
      var p := Decide(cfg, s.nextPts, s.frameNumber, f);
      assert |s.sent| > 0 ==> p.nextPts == s.nextPts;
      SendConsecutive(Synced(cfg, s, f), Some(Image(f.id, p.duration, f.key)),
                      if Burstful(cfg, s, f) then 0 else p.nb, p.nbPrev, accepts);
    }
  }

  lemma FlushConsecutive(cfg: Config, s: State, accepts: nat)
    requires |s.hist| == 3 && Consecutive(s)
    ensures Consecutive(Flush(cfg, s, accepts))
  {
    if !s.eofOut && s.gotFrame {
      var m := Arithmetic.Median3(s.hist[0], s.hist[1], s.hist[2]);
      var e := AtEof(s);
      SendConsecutive(Account(cfg, e, m, m, None), None, if OverLimit(cfg, e, m, m) then 0 else m, m, accepts);
    }
  }

  /** Every frame of a run at a constant rate, its flush included, takes the next tick. */
  lemma {:induction false} ConstantRateStamps(cfg: Config, arrivals: seq<Arrival>, others: bool, accepts: nat)
    requires ConstantOutputRate(cfg)
    ensures Consecutive(Run(cfg, INITIAL, arrivals))
    ensures Consecutive(Flush(cfg, Seen(Run(cfg, INITIAL, arrivals), others), accepts))
    decreases |arrivals|
  {
    if arrivals != [] {
      var n := |arrivals| - 1;
      ConstantRateStamps(cfg, arrivals[..n], others, accepts);
      FeedConsecutive(cfg, Run(cfg, INITIAL, arrivals[..n]), arrivals[n].frame, arrivals[n].accepts);
    }
    FlushConsecutive(cfg, Seen(Run(cfg, INITIAL, arrivals), others), accepts);
  }

  /** A CFR output fed to the end counts its input clock: the number of frames sent is the
      end of the last input, up to the drift bound. */
  lemma CfrFrameCount(cfg: Config, arrivals: seq<Arrival>)
    requires cfg.vsync == Cfr && arrivals != []
    requires Steady(arrivals) && NoBurst(cfg, INITIAL, arrivals)
    requires End(arrivals[0].frame) >= 0.0
    ensures var t := Run(cfg, INITIAL, arrivals);
      !t.eofOut ==>
        var e := End(arrivals[|arrivals| - 1].frame);
        e - Lead(cfg) <= |t.sent| as real <= e + LAG
  {
    DriftBound(cfg, INITIAL, arrivals);
    CfrStartsAtZero(cfg, arrivals);
  }

  lemma FeedCounts(cfg: Config, s: State, f: Frame, accepts: nat)
    requires cfg.vsync == Cfr && |s.hist| == 3
    ensures var t := Feed(cfg, s, f, accepts); t.nextPts - s.nextPts == |t.sent| - |s.sent|
  {
  }

  lemma {:induction false} CfrStartsAtZero(cfg: Config, arrivals: seq<Arrival>)
    requires cfg.vsync == Cfr
    ensures var t := Run(cfg, INITIAL, arrivals); t.nextPts == |t.sent|
    decreases |arrivals|
  {
    if arrivals != [] {
      var n := |arrivals| - 1;
      CfrStartsAtZero(cfg, arrivals[..n]);
      FeedCounts(cfg, Run(cfg, INITIAL, arrivals[..n]), arrivals[n].frame, arrivals[n].accepts);
    }
  }

  lemma FeedIncreasing(cfg: Config, s: State, f: Frame, accepts: nat)
    requires |s.hist| == 3 && cfg.vsync == Vfr && Increasing(s)
    ensures Increasing(Feed(cfg, s, f, accepts))
  {
    if !s.eofOut {
      var p := Decide(cfg, s.nextPts, s.frameNumber, f);
      VfrClockAdvances(cfg, s, f);
      SendIncreasing(Synced(cfg, s, f), Some(Image(f.id, p.duration, f.key)),
                     if Burstful(cfg, s, f) then 0 else p.nb, p.nbPrev, accepts);
    }
  }

  lemma FlushIncreasing(cfg: Config, s: State, accepts: nat)
    requires |s.hist| == 3 && Increasing(s)
    ensures Increasing(Flush(cfg, s, accepts))
  {
    if !s.eofOut && s.gotFrame {
      var m := Arithmetic.Median3(s.hist[0], s.hist[1], s.hist[2]);
      var e := AtEof(s);
      SendIncreasing(Account(cfg, e, m, m, None), None, if OverLimit(cfg, e, m, m) then 0 else m, m, accepts);
    }
  }

  /** In VFR the stamps of a run, its flush included, increase strictly, whatever comes in. */
  lemma {:induction false} VfrStamps(cfg: Config, arrivals: seq<Arrival>, others: bool, accepts: nat)
    requires cfg.vsync == Vfr
    ensures Increasing(Run(cfg, INITIAL, arrivals))
    ensures Increasing(Flush(cfg, Seen(Run(cfg, INITIAL, arrivals), others), accepts))
    decreases |arrivals|
  {
    if arrivals != [] {
      var n := |arrivals| - 1;
      VfrStamps(cfg, arrivals[..n], others, accepts);
      FeedIncreasing(cfg, Run(cfg, INITIAL, arrivals[..n]), arrivals[n].frame, arrivals[n].accepts);
    }
    FlushIncreasing(cfg, Seen(Run(cfg, INITIAL, arrivals), others), accepts);
  }
}
