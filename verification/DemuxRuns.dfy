/** What discontinuity correction keeps over whole runs of the demuxer. */
module DemuxRuns {
  import opened Arithmetic
  import opened Options
  import opened DemuxTimestamps

  datatype Arrival = Arrival(stream: nat, pkt: Packet)

  predicate ValidRun(d: Demux, arrivals: seq<Arrival>) {
    && ValidDemux(d)
    && forall k :: 0 <= k < |arrivals| ==>
         && arrivals[k].stream < |d.streams|
         && Positive(arrivals[k].pkt.timeBase)
         && arrivals[k].pkt.duration >= 0
  }

  /** The state once all of `arrivals` were fixed up. */
  function After(cfg: Config, d: Demux, arrivals: seq<Arrival>): (r: Demux)
    requires ValidRun(d, arrivals)
    ensures ValidDemux(r) && |r.streams| == |d.streams|
    decreases |arrivals|
  {
    if arrivals == [] then d
    else
      var last := |arrivals| - 1;
      Fixed(cfg, After(cfg, d, arrivals[..last]), arrivals[last].stream, arrivals[last].pkt).0
  }

  /** No stream's clock predicts a dts before its current one. */
  predicate ForwardLooking(d: Demux) {
    forall i :: 0 <= i < |d.streams| && d.streams[i].nextDts.Some? ==> d.streams[i].dts <= d.streams[i].nextDts.value
  }

  predicate Unstarted(d: Demux) {
    && d.tsOffsetDiscont == 0
    && forall i :: 0 <= i < |d.streams| ==> d.streams[i].nextDts.None?
  }

  lemma ForcedRateAdvances(dts: int, fps: Rational)
    requires Positive(fps)
    ensures var tick := Rational(fps.den, fps.num);
            RescaleQ(RescaleQ(dts, AV_TIME_BASE_Q, tick) + 1, tick, AV_TIME_BASE_Q) >= dts
  {
    RescaleThereAndBack(dts, fps.num, fps.den * AV_TIME_BASE);
  }

  lemma RescaleThereAndBack(x: int, n: int, t: int)
    requires n > 0 && t > 0
    ensures Rescale(Rescale(x, n, t) + 1, t, n) >= x
  {
    var r := Rescale(x, n, t);
    var back := Rescale(r + 1, t, n);
    RescaleError(x, n, t);
    RescaleError(r + 1, t, n);
    Combine(x, n, t, r, back);
  }

  lemma Combine(x: int, n: int, t: int, r: int, back: int)
    requires n > 0 && t > 0
    requires -t <= 2 * (r * t - x * n)
    requires -n <= 2 * (back * n - (r + 1) * t)
    ensures back >= x
  {
    assert (r + 1) * t == r * t + t;
    assert (back - x) * n == back * n - x * n;
    assert back - x <= -1 ==> (back - x) * n <= -n;
  }

  lemma ClockAdvances(pace: Pace, dts: int, pkt: Packet)
    requires ValidPace(pace) && Positive(pkt.timeBase) && pkt.duration >= 0
    ensures Advanced(pace, dts, pkt) >= dts
  {
    RescaleSign(pkt.duration, pkt.timeBase.num * AV_TIME_BASE, 1 * pkt.timeBase.den);
    match pace
    case SamplesPerPacket(size, rate) => DivMonotone(0, AV_TIME_BASE * size, rate);
    case ForcedRate(fps) => ForcedRateAdvances(dts, fps);
    case VideoRate(rate, fields) =>
      if rate.Some? {
        RescaleSign(fields, rate.value.den * AV_TIME_BASE, 1 * (2 * rate.value.num));
      }
    case _ =>
  }

  /** A stream starts its delay early, to the microsecond. */
  lemma StartsEarly(s: Stream, frames: real)
    requires ValidStream(s) && s.frameRate.Some?
    requires frames == s.frameRate.value.num as real / s.frameRate.value.den as real
    ensures frames > 0.0
    ensures -1.0 < FirstDts(s) as real + (s.videoDelay * AV_TIME_BASE) as real / frames < 1.0
  {
    var x := -(s.videoDelay * AV_TIME_BASE) as real / frames;
    assert x == -((s.videoDelay * AV_TIME_BASE) as real / frames);
  }

  lemma {:induction false} RunLooksForward(cfg: Config, d: Demux, arrivals: seq<Arrival>)
    requires ValidRun(d, arrivals) && ForwardLooking(d)
    ensures ForwardLooking(After(cfg, d, arrivals))
    decreases |arrivals|
  {
    if arrivals != [] {
      var last := |arrivals| - 1;
      RunLooksForward(cfg, d, arrivals[..last]);
      var e := After(cfg, d, arrivals[..last]);
      var a := arrivals[last];
      var (_, p) := Process(cfg, e, a.stream, a.pkt);
      var s := Clocked(e.streams[a.stream], p);
      ClockAdvances(s.pace, s.dts, p);
    }
  }

  // ---- the corrected stamp ----

  /** A stamp `x` microseconds is within `t` microseconds of `y`. */
  predicate Within(x: int, y: int, t: real) { Abs(x - y) as real <= t }

  /** A correction lands on the predicted time up to half a tick and half a microsecond. */
  lemma JumpLands(p: int, target: int, tb: Rational)
    requires Positive(tb)
    ensures var moved := p - FromMicros(ToMicros(p, tb) - target, tb);
            var tick := tb.num * AV_TIME_BASE;
            && Abs(2 * (moved * tick - target * tb.den)) <= tick + tb.den
            && Abs(2 * tb.den * (ToMicros(moved, tb) - target)) <= tick + 2 * tb.den
  {
    RescaleJump(p, target, tb.num * AV_TIME_BASE, tb.den);
  }

  lemma RescaleJump(p: int, target: int, n: int, d: int)
    requires n > 0 && d > 0
    ensures var moved := p - Rescale(Rescale(p, n, d) - target, d, n);
            && Abs(2 * (moved * n - target * d)) <= n + d
            && Abs(2 * d * (Rescale(moved, n, d) - target)) <= n + 2 * d
  {
    var us := Rescale(p, n, d);
    RescaleError(p, n, d);
    RescaleError(us - target, d, n);
    var moved := p - Rescale(us - target, d, n);
    RescaleError(moved, n, d);
    Landing(p, us, target, n, d, p - moved, Rescale(moved, n, d));
  }

  lemma Landing(p: int, us: int, target: int, n: int, d: int, f: int, o: int)
    requires n > 0 && d > 0
    requires -d <= 2 * (us * d - p * n) <= d
    requires -n <= 2 * (f * n - (us - target) * d) <= n
    requires -d <= 2 * (o * d - (p - f) * n) <= d
    ensures Abs(2 * ((p - f) * n - target * d)) <= n + d
    ensures Abs(2 * d * (o - target)) <= n + 2 * d
  {
    assert (p - f) * n == p * n - f * n;
    assert (us - target) * d == us * d - target * d;
    assert 2 * d * (o - target) == 2 * (o * d) - 2 * (target * d);
  }

  lemma MicrosAreExact(x: int)
    ensures ToMicros(x, AV_TIME_BASE_Q) == x && FromMicros(x, AV_TIME_BASE_Q) == x
  {
    RescaleQIdentity(x, AV_TIME_BASE_Q);
  }

  /** With the offset applied, the stamp agrees with the stream's prediction, or with the
      last stamp of any stream when there is none yet. */
  predicate Agrees(cfg: Config, d: Demux, i: nat, out: int)
    requires i < |d.streams|
  {
    var s := d.streams[i];
    if s.nextDts.Some? then
      && Within(out, s.nextDts.value, cfg.deltaThreshold)
      && s.dts <= out + AV_TIME_BASE / 10
    else
      d.lastTs.Some? ==> Within(out, d.lastTs.value, cfg.deltaThreshold)
  }

  /** In microseconds every audio or video packet of a discontinuous format leaves with its
      own dts plus the offset accumulated so far, in agreement with the stream's clock. */
  lemma DiscontinuityCorrected(cfg: Config, d: Demux, i: nat, pkt: Packet)
    requires ValidDemux(d) && ForwardLooking(d) && i < |d.streams|
    requires d.streams[i].audioOrVideo && pkt.dts.Some? && pkt.timeBase == AV_TIME_BASE_Q
    requires cfg.discont && !cfg.copyTs && cfg.deltaThreshold >= 0.0
    ensures var (e, out) := Fixed(cfg, d, i, pkt);
            && out == Shift(pkt, e.tsOffsetDiscont)
            && Agrees(cfg, d, i, out.dts.value)
            && e.lastTs == out.dts == Some(e.streams[i].dts)
  {
    MicrosAreExact(d.tsOffsetDiscont);
    var p := Shift(pkt, d.tsOffsetDiscont);
    MicrosAreExact(p.dts.value);
    var jump := Jump(cfg, d, d.streams[i], p);
    if jump.Some? {
      MicrosAreExact(jump.value);
      MicrosAreExact(p.dts.value - jump.value);
    }
  }

  /** The stamp `x`, in time base `tb`, is within half a tick and a microsecond of `target`. */
  predicate Lands(x: int, tb: Rational, target: int)
    requires Positive(tb)
  {
    2 * tb.den * Abs(ToMicros(x, tb) - target) <= tb.num * AV_TIME_BASE + 2 * tb.den
  }

  /** In any other time base the offset is rounded to ticks: whenever a packet changes the
      offset, it lands on the stream's prediction up to that rounding; whenever it does not
      and correction is on, it was in agreement already. */
  lemma DiscontinuityCorrectedAnyBase(cfg: Config, d: Demux, i: nat, pkt: Packet)
    requires ValidDemux(d) && i < |d.streams| && Positive(pkt.timeBase)
    requires d.streams[i].audioOrVideo && pkt.dts.Some? && d.streams[i].nextDts.Some?
    requires cfg.discont
    ensures var (e, out) := Fixed(cfg, d, i, pkt);
            var s := d.streams[i];
            var micros := ToMicros(out.dts.value, pkt.timeBase);
            && (e.tsOffsetDiscont != d.tsOffsetDiscont ==> Lands(out.dts.value, pkt.timeBase, s.nextDts.value))
            && (e.tsOffsetDiscont == d.tsOffsetDiscont && !cfg.copyTs ==>
                  || Lands(out.dts.value, pkt.timeBase, s.nextDts.value)
                  || (Within(micros, s.nextDts.value, cfg.deltaThreshold) && s.dts <= micros + AV_TIME_BASE / 10))
  {
    var tb := pkt.timeBase;
    var s := d.streams[i];
    var p := Shift(pkt, FromMicros(d.tsOffsetDiscont, tb));
    var jump := Jump(cfg, d, s, p);
    if jump.Some? {
      JumpLands(p.dts.value, s.nextDts.value, tb);
      var micros := ToMicros(p.dts.value - FromMicros(jump.value, tb), tb);
      assert 2 * tb.den * (micros - s.nextDts.value) == -(2 * tb.den * (s.nextDts.value - micros));
    }
  }

  /** Both stamps move together, so the reordering delay survives. */
  lemma DelayKept(cfg: Config, d: Demux, i: nat, pkt: Packet)
    requires ValidDemux(d) && i < |d.streams| && Positive(pkt.timeBase)
    requires pkt.dts.Some? && pkt.pts.Some? && (cfg.discont || cfg.copyTs)
    ensures var out := Fixed(cfg, d, i, pkt).1;
            out.dts.Some? && out.pts.Some? && out.pts.value - out.dts.value == pkt.pts.value - pkt.dts.value
  {
  }

  lemma {:induction false} OthersUntouched(cfg: Config, d: Demux, arrivals: seq<Arrival>, i: nat)
    requires ValidRun(d, arrivals) && i < |d.streams|
    requires forall k :: 0 <= k < |arrivals| ==> arrivals[k].stream != i
    ensures After(cfg, d, arrivals).streams[i] == d.streams[i]
    decreases |arrivals|
  {
    if arrivals != [] {
      OthersUntouched(cfg, d, arrivals[..|arrivals| - 1], i);
    }
  }

  /** Between two neighbouring packets of a stream, whatever arrived before them and whatever
      other streams sent in between: the later one leaves where the earlier one made it
      expected, and never more than 0.1 s behind it. */
  lemma NeighboursAgree(cfg: Config, d: Demux, before: seq<Arrival>, i: nat, p: Packet, between: seq<Arrival>,
                        q: Packet)
    requires ValidRun(d, before + [Arrival(i, p)] + between + [Arrival(i, q)]) && Unstarted(d) && i < |d.streams|
    requires forall k :: 0 <= k < |between| ==> between[k].stream != i
    requires d.streams[i].audioOrVideo && p.dts.Some? && q.dts.Some?
    requires p.timeBase == q.timeBase == AV_TIME_BASE_Q
    requires cfg.discont && !cfg.copyTs && cfg.deltaThreshold >= 0.0
    ensures ValidRun(d, before)
    ensures var d1 := After(cfg, d, before);
            var (d2, outP) := Fixed(cfg, d1, i, p);
            ValidRun(d2, between) &&
            var (d4, outQ) := Fixed(cfg, After(cfg, d2, between), i, q);
            && outP.dts.value <= outQ.dts.value + AV_TIME_BASE / 10
            && Within(outQ.dts.value, Advanced(d1.streams[i].pace, outP.dts.value, outP), cfg.deltaThreshold)
  {
    var run := before + [Arrival(i, p)] + between + [Arrival(i, q)];
    SubRun(d, run, 0, |before|);
    SubRun(d, run, |before| + 1, |before| + 1 + |between|);
    assert run[0..|before|] == before && run[|before| + 1..|before| + 1 + |between|] == between;
    assert run[|before|] == Arrival(i, p);
    var d1 := After(cfg, d, before);
    RunLooksForward(cfg, d, before);
    RunKeepsKinds(cfg, d, before);
    DiscontinuityCorrected(cfg, d1, i, p);
    var (d2, outP) := Fixed(cfg, d1, i, p);
    FixedKeepsForward(cfg, d1, i, p);
    RunLooksForward(cfg, d2, between);
    OthersUntouched(cfg, d2, between, i);
    DiscontinuityCorrected(cfg, After(cfg, d2, between), i, q);
    MicrosAreExact(outP.dts.value);
  }

  lemma SubRun(d: Demux, run: seq<Arrival>, from: nat, to: nat)
    requires from <= to <= |run| && ValidRun(d, run)
    ensures ValidRun(d, run[from..to])
  {
    assert forall k :: 0 <= k < to - from ==> run[from..to][k] == run[from + k];
  }

  lemma FixedKeepsForward(cfg: Config, d: Demux, i: nat, pkt: Packet)
    requires ValidDemux(d) && i < |d.streams| && Positive(pkt.timeBase) && pkt.duration >= 0 && ForwardLooking(d)
    ensures ForwardLooking(Fixed(cfg, d, i, pkt).0)
  {
    var run := [Arrival(i, pkt)];
    RunLooksForward(cfg, d, run);
    assert run[..0] == [];
    assert After(cfg, d, run) == Fixed(cfg, d, i, pkt).0;
  }

  lemma {:induction false} RunKeepsKinds(cfg: Config, d: Demux, arrivals: seq<Arrival>)
    requires ValidRun(d, arrivals)
    ensures forall i :: 0 <= i < |d.streams| ==>
              After(cfg, d, arrivals).streams[i].audioOrVideo == d.streams[i].audioOrVideo
    decreases |arrivals|
  {
    if arrivals != [] {
      RunKeepsKinds(cfg, d, arrivals[..|arrivals| - 1]);
    }
  }

  // ---- formats that promise continuous stamps ----

  lemma {:induction false} ContinuousKeepsOffset(cfg: Config, d: Demux, arrivals: seq<Arrival>)
    requires ValidRun(d, arrivals) && !cfg.discont
    ensures After(cfg, d, arrivals).tsOffsetDiscont == d.tsOffsetDiscont
    decreases |arrivals|
  {
    if arrivals != [] {
      ContinuousKeepsOffset(cfg, d, arrivals[..|arrivals| - 1]);
    }
  }

  /** The stamp lies beyond the error threshold from what the stream predicts. */
  predicate TooFar(cfg: Config, s: Stream, ts: Option<int>, tb: Rational)
    requires Positive(tb)
  {
    ts.Some? && s.nextDts.Some? && !Within(ToMicros(ts.value, tb), s.nextDts.value, cfg.errorThreshold)
  }

  /** Without discontinuities no stamp is ever moved; an audio or video packet with a dts
      loses exactly the stamps that lie beyond the error threshold. */
  lemma ContinuousOnlyCensors(cfg: Config, d: Demux, arrivals: seq<Arrival>, i: nat, pkt: Packet)
    requires ValidRun(d, arrivals) && Unstarted(d) && i < |d.streams| && Positive(pkt.timeBase)
    requires !cfg.discont && !cfg.copyTs
    ensures var e := After(cfg, d, arrivals);
            var out := Fixed(cfg, e, i, pkt).1;
            var s := e.streams[i];
            var judged := s.audioOrVideo && pkt.dts.Some? && s.nextDts.Some?;
            && out.dts == (if judged && TooFar(cfg, s, pkt.dts, pkt.timeBase) then None else pkt.dts)
            && out.pts == (if judged && TooFar(cfg, s, pkt.pts, pkt.timeBase) then None else pkt.pts)
  {
    ContinuousKeepsOffset(cfg, d, arrivals);
    var e := After(cfg, d, arrivals);
    RescaleExact(0, 1, pkt.timeBase.num * AV_TIME_BASE);
    RescaleSign(0, 1 * pkt.timeBase.den, pkt.timeBase.num * AV_TIME_BASE);
    assert FromMicros(0, pkt.timeBase) == 0;
    assert Shift(pkt, 0) == pkt;
  }

  /** With copy_ts, and no stream narrow enough to wrap, every packet passes unchanged. */
  lemma {:induction false} CopyTsKeepsStamps(cfg: Config, d: Demux, arrivals: seq<Arrival>, i: nat, pkt: Packet)
    requires ValidRun(d, arrivals) && d.tsOffsetDiscont == 0 && i < |d.streams| && Positive(pkt.timeBase)
    requires cfg.copyTs && forall j :: 0 <= j < |d.streams| ==> d.streams[j].wrapBits >= 60
    ensures var e := After(cfg, d, arrivals);
            && Fixed(cfg, e, i, pkt).1 == pkt
            && Fixed(cfg, e, i, pkt).0.tsOffsetDiscont == 0
            && e.tsOffsetDiscont == 0
            && forall j :: 0 <= j < |e.streams| ==> e.streams[j].wrapBits >= 60
    decreases |arrivals|
  {
    if arrivals != [] {
      var last := |arrivals| - 1;
      CopyTsKeepsStamps(cfg, d, arrivals[..last], arrivals[last].stream, arrivals[last].pkt);
    }
    RescaleSign(0, 1 * pkt.timeBase.den, pkt.timeBase.num * AV_TIME_BASE);
    assert FromMicros(0, pkt.timeBase) == 0;
    assert Shift(pkt, 0) == pkt;
  }
}
