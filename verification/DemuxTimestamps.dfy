/** Timestamp repair behind the demuxer (fftools/ffmpeg_demux.c: ts_discontinuity_process,
    ts_discontinuity_detect, ist_dts_update, ts_fixup and seek_to_start). */
module DemuxTimestamps {
  import opened Arithmetic
  import opened Options

  datatype Packet = Packet(pts: Option<int>, dts: Option<int>, duration: int, timeBase: Rational)

  // ---- stream loops: ts_fixup lines 442-466 and seek_to_start ----

  datatype Stamp = Stamp(ts: int, tb: Rational)

  /** av_compare_ts, below zero when `a` is the earlier one. */
  function CompareTs(a: Stamp, b: Stamp): int {
    a.ts * a.tb.num * b.tb.den - b.ts * b.tb.num * a.tb.den
  }

  datatype Loop = Loop(duration: Stamp, minPts: Option<Stamp>, maxPts: Option<Stamp>)

  const FIRST_PASS := Loop(Stamp(0, Rational(1, 1)), None, None)

  predicate ValidLoop(l: Loop) {
    && Positive(l.duration.tb)
    && (l.minPts.Some? ==> Positive(l.minPts.value.tb))
    && (l.maxPts.Some? ==> Positive(l.maxPts.value.tb))
  }

  function Later(m: Option<Stamp>, s: Stamp): Option<Stamp> {
    if m.None? || CompareTs(m.value, s) < 0 then Some(s) else m
  }

  function Earlier(m: Option<Stamp>, s: Stamp): Option<Stamp> {
    if m.None? || CompareTs(m.value, s) > 0 then Some(s) else m
  }

  /** A packet of the current pass, moved behind the passes before it. */
  function Looped(l: Loop, pkt: Packet, haveAudioDec: bool): (Loop, Packet)
    requires ValidLoop(l) && Positive(pkt.timeBase)
  {
    var shift := RescaleQ(l.duration.ts, l.duration.tb, pkt.timeBase);
    var dts := if pkt.dts.Some? then Some(pkt.dts.value + shift) else None;
    if pkt.pts.None? then (l, pkt.(dts := dts))
    else
      var pts := pkt.pts.value + shift;
      var end := Stamp(pts + if haveAudioDec then 0 else pkt.duration, pkt.timeBase);
      (l.(maxPts := Later(l.maxPts, end), minPts := Earlier(l.minPts, Stamp(pts, pkt.timeBase))),
       pkt.(pts := Some(pts), dts := dts))
  }

  /** Going back to the start; `end` is the end stamp the audio decoders reported, if any. */
  function Rewound(l: Loop, end: Option<Stamp>): Loop
    requires ValidLoop(l) && (end.Some? ==> Positive(end.value.tb))
  {
    var max := if end.Some? then Later(l.maxPts, end.value) else l.maxPts;
    if max.None? then l.(duration := Stamp(l.duration.ts, Rational(1, 1)))
    else
      var min := if l.minPts.Some? then RescaleQ(l.minPts.value.ts, l.minPts.value.tb, max.value.tb) else 0;
      l.(maxPts := max, duration := Stamp(max.value.ts - min, max.value.tb))
  }

  // ---- discontinuities ----

  datatype Pace =
    | SamplesPerPacket(frameSize: nat, sampleRate: int)
    | AudioDuration
    | ForcedRate(fps: Rational)
    | VideoRate(codecRate: Option<Rational>, fields: nat)
    | NoPace

  /** A stream; `frameRate` is its average frame rate, if known. */
  datatype Stream = Stream(audioOrVideo: bool, pace: Pace, videoDelay: nat, frameRate: Option<Rational>,
                           wrapBits: nat, tsScale: real,
                           wrapDone: bool, sawFirstTs: bool, dts: int, nextDts: Option<int>)

  /** Thresholds, start time and offset in microseconds. */
  datatype Config = Config(discont: bool, copyTs: bool, deltaThreshold: real, errorThreshold: real,
                           startTime: Option<int>, tsOffset: int)

  datatype Demux = Demux(tsOffsetDiscont: int, lastTs: Option<int>, streams: seq<Stream>)

  predicate ValidPace(p: Pace) {
    match p
    case SamplesPerPacket(_, rate) => rate > 0
    case ForcedRate(fps) => Positive(fps)
    case VideoRate(rate, _) => rate.Some? ==> Positive(rate.value)
    case _ => true
  }

  predicate ValidStream(s: Stream) {
    ValidPace(s.pace) && (s.frameRate.Some? ==> Positive(s.frameRate.value))
  }

  predicate ValidDemux(d: Demux) {
    forall i :: 0 <= i < |d.streams| ==> ValidStream(d.streams[i])
  }

  function ToMicros(ts: int, tb: Rational): int
    requires Positive(tb)
  {
    RescaleQ(ts, tb, AV_TIME_BASE_Q)
  }

  function FromMicros(us: int, tb: Rational): int
    requires Positive(tb)
  {
    RescaleQ(us, AV_TIME_BASE_Q, tb)
  }

  function Moved(ts: Option<int>, amount: int): Option<int> {
    if ts.Some? then Some(ts.value + amount) else None
  }

  function Shift(pkt: Packet, amount: int): Packet {
    pkt.(pts := Moved(pkt.pts, amount), dts := Moved(pkt.dts, amount))
  }

  /** With copy_ts, a dts that would fit much better one wrap later is corrected after all. */
  predicate LooksWrapped(cfg: Config, s: Stream, dts: int, tb: Rational)
    requires Positive(tb) && s.nextDts.Some?
  {
    && cfg.copyTs && cfg.discont && s.wrapBits < 60
    && Abs(ToMicros(dts + Pow2(s.wrapBits), tb) - s.nextDts.value) < Abs(ToMicros(dts, tb) - s.nextDts.value) / 10
  }

  predicate Exceeds(x: int, threshold: real) { Abs(x) as real > threshold }

  /** How far the packet is off, when that calls for a new offset. */
  function Jump(cfg: Config, d: Demux, s: Stream, pkt: Packet): Option<int>
    requires Positive(pkt.timeBase) && pkt.dts.Some?
  {
    var dts := ToMicros(pkt.dts.value, pkt.timeBase);
    if !cfg.discont then None
    else if s.nextDts.Some? then
      var delta := dts - s.nextDts.value;
      if (!cfg.copyTs || LooksWrapped(cfg, s, pkt.dts.value, pkt.timeBase)) &&
         (Exceeds(delta, cfg.deltaThreshold) || dts + AV_TIME_BASE / 10 < s.dts)
      then Some(delta) else None
    else if !cfg.copyTs && d.lastTs.Some? && Exceeds(dts - d.lastTs.value, cfg.deltaThreshold)
    then Some(dts - d.lastTs.value)
    else None
  }

  function Kept(cfg: Config, ts: Option<int>, tb: Rational, next: int): Option<int>
    requires Positive(tb)
  {
    if ts.Some? && Exceeds(ToMicros(ts.value, tb) - next, cfg.errorThreshold) then None else ts
  }

  /** Formats without discontinuities lose stamps too far from the prediction instead. */
  function Censored(cfg: Config, s: Stream, pkt: Packet): Packet
    requires Positive(pkt.timeBase) && pkt.dts.Some?
  {
    if cfg.discont || s.nextDts.None? || cfg.copyTs then pkt
    else
      pkt.(dts := Kept(cfg, pkt.dts, pkt.timeBase, s.nextDts.value),
           pts := Kept(cfg, pkt.pts, pkt.timeBase, s.nextDts.value))
  }

  /** What av_rescale_q makes of AV_NOPTS_VALUE. */
  const RESCALED_NOPTS: int := -0x7fff_ffff_ffff_ffff

  function Detect(cfg: Config, d: Demux, i: nat, pkt: Packet): (Demux, Packet)
    requires i < |d.streams| && Positive(pkt.timeBase) && pkt.dts.Some?
  {
    var s := d.streams[i];
    var jump := Jump(cfg, d, s, pkt);
    var out := if jump.Some? then Shift(pkt, -FromMicros(jump.value, pkt.timeBase)) else Censored(cfg, s, pkt);
    (d.(tsOffsetDiscont := d.tsOffsetDiscont - (if jump.Some? then jump.value else 0),
        lastTs := Some(ToMicros(if out.dts.Some? then out.dts.value else RESCALED_NOPTS, pkt.timeBase))),
     out)
  }

  function Process(cfg: Config, d: Demux, i: nat, pkt: Packet): (Demux, Packet)
    requires i < |d.streams| && Positive(pkt.timeBase)
  {
    var p := Shift(pkt, FromMicros(d.tsOffsetDiscont, pkt.timeBase));
    if d.streams[i].audioOrVideo && p.dts.Some? then Detect(cfg, d, i, p) else (d, p)
  }

  // ---- before that: ts_fixup lines 414-440 ----

  const INT64_LIMIT: int := 0x8000_0000_0000_0000

  /** A stamp more than half a wrap after the start is from before the wrap. */
  function Unwrapped(ts: Option<int>, start: int, bits: nat): Option<int>
    requires bits > 0
  {
    if ts.Some? && ts.value > start + Pow2(bits - 1) then Some(ts.value - Pow2(bits)) else ts
  }

  /** Wraps are looked for until a packet shows none, provided the wrap after the start is
      still a 64-bit number. */
  function WrapCorrected(cfg: Config, s: Stream, pkt: Packet): (Stream, Packet)
    requires s.wrapBits > 0 && Positive(pkt.timeBase)
  {
    if s.wrapDone || cfg.startTime.None? || s.wrapBits >= 64 then (s, pkt)
    else
      var start := FromMicros(cfg.startTime.value, pkt.timeBase);
      if start + Pow2(s.wrapBits) >= INT64_LIMIT then (s.(wrapDone := true), pkt)
      else
        var out := pkt.(dts := Unwrapped(pkt.dts, start, s.wrapBits), pts := Unwrapped(pkt.pts, start, s.wrapBits));
        (s.(wrapDone := out == pkt), out)
  }

  /** Conversion of a double to an integer. */
  function Truncated(x: real): int { if x < 0.0 then -((-x).Floor) else x.Floor }

  function Scaled(ts: Option<int>, scale: real): Option<int> {
    if ts.Some? then Some(Multiplied(ts.value, scale)) else None
  }

  function Multiplied(ts: int, scale: real): int { Truncated(ts as real * scale) }

  function Prepared(cfg: Config, d: Demux, i: nat, pkt: Packet): (Demux, Packet)
    requires i < |d.streams| && d.streams[i].wrapBits > 0 && Positive(pkt.timeBase)
  {
    var (s, p) := WrapCorrected(cfg, d.streams[i], pkt);
    var q := Shift(p, FromMicros(cfg.tsOffset, pkt.timeBase));
    (d.(streams := d.streams[i := s]), q.(pts := Scaled(q.pts, s.tsScale), dts := Scaled(q.dts, s.tsScale)))
  }

  // ---- the clock of a stream ----

  /** Where the stream's clock is expected to be after the packet at `dts`. */
  function Advanced(pace: Pace, dts: int, pkt: Packet): int
    requires ValidPace(pace) && Positive(pkt.timeBase)
  {
    match pace
    case SamplesPerPacket(size, rate) => dts + AV_TIME_BASE * size / rate
    case AudioDuration => dts + ToMicros(pkt.duration, pkt.timeBase)
    case ForcedRate(fps) =>
      var tick := Rational(fps.den, fps.num);
      RescaleQ(RescaleQ(dts, AV_TIME_BASE_Q, tick) + 1, tick, AV_TIME_BASE_Q)
    case VideoRate(rate, fields) =>
      if pkt.duration != 0 then dts + ToMicros(pkt.duration, pkt.timeBase)
      else if rate.Some? then dts + RescaleQ(fields, Rational(rate.value.den, 2 * rate.value.num), AV_TIME_BASE_Q)
      else dts
    case NoPace => dts
  }

  /** Before its first pts a stream's clock is early by the frames its decoder holds back. */
  function FirstDts(s: Stream): int
    requires ValidStream(s)
  {
    if s.frameRate.None? then 0
    else
      var rate := s.frameRate.value;
      Truncated(-(s.videoDelay * AV_TIME_BASE) as real / (rate.num as real / rate.den as real))
  }

  function Clocked(s: Stream, pkt: Packet): Stream
    requires ValidStream(s) && Positive(pkt.timeBase)
  {
    var start := if s.sawFirstTs then s.dts
                 else FirstDts(s) + if pkt.pts.Some? then ToMicros(pkt.pts.value, pkt.timeBase) else 0;
    var now := if pkt.dts.Some? then ToMicros(pkt.dts.value, pkt.timeBase)
               else if s.nextDts.Some? then s.nextDts.value else start;
    s.(sawFirstTs := true, dts := now, nextDts := Some(Advanced(s.pace, now, pkt)))
  }

  /** The discontinuity half of ts_fixup. */
  function Fixed(cfg: Config, d: Demux, i: nat, pkt: Packet): (r: (Demux, Packet))
    requires ValidDemux(d) && i < |d.streams| && Positive(pkt.timeBase)
    ensures ValidDemux(r.0) && |r.0.streams| == |d.streams|
  {
    var (e, p) := Process(cfg, d, i, pkt);
    (e.(streams := e.streams[i := Clocked(e.streams[i], p)]), p)
  }

  // ---- the code ----

  class Demuxer {
    const cfg: Config
    const haveAudioDec: bool
    var tsOffsetDiscont: int
    var lastTs: Option<int>
    var streams: seq<Stream>
    var duration: Stamp
    var minPts: Option<Stamp>
    var maxPts: Option<Stamp>
    var loop: int

    ghost function View(): Demux
      reads this
    {
      Demux(tsOffsetDiscont, lastTs, streams)
    }

    ghost function LoopView(): Loop
      reads this
    {
      Loop(duration, minPts, maxPts)
    }

    constructor (cfg: Config, haveAudioDec: bool, streams: seq<Stream>, loop: int)
      ensures this.cfg == cfg && this.haveAudioDec == haveAudioDec && this.loop == loop
      ensures View() == Demux(0, Some(0), streams) && LoopView() == FIRST_PASS
    {
      this.cfg, this.haveAudioDec := cfg, haveAudioDec;
      tsOffsetDiscont, lastTs := 0, Some(0);
      this.streams := streams;
      duration, minPts, maxPts := Stamp(0, Rational(1, 1)), None, None;
      this.loop := loop;
    }

    /** `seek` is what the container answers to the seek. */
    method SeekToStart(end: Option<Stamp>, seek: int) returns (ret: int)
      requires ValidLoop(LoopView()) && (end.Some? ==> Positive(end.value.tb))
      modifies this`duration, this`maxPts, this`loop
      ensures ret == seek
      ensures seek < 0 ==> LoopView() == old(LoopView()) && loop == old(loop)
      ensures seek >= 0 ==> LoopView() == Rewound(old(LoopView()), end)
      ensures seek >= 0 ==> loop == if old(loop) > 0 then old(loop) - 1 else old(loop)
    {
      ret := seek;
      if seek < 0 {
        return;
      }
      if end.Some? && (maxPts.None? || CompareTs(maxPts.value, end.value) < 0) {
        maxPts := end;
      }
      if maxPts.Some? {
        var min := 0;
        if minPts.Some? {
          min := RescaleQ(minPts.value.ts, minPts.value.tb, maxPts.value.tb);
        }
        duration := Stamp(maxPts.value.ts - min, maxPts.value.tb);
      } else {
        duration := Stamp(duration.ts, Rational(1, 1));
      }
      if loop > 0 {
        loop := loop - 1;
      }
    }

    method TsFixup(i: nat, pkt: Packet) returns (out: Packet)
      requires ValidLoop(LoopView()) && ValidDemux(View()) && i < |streams| && Positive(pkt.timeBase)
      requires streams[i].wrapBits > 0
      modifies this`tsOffsetDiscont, this`lastTs, this`streams, this`minPts, this`maxPts
      ensures var (d, p) := Prepared(cfg, old(View()), i, pkt);
              var (l, q) := Looped(old(LoopView()), p, haveAudioDec);
              LoopView() == l && (View(), out) == Fixed(cfg, d, i, q)
    {
      out := PreparePacket(i, pkt);
      out := LoopPacket(out);
      out := TsDiscontinuityProcess(i, out);
      IstDtsUpdate(i, out);
    }

    method PreparePacket(i: nat, pkt: Packet) returns (out: Packet)
      requires ValidDemux(View()) && i < |streams| && streams[i].wrapBits > 0 && Positive(pkt.timeBase)
      modifies this`streams
      ensures (View(), out) == Prepared(cfg, old(View()), i, pkt)
      ensures ValidDemux(View()) && |streams| == |old(streams)| && out.timeBase == pkt.timeBase
    {
      out := CorrectWrap(i, pkt);
      ghost var corrected := out;
      assert streams[i] == WrapCorrected(cfg, old(streams)[i], pkt).0;
      var offset := RescaleQ(cfg.tsOffset, AV_TIME_BASE_Q, out.timeBase);
      if out.dts.Some? {
        out := out.(dts := Some(out.dts.value + offset));
      }
      if out.pts.Some? {
        out := out.(pts := Some(out.pts.value + offset));
      }
      ghost var q := Shift(corrected, offset);
      assert out == q;
      var scale := streams[i].tsScale;
      if out.pts.Some? {
        out := out.(pts := Some(Multiplied(out.pts.value, scale)));
      }
      if out.dts.Some? {
        out := out.(dts := Some(Multiplied(out.dts.value, scale)));
      }
      assert out.pts == Scaled(q.pts, scale) && out.dts == Scaled(q.dts, scale);
      assert View().streams == old(View()).streams[i := streams[i]];
    }

    method CorrectWrap(i: nat, pkt: Packet) returns (out: Packet)
      requires i < |streams| && streams[i].wrapBits > 0 && Positive(pkt.timeBase)
      modifies this`streams
      ensures var (s, p) := WrapCorrected(cfg, old(streams)[i], pkt);
              streams == old(streams)[i := s] && out == p
    {
      var ds := streams[i];
      out := pkt;
      if !ds.wrapDone && cfg.startTime.Some? && ds.wrapBits < 64 {
        var stime := RescaleQ(cfg.startTime.value, AV_TIME_BASE_Q, pkt.timeBase);
        var fits := stime + Pow2(ds.wrapBits) < INT64_LIMIT;
        ds := ds.(wrapDone := true);
        if fits && out.dts.Some? && out.dts.value > stime + Pow2(ds.wrapBits - 1) {
          out := out.(dts := Some(out.dts.value - Pow2(ds.wrapBits)));
          ds := ds.(wrapDone := false);
        }
        if fits && out.pts.Some? && out.pts.value > stime + Pow2(ds.wrapBits - 1) {
          out := out.(pts := Some(out.pts.value - Pow2(ds.wrapBits)));
          ds := ds.(wrapDone := false);
        }
      }
      streams := streams[i := ds];
    }

    method LoopPacket(pkt: Packet) returns (out: Packet)
      requires ValidLoop(LoopView()) && Positive(pkt.timeBase)
      modifies this`minPts, this`maxPts
      ensures (LoopView(), out) == Looped(old(LoopView()), pkt, haveAudioDec)
    {
      var shift := RescaleQ(duration.ts, duration.tb, pkt.timeBase);
      out := pkt;
      if pkt.pts.Some? {
        var pktDuration := if haveAudioDec then 0 else pkt.duration;
        var pts := pkt.pts.value + shift;
        out := out.(pts := Some(pts));
        if maxPts.None? || CompareTs(maxPts.value, Stamp(pts + pktDuration, pkt.timeBase)) < 0 {
          maxPts := Some(Stamp(pts + pktDuration, pkt.timeBase));
        }
        if minPts.None? || CompareTs(minPts.value, Stamp(pts, pkt.timeBase)) > 0 {
          minPts := Some(Stamp(pts, pkt.timeBase));
        }
      }
      if pkt.dts.Some? {
        out := out.(dts := Some(pkt.dts.value + shift));
      }
    }

    method TsDiscontinuityProcess(i: nat, pkt: Packet) returns (out: Packet)
      requires i < |streams| && Positive(pkt.timeBase)
      modifies this`tsOffsetDiscont, this`lastTs
      ensures (View(), out) == Process(cfg, old(View()), i, pkt)
      ensures out.timeBase == pkt.timeBase
    {
      var offset := RescaleQ(tsOffsetDiscont, AV_TIME_BASE_Q, pkt.timeBase);
      out := pkt;
      if out.dts.Some? {
        out := out.(dts := Some(out.dts.value + offset));
      }
      if out.pts.Some? {
        out := out.(pts := Some(out.pts.value + offset));
      }
      if streams[i].audioOrVideo && out.dts.Some? {
        out := TsDiscontinuityDetect(i, out);
      }
    }

    method TsDiscontinuityDetect(i: nat, pkt: Packet) returns (out: Packet)
      requires i < |streams| && Positive(pkt.timeBase) && pkt.dts.Some?
      modifies this`tsOffsetDiscont, this`lastTs
      ensures (View(), out) == Detect(cfg, old(View()), i, pkt)
      ensures out.timeBase == pkt.timeBase
    {
      var ds := streams[i];
      var pktDts := RescaleQ(pkt.dts.value, pkt.timeBase, AV_TIME_BASE_Q);
      var disabled := cfg.copyTs;
      out := pkt;
      if cfg.copyTs && ds.nextDts.Some? && cfg.discont && ds.wrapBits < 60 {
        var wrapDts := RescaleQ(pkt.dts.value + Pow2(ds.wrapBits), pkt.timeBase, AV_TIME_BASE_Q);
        if Abs(wrapDts - ds.nextDts.value) < Abs(pktDts - ds.nextDts.value) / 10 {
          disabled := false;
        }
      }
      if ds.nextDts.Some? && !disabled {
        var delta := pktDts - ds.nextDts.value;
        if cfg.discont {
          if Abs(delta) as real > cfg.deltaThreshold || pktDts + AV_TIME_BASE / 10 < ds.dts {
            tsOffsetDiscont := tsOffsetDiscont - delta;
            out := Shift(out, -RescaleQ(delta, AV_TIME_BASE_Q, pkt.timeBase));
          }
        } else {
          out := DropFarStamps(ds.nextDts.value, pkt);
        }
      } else if ds.nextDts.None? && !cfg.copyTs && cfg.discont && lastTs.Some? {
        var delta := pktDts - lastTs.value;
        if Abs(delta) as real > cfg.deltaThreshold {
          tsOffsetDiscont := tsOffsetDiscont - delta;
          out := Shift(out, -RescaleQ(delta, AV_TIME_BASE_Q, pkt.timeBase));
        }
      }
      lastTs := Some(RescaleQ(if out.dts.Some? then out.dts.value else RESCALED_NOPTS, pkt.timeBase, AV_TIME_BASE_Q));
    }

    method DropFarStamps(next: int, pkt: Packet) returns (out: Packet)
      requires Positive(pkt.timeBase) && pkt.dts.Some?
      ensures out == pkt.(
        dts := Kept(cfg, pkt.dts, pkt.timeBase, next),
        pts := Kept(cfg, pkt.pts, pkt.timeBase, next))
    {
      out := pkt;
      if Abs(RescaleQ(pkt.dts.value, pkt.timeBase, AV_TIME_BASE_Q) - next) as real > cfg.errorThreshold {
        out := out.(dts := None);
      }
      if pkt.pts.Some? {
        var pktPts := RescaleQ(pkt.pts.value, pkt.timeBase, AV_TIME_BASE_Q);
        if Abs(pktPts - next) as real > cfg.errorThreshold {
          out := out.(pts := None);
        }
      }
    }

    method IstDtsUpdate(i: nat, pkt: Packet)
      requires i < |streams| && ValidStream(streams[i]) && Positive(pkt.timeBase)
      modifies this`streams
      ensures streams == old(streams)[i := Clocked(old(streams)[i], pkt)]
    {
      var ds := streams[i];
      if !ds.sawFirstTs {
        ds := ds.(dts := FirstDts(ds));
        if pkt.pts.Some? {
          ds := ds.(dts := ds.dts + RescaleQ(pkt.pts.value, pkt.timeBase, AV_TIME_BASE_Q));
        }
        ds := ds.(sawFirstTs := true);
      }
      var next := if ds.nextDts.None? then ds.dts else ds.nextDts.value;
      if pkt.dts.Some? {
        next := RescaleQ(pkt.dts.value, pkt.timeBase, AV_TIME_BASE_Q);
      }
      ds := ds.(dts := next);
      streams := streams[i := ds.(nextDts := Some(Advanced(ds.pace, next, pkt)))];
    }
  }
}
