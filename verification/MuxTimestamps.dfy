/** Timestamp repair before muxing (fftools/ffmpeg_mux.c: mux_fixup_ts, write_packet,
    of_streamcopy). */
module MuxTimestamps {
  import opened Arithmetic
  import opened Options

  /** The sentinel below every timestamp; a stream that has written nothing compares with it. */
  const AV_NOPTS_VALUE: int := -0x8000_0000_0000_0000

  datatype Packet = Packet(pts: Option<int>, dts: Option<int>, duration: int, timeBase: Rational, size: nat, key: bool)

  /** No stamp collides with the sentinel. */
  predicate Valid(pkt: Packet) {
    && (pkt.pts.Some? ==> pkt.pts.value > AV_NOPTS_VALUE)
    && (pkt.dts.Some? ==> pkt.dts.value > AV_NOPTS_VALUE)
  }

  /** What of the muxer, the stream and the command line the repair depends on; `delta` holds
      for streamcopied audio, whose `frameSize` and `sampleRate` feed the delta clock. */
  datatype Stream = Stream(
    timeBase: Rational,
    noTimestamps: bool,
    nonStrict: bool,
    clamped: bool,
    exitOnError: bool,
    delta: bool,
    frameSize: nat,
    sampleRate: int)

  predicate ValidStream(st: Stream) { Positive(st.timeBase) && st.sampleRate > 0 }

  /** Everything mux_fixup_ts remembers between packets. */
  datatype Memory = Memory(lastMuxDts: Option<int>, deltaLast: Option<int>)

  datatype Fixed = Fixed(pkt: Packet, mem: Memory) | Rejected(mem: Memory)

  function After(last: Option<int>): int {
    (if last.Some? then last.value else AV_NOPTS_VALUE) + 1
  }

  /** Decoding after presentation cannot be: both become the middle of the two and the next
      free dts. */
  function Guessed(pts: Option<int>, dts: Option<int>, last: Option<int>): (Option<int>, Option<int>) {
    if pts.Some? && dts.Some? && dts.value > pts.value then
      var m := Median3(pts.value, dts.value, After(last));
      (Some(m), Some(m))
    else (pts, dts)
  }

  /** The smallest dts the muxer accepts next. */
  function Floor(st: Stream, last: Option<int>): int
    requires last.Some?
  {
    last.value + if st.nonStrict then 0 else 1
  }

  predicate TooEarly(st: Stream, dts: Option<int>, last: Option<int>) {
    st.clamped && dts.Some? && last.Some? && dts.value < Floor(st, last)
  }

  function Raised(pts: Option<int>, dts: int, floor: int): Option<int> {
    if pts.Some? && pts.value >= dts then Some(Max(pts.value, floor)) else pts
  }

  /** The repair of stamps already counted in the stream's time base. */
  function Repair(st: Stream, mem: Memory, pkt: Packet): Fixed {
    if st.noTimestamps then Fixed(pkt, mem.(lastMuxDts := pkt.dts))
    else
      var (pts, dts) := Guessed(pkt.pts, pkt.dts, mem.lastMuxDts);
      if !TooEarly(st, dts, mem.lastMuxDts) then
        Fixed(pkt.(pts := pts, dts := dts), mem.(lastMuxDts := dts))
      else if st.exitOnError then Rejected(mem)
      else
        var floor := Floor(st, mem.lastMuxDts);
        Fixed(pkt.(pts := Raised(pts, dts.value, floor), dts := Some(floor)), mem.(lastMuxDts := Some(floor)))
  }

  /** The first half of mux_fixup_ts: into the stream's time base. `frameDuration` is what the
      codec says about a packet of this size, 0 if nothing. */
  function Rescaled(st: Stream, deltaLast: Option<int>, pkt: Packet, frameDuration: nat): (Packet, Option<int>)
    requires ValidStream(st) && Positive(pkt.timeBase) && (st.delta ==> pkt.dts.Some?)
  {
    var duration := RescaleQ(pkt.duration, pkt.timeBase, st.timeBase);
    if st.delta then
      var samples := if frameDuration == 0 then st.frameSize else frameDuration;
      var (dts, next) := RescaleDelta(pkt.timeBase, pkt.dts.value, Rational(1, st.sampleRate), samples, deltaLast,
          st.timeBase);
      (pkt.(pts := Some(dts), dts := Some(dts), duration := duration, timeBase := st.timeBase), Some(next))
    else
      (pkt.(pts := RescaledStamp(pkt.pts, pkt.timeBase, st.timeBase),
            dts := RescaledStamp(pkt.dts, pkt.timeBase, st.timeBase),
            duration := if pkt.duration > 0 then duration else pkt.duration,
            timeBase := st.timeBase), deltaLast)
  }

  function RescaledStamp(ts: Option<int>, from: Rational, to: Rational): Option<int>
    requires Positive(from) && Positive(to)
  {
    if ts.None? then None else Some(RescaleQ(ts.value, from, to))
  }

  function Fixup(st: Stream, mem: Memory, pkt: Packet, frameDuration: nat): Fixed
    requires ValidStream(st) && Positive(pkt.timeBase) && (st.delta ==> pkt.dts.Some?)
  {
    var (p, d) := Rescaled(st, mem.deltaLast, pkt, frameDuration);
    Repair(st, mem.(deltaLast := d), p)
  }

  class MuxStream {
    const st: Stream
    var lastMuxDts: Option<int>
    var tsRescaleDeltaLast: Option<int>
    var dataSizeMux: nat
    var packetsWritten: nat
    var written: seq<Packet>

    constructor (st: Stream)
      ensures this.st == st && lastMuxDts == None && tsRescaleDeltaLast == None
      ensures dataSizeMux == 0 && packetsWritten == 0 && written == []
    {
      this.st := st;
      lastMuxDts, tsRescaleDeltaLast := None, None;
      dataSizeMux, packetsWritten, written := 0, 0, [];
    }

    ghost function Mem(): Memory
      reads this
    {
      Memory(lastMuxDts, tsRescaleDeltaLast)
    }

    /** The second half of mux_fixup_ts, on stamps in the stream's time base. */
    method RepairTs(pkt: Packet) returns (out: Packet, ok: bool)
      modifies this`lastMuxDts
      ensures var r := Repair(st, old(Mem()), pkt);
        Mem() == r.mem && ok == r.Fixed? && (ok ==> out == r.pkt)
    {
      var pts, dts := pkt.pts, pkt.dts;
      if !st.noTimestamps {
        if dts.Some? && pts.Some? && dts.value > pts.value {
          var next := After(lastMuxDts);
          var guess := pts.value + dts.value + next
                   - Min(pts.value, Min(dts.value, next))
                   - Max(pts.value, Max(dts.value, next));
          pts, dts := Some(guess), Some(guess);
        }
        if st.clamped && dts.Some? && lastMuxDts.Some? {
          var max := lastMuxDts.value + if st.nonStrict then 0 else 1;
          if dts.value < max {
            if st.exitOnError {
              return pkt, false;
            }
            if pts.Some? && pts.value >= dts.value {
              pts := Some(Max(pts.value, max));
            }
            dts := Some(max);
          }
        }
      }
      lastMuxDts := dts;
      out := pkt.(pts := pts, dts := dts);
      ok := true;
    }

    method MuxFixupTs(pkt: Packet, frameDuration: nat) returns (out: Packet, ok: bool)
      requires ValidStream(st) && Positive(pkt.timeBase) && (st.delta ==> pkt.dts.Some?)
      modifies this`lastMuxDts, this`tsRescaleDeltaLast
      ensures var r := Fixup(st, old(Mem()), pkt, frameDuration);
        Mem() == r.mem && ok == r.Fixed? && (ok ==> out == r.pkt)
    {
      var p := pkt;
      if st.delta {
        var duration := frameDuration;
        if duration == 0 {
          duration := st.frameSize;
        }
        var (dts, next) := RescaleDelta(p.timeBase, p.dts.value, Rational(1, st.sampleRate), duration,
            tsRescaleDeltaLast, st.timeBase);
        tsRescaleDeltaLast := Some(next);
        p := p.(dts := Some(dts), pts := Some(dts), duration := RescaleQ(p.duration, p.timeBase, st.timeBase));
      } else {
        p := p.(pts := RescaledStamp(p.pts, p.timeBase, st.timeBase),
                dts := RescaledStamp(p.dts, p.timeBase, st.timeBase));
        if p.duration > 0 {
          p := p.(duration := RescaleQ(p.duration, p.timeBase, st.timeBase));
        }
      }
      p := p.(timeBase := st.timeBase);
      out, ok := RepairTs(p);
    }

    /** write_packet: `full` when the file has reached its size limit, `accepted` the answer
        of av_interleaved_write_frame. */
    method WritePacket(pkt: Packet, frameDuration: nat, full: bool, accepted: bool) returns (ok: bool)
      requires ValidStream(st) && Positive(pkt.timeBase) && (st.delta ==> pkt.dts.Some?)
      modifies this
      ensures full ==> !ok && Mem() == old(Mem()) && written == old(written) && dataSizeMux == old(dataSizeMux)
      ensures !full ==>
        var r := Fixup(st, old(Mem()), pkt, frameDuration);
        && Mem() == r.mem && ok == (r.Fixed? && accepted)
        && dataSizeMux == old(dataSizeMux) + (if r.Fixed? then pkt.size else 0)
        && packetsWritten == old(packetsWritten) + (if r.Fixed? then 1 else 0)
        && written == old(written) + (if ok then [r.pkt] else [])
    {
      if full {
        return false;
      }
      var out;
      out, ok := MuxFixupTs(pkt, frameDuration);
      if !ok {
        return;
      }
      dataSizeMux := dataSizeMux + out.size;
      packetsWritten := packetsWritten + 1;
      if !accepted {
        return false;
      }
      written := written + [out];
    }
  }

  // ---- one packet ----

  /** What a packet asks for: not to be decoded after it is shown. */
  function Target(pkt: Packet): int
    requires pkt.dts.Some?
  {
    if pkt.pts.Some? then Min(pkt.pts.value, pkt.dts.value) else pkt.dts.value
  }

  predicate Strict(st: Stream) { !st.noTimestamps && !st.nonStrict && st.clamped && !st.exitOnError }

  /** The guess and the clamp together are a single maximum, on dts and on pts. */
  lemma StrictRepair(st: Stream, mem: Memory, pkt: Packet)
    requires Strict(st) && Valid(pkt) && pkt.dts.Some?
    ensures var r := Repair(st, mem, pkt);
      && r.Fixed? && r.pkt.dts.Some? && r.mem.lastMuxDts == r.pkt.dts
      && r.pkt.dts.value == Max(Target(pkt), After(mem.lastMuxDts))
      && r.pkt.pts.Some? == pkt.pts.Some?
      && (pkt.pts.Some? ==> r.pkt.pts.value == Max(pkt.pts.value, r.pkt.dts.value))
  {
  }

  /** Where equal dts are allowed the guess can overshoot: the result is the least possible
      exactly when the packet does not straddle the last dts. */
  lemma NonStrictRepair(st: Stream, mem: Memory, pkt: Packet)
    requires !st.noTimestamps && st.nonStrict && st.clamped && !st.exitOnError
    requires pkt.dts.Some? && mem.lastMuxDts.Some?
    ensures var r := Repair(st, mem, pkt);
      var last := mem.lastMuxDts.value;
      && r.Fixed? && r.pkt.dts.Some?
      && (r.pkt.dts.value == Max(Target(pkt), last) <==>
           !(pkt.pts.Some? && pkt.pts.value <= last < pkt.dts.value))
      && Max(Target(pkt), last) <= r.pkt.dts.value <= Max(Target(pkt), last) + 1
  {
  }

  /** -xerror refuses exactly the packets the clamp would have changed. */
  lemma ExitOnErrorRefuses(st: Stream, mem: Memory, pkt: Packet)
    requires st.exitOnError && !st.noTimestamps && st.clamped && !st.nonStrict && pkt.dts.Some?
    ensures var r := Repair(st, mem, pkt);
      && (r.Rejected? <==>
          (mem.lastMuxDts.Some? && Guessed(pkt.pts, pkt.dts, mem.lastMuxDts).1.value <= mem.lastMuxDts.value))
      && (r.Rejected? ==> r.mem == mem)
      && (r.Fixed? ==> r == Repair(st.(exitOnError := false), mem, pkt))
  {
  }

  // ---- runs ----

  predicate Clamping(st: Stream) { !st.noTimestamps && st.clamped && !st.exitOnError }

  /** The dts written for packets that all carry one. */
  function WrittenDts(st: Stream, mem: Memory, pkts: seq<Packet>): (out: seq<int>)
    requires Clamping(st) && forall i :: 0 <= i < |pkts| ==> Valid(pkts[i]) && pkts[i].dts.Some?
    ensures |out| == |pkts|
    decreases |pkts|
  {
    if pkts == [] then []
    else
      var r := Repair(st, mem, pkts[0]);
      [r.pkt.dts.value] + WrittenDts(st, r.mem, pkts[1..])
  }

  /** Stamps a strict muxer could take: increasing from `next` on and never below the targets. */
  ghost predicate Acceptable(next: int, pkts: seq<Packet>, q: seq<int>)
    requires forall i :: 0 <= i < |pkts| ==> pkts[i].dts.Some?
  {
    && |q| == |pkts|
    && (q != [] ==> q[0] >= next)
    && (forall i :: 0 < i < |q| ==> q[i - 1] < q[i])
    && forall i :: 0 <= i < |q| ==> Target(pkts[i]) <= q[i]
  }

  lemma {:induction false} WrittenAcceptable(st: Stream, mem: Memory, pkts: seq<Packet>)
    requires Strict(st) && forall i :: 0 <= i < |pkts| ==> Valid(pkts[i]) && pkts[i].dts.Some?
    ensures Acceptable(After(mem.lastMuxDts), pkts, WrittenDts(st, mem, pkts))
    decreases |pkts|
  {
    if pkts != [] {
      StrictRepair(st, mem, pkts[0]);
      WrittenAcceptable(st, Repair(st, mem, pkts[0]).mem, pkts[1..]);
    }
  }

  /** The repair writes the pointwise least acceptable stamps: no muxer-legal choice could
      have moved any packet less. */
  lemma {:induction false} WrittenIsLeast(st: Stream, mem: Memory, pkts: seq<Packet>, q: seq<int>)
    requires Strict(st) && forall i :: 0 <= i < |pkts| ==> Valid(pkts[i]) && pkts[i].dts.Some?
    requires Acceptable(After(mem.lastMuxDts), pkts, q)
    ensures forall i :: 0 <= i < |q| ==> WrittenDts(st, mem, pkts)[i] <= q[i]
    decreases |pkts|
  {
    if pkts != [] {
      StrictRepair(st, mem, pkts[0]);
      var r := Repair(st, mem, pkts[0]);
      assert Acceptable(After(r.mem.lastMuxDts), pkts[1..], q[1..]) by {
        assert q[1..] != [] ==> q[0] < q[1];
      }
      WrittenIsLeast(st, r.mem, pkts[1..], q[1..]);
      forall i | 0 <= i < |q|
        ensures WrittenDts(st, mem, pkts)[i] <= q[i]
      {
        assert i > 0 ==> q[i] == q[1..][i - 1];
      }
    }
  }

  // ---- runs where equal dts are allowed ----

  predicate Lenient(st: Stream) { Clamping(st) && st.nonStrict }

  /** The packet's stamps lie on either side of the last dts. */
  predicate Straddles(last: Option<int>, pkt: Packet) {
    last.Some? && pkt.pts.Some? && pkt.dts.Some? && pkt.pts.value <= last.value < pkt.dts.value
  }

  function NotBelow(last: Option<int>, target: int): int {
    if last.Some? then Max(target, last.value) else target
  }

  lemma LenientRepair(st: Stream, mem: Memory, pkt: Packet)
    requires Lenient(st) && Valid(pkt) && pkt.dts.Some?
    ensures var r := Repair(st, mem, pkt);
      && r.Fixed? && r.pkt.dts.Some? && r.mem.lastMuxDts == r.pkt.dts
      && r.pkt.dts.value == NotBelow(mem.lastMuxDts, Target(pkt)) + if Straddles(mem.lastMuxDts, pkt) then 1 else 0
  {
  }

  predicate NoneStraddles(st: Stream, mem: Memory, pkts: seq<Packet>)
    requires Lenient(st) && forall i :: 0 <= i < |pkts| ==> Valid(pkts[i]) && pkts[i].dts.Some?
    decreases |pkts|
  {
    pkts == [] || (!Straddles(mem.lastMuxDts, pkts[0]) && NoneStraddles(st, Repair(st, mem, pkts[0]).mem, pkts[1..]))
  }

  /** Stamps a lenient muxer could take: never decreasing, never below the targets. */
  ghost predicate LenientlyAcceptable(last: Option<int>, pkts: seq<Packet>, q: seq<int>)
    requires forall i :: 0 <= i < |pkts| ==> pkts[i].dts.Some?
    decreases |pkts|
  {
    && |q| == |pkts|
    && (pkts != [] ==> q[0] >= NotBelow(last, Target(pkts[0])) && LenientlyAcceptable(Some(q[0]), pkts[1..], q[1..]))
  }

  /** Where equal dts are allowed the written ones never decrease. */
  lemma {:induction false} LenientlyWritten(st: Stream, mem: Memory, pkts: seq<Packet>)
    requires Lenient(st) && forall i :: 0 <= i < |pkts| ==> Valid(pkts[i]) && pkts[i].dts.Some?
    ensures LenientlyAcceptable(mem.lastMuxDts, pkts, WrittenDts(st, mem, pkts))
    decreases |pkts|
  {
    if pkts != [] {
      LenientRepair(st, mem, pkts[0]);
      LenientlyWritten(st, Repair(st, mem, pkts[0]).mem, pkts[1..]);
    }
  }

  predicate NowhereAbove(p: seq<int>, q: seq<int>)
    requires |p| == |q|
  {
    forall i :: 0 <= i < |p| ==> p[i] <= q[i]
  }

  /** A floor that is higher to begin with accepts fewer sequences. */
  lemma LowerFloor(last: Option<int>, higher: int, pkts: seq<Packet>, q: seq<int>)
    requires forall i :: 0 <= i < |pkts| ==> pkts[i].dts.Some?
    requires last.Some? && last.value <= higher && LenientlyAcceptable(Some(higher), pkts, q)
    ensures LenientlyAcceptable(last, pkts, q)
  {
  }

  lemma {:induction false} LenientLeast(st: Stream, mem: Memory, pkts: seq<Packet>, q: seq<int>)
    requires Lenient(st) && forall i :: 0 <= i < |pkts| ==> Valid(pkts[i]) && pkts[i].dts.Some?
    requires NoneStraddles(st, mem, pkts) && LenientlyAcceptable(mem.lastMuxDts, pkts, q)
    ensures NowhereAbove(WrittenDts(st, mem, pkts), q)
    decreases |pkts|
  {
    if pkts != [] {
      LenientRepair(st, mem, pkts[0]);
      var r := Repair(st, mem, pkts[0]);
      LowerFloor(r.mem.lastMuxDts, q[0], pkts[1..], q[1..]);
      LenientLeast(st, r.mem, pkts[1..], q[1..]);
      assert q == [q[0]] + q[1..];
    }
  }

  /** The running maximum of the targets. */
  function LeastRun(last: Option<int>, pkts: seq<Packet>): (q: seq<int>)
    requires forall i :: 0 <= i < |pkts| ==> pkts[i].dts.Some?
    ensures |q| == |pkts|
    decreases |pkts|
  {
    if pkts == [] then []
    else
      var first := NotBelow(last, Target(pkts[0]));
      [first] + LeastRun(Some(first), pkts[1..])
  }

  lemma {:induction false} LeastRunAcceptable(last: Option<int>, pkts: seq<Packet>)
    requires forall i :: 0 <= i < |pkts| ==> pkts[i].dts.Some?
    ensures LenientlyAcceptable(last, pkts, LeastRun(last, pkts))
    decreases |pkts|
  {
    if pkts != [] {
      LeastRunAcceptable(Some(NotBelow(last, Target(pkts[0]))), pkts[1..]);
    }
  }

  /** After a packet that straddles, some acceptable choice is below the written stamps. */
  lemma {:induction false} StraddlingBeatable(st: Stream, mem: Memory, pkts: seq<Packet>) returns (q: seq<int>)
    requires Lenient(st) && forall i :: 0 <= i < |pkts| ==> Valid(pkts[i]) && pkts[i].dts.Some?
    requires !NoneStraddles(st, mem, pkts)
    ensures LenientlyAcceptable(mem.lastMuxDts, pkts, q) && !NowhereAbove(WrittenDts(st, mem, pkts), q)
    decreases |pkts|
  {
    LenientRepair(st, mem, pkts[0]);
    var r := Repair(st, mem, pkts[0]);
    if Straddles(mem.lastMuxDts, pkts[0]) {
      q := LeastRun(mem.lastMuxDts, pkts);
      LeastRunAcceptable(mem.lastMuxDts, pkts);
      assert WrittenDts(st, mem, pkts)[0] > q[0];
    } else {
      var later := StraddlingBeatable(st, r.mem, pkts[1..]);
      q := [r.pkt.dts.value] + later;
      assert q[1..] == later;
      var i :| 0 <= i < |later| && WrittenDts(st, r.mem, pkts[1..])[i] > later[i];
      assert WrittenDts(st, mem, pkts)[i + 1] > q[i + 1];
    }
  }

  /** Over a run they are the pointwise least exactly if no packet straddles the dts before it. */
  lemma LenientLeastExactly(st: Stream, mem: Memory, pkts: seq<Packet>)
    requires Lenient(st) && forall i :: 0 <= i < |pkts| ==> Valid(pkts[i]) && pkts[i].dts.Some?
    ensures (forall q :: LenientlyAcceptable(mem.lastMuxDts, pkts, q) ==> NowhereAbove(WrittenDts(st, mem, pkts), q))
            <==> NoneStraddles(st, mem, pkts)
  {
    if NoneStraddles(st, mem, pkts) {
      forall q | LenientlyAcceptable(mem.lastMuxDts, pkts, q)
        ensures NowhereAbove(WrittenDts(st, mem, pkts), q)
      {
        LenientLeast(st, mem, pkts, q);
      }
    } else {
      var q := StraddlingBeatable(st, mem, pkts);
    }
  }

  /** A packet without dts wipes the memory, so the next one may go back in time. */
  lemma MissingDtsForgets(st: Stream, mem: Memory, pkt: Packet)
    requires Strict(st) && pkt.dts.None?
    ensures Repair(st, mem, pkt) == Fixed(pkt, mem.(lastMuxDts := None))
  {
  }

  /** Rescaling keeps the order of stamps, and a pts that trails its dts by a tick of the
      stream or more is still seen to do so. */
  lemma RescalingKeepsOrder(st: Stream, deltaLast: Option<int>, pkt: Packet)
    requires ValidStream(st) && Positive(pkt.timeBase) && !st.delta && pkt.pts.Some? && pkt.dts.Some?
    ensures var p := Rescaled(st, deltaLast, pkt, 0).0;
      var from, to := pkt.timeBase.num * st.timeBase.den, st.timeBase.num * pkt.timeBase.den;
      && p.pts.Some? && p.dts.Some?
      && (pkt.dts.value <= pkt.pts.value ==> p.dts.value <= p.pts.value)
      && (pkt.pts.value <= pkt.dts.value ==> p.pts.value <= p.dts.value)
      && (pkt.pts.value * from + to <= pkt.dts.value * from ==> p.pts.value < p.dts.value)
  {
    RescaleQMonotone(Min(pkt.pts.value, pkt.dts.value), Max(pkt.pts.value, pkt.dts.value), pkt.timeBase, st.timeBase);
    var from, to := pkt.timeBase.num * st.timeBase.den, st.timeBase.num * pkt.timeBase.den;
    assert from > 0 && to > 0;
    if pkt.pts.value * from + to <= pkt.dts.value * from {
      RescaleStrict(pkt.pts.value, pkt.dts.value, from, to);
    }
  }

  // ---- where streamcopy starts and stops (of_streamcopy) ----

  /** Times in AV_TIME_BASE units; `audio` decides what becomes of pts. */
  datatype CopyConfig = CopyConfig(
    startTime: Option<int>,
    recordingTime: Option<int>,
    copyInitialNonkeyframes: bool,
    copyPriorStart: bool,
    tsCopyStart: int,
    audio: bool)

  datatype Copied = Pass(pkt: Packet) | Skip | Stop

  /** `est` is the demuxer's dts estimate, the sentinel when there is none. */
  datatype Offered = Offered(pkt: Packet, est: int)

  function StartOf(cfg: CopyConfig): int { if cfg.startTime.Some? then cfg.startTime.value else 0 }

  predicate Over(cfg: CopyConfig, o: Offered) {
    cfg.recordingTime.Some? && o.est >= cfg.recordingTime.value + StartOf(cfg)
  }

  /** The packet may open the copy. */
  predicate Opens(cfg: CopyConfig, o: Offered)
    requires Positive(o.pkt.timeBase)
  {
    && (o.pkt.key || cfg.copyInitialNonkeyframes)
    && (cfg.copyPriorStart || if o.pkt.pts.None? then o.est >= cfg.tsCopyStart
        else o.pkt.pts.value >= RescaleQ(cfg.tsCopyStart, AV_TIME_BASE_Q, o.pkt.timeBase))
    && (cfg.startTime.Some? ==> o.est >= cfg.startTime.value)
  }

  function Shifted(cfg: CopyConfig, o: Offered): Packet
    requires Positive(o.pkt.timeBase)
  {
    var off := RescaleQ(StartOf(cfg), AV_TIME_BASE_Q, o.pkt.timeBase);
    var dts := if o.pkt.dts.Some? then o.pkt.dts.value else RescaleQ(o.est, AV_TIME_BASE_Q, o.pkt.timeBase);
    var pts := if o.pkt.dts.Some? && cfg.audio then Some(o.pkt.dts.value - off)
               else if o.pkt.pts.Some? then Some(o.pkt.pts.value - off) else None;
    o.pkt.(pts := pts, dts := Some(dts - off))
  }

  class StreamCopier {
    const cfg: CopyConfig
    var started: bool

    constructor (cfg: CopyConfig)
      ensures this.cfg == cfg && !started
    {
      this.cfg := cfg;
      started := false;
    }

    method OfStreamcopy(o: Offered) returns (r: Copied)
      requires Positive(o.pkt.timeBase)
      modifies this
      ensures Over(cfg, o) ==> r == Stop && started == old(started)
      ensures !Over(cfg, o) ==>
        && started == (old(started) || Opens(cfg, o))
        && r == if started then Pass(Shifted(cfg, o)) else Skip
    {
      var pkt := o.pkt;
      var startTime := if cfg.startTime.None? then 0 else cfg.startTime.value;
      if cfg.recordingTime.Some? && o.est >= cfg.recordingTime.value + startTime {
        return Stop;
      }
      if !started && !pkt.key && !cfg.copyInitialNonkeyframes {
        return Skip;
      }
      if !started {
        if !cfg.copyPriorStart && (if pkt.pts.None? then o.est < cfg.tsCopyStart
            else pkt.pts.value < RescaleQ(cfg.tsCopyStart, AV_TIME_BASE_Q, pkt.timeBase)) {
          return Skip;
        }
        if cfg.startTime.Some? && o.est < cfg.startTime.value {
          return Skip;
        }
      }
      var tsOffset := RescaleQ(startTime, AV_TIME_BASE_Q, pkt.timeBase);
      if pkt.pts.Some? {
        pkt := pkt.(pts := Some(pkt.pts.value - tsOffset));
      }
      if pkt.dts.None? {
        pkt := pkt.(dts := Some(RescaleQ(o.est, AV_TIME_BASE_Q, pkt.timeBase)));
      } else if cfg.audio {
        pkt := pkt.(pts := Some(pkt.dts.value - tsOffset));
      }
      pkt := pkt.(dts := Some(pkt.dts.value - tsOffset));
      started := true;
      r := Pass(pkt);
    }

    /** A whole stream, up to the end of the recording: what is copied is a contiguous stretch
        that opens with the first packet allowed to open it. */
    method CopyAll(offered: seq<Offered>) returns (out: seq<Packet>, ghost first: nat, ghost end: nat)
      requires forall i :: 0 <= i < |offered| ==> Positive(offered[i].pkt.timeBase)
      requires !started
      modifies this
      ensures first <= end <= |offered|
      ensures end < |offered| ==> Over(cfg, offered[end])
      ensures forall i :: 0 <= i < end ==> !Over(cfg, offered[i])
      ensures forall i :: 0 <= i < first ==> !Opens(cfg, offered[i])
      ensures first < end ==> Opens(cfg, offered[first])
      ensures |out| == end - first
      ensures forall i :: 0 <= i < |out| ==> out[i] == Shifted(cfg, offered[first + i])
    {
      out := [];
      first, end := 0, 0;
      var i := 0;
      while i < |offered|
        invariant i == end && first <= end <= |offered| && |out| == end - first
        invariant started <==> first < end
        invariant forall i :: 0 <= i < end ==> !Over(cfg, offered[i])
        invariant forall i :: 0 <= i < first ==> !Opens(cfg, offered[i])
        invariant first < end ==> Opens(cfg, offered[first])
        invariant forall i :: 0 <= i < |out| ==> out[i] == Shifted(cfg, offered[first + i])
      {
        var r := OfStreamcopy(offered[i]);
        if r.Stop? {
          return;
        }
        if r.Pass? {
          out := out + [r.pkt];
        } else {
          first := first + 1;
        }
        i := i + 1;
        end := end + 1;
      }
    }
  }
}
