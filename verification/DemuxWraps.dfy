/** What happens to a packet before looping and correction: stamps from before a wrap, the
    input offset and the scale (fftools/ffmpeg_demux.c, ts_fixup lines 414-440). */
module DemuxWraps {
  import opened Arithmetic
  import opened Options
  import opened DemuxTimestamps

  /** A stamp less than a wrap and a half after the window around the start ends up in it, a
      multiple of the wrap away from where it was. */
  lemma UnwrappedNearStart(ts: int, start: int, bits: nat)
    requires bits > 0
    requires start - Pow2(bits - 1) < ts <= start + Pow2(bits - 1) + Pow2(bits)
    ensures var r := Unwrapped(Some(ts), start, bits);
            && r.Some? && start - Pow2(bits - 1) < r.value <= start + Pow2(bits - 1)
            && (r.value == ts || r.value == ts - Pow2(bits))
  {
  }

  /** Some stamp of the packet lies more than half a wrap after the start. */
  predicate BeforeWrap(cfg: Config, s: Stream, pkt: Packet)
    requires s.wrapBits > 0 && Positive(pkt.timeBase) && cfg.startTime.Some?
  {
    var limit := FromMicros(cfg.startTime.value, pkt.timeBase) + Pow2(s.wrapBits - 1);
    (pkt.dts.Some? && pkt.dts.value > limit) || (pkt.pts.Some? && pkt.pts.value > limit)
  }

  predicate Wrappable(cfg: Config, s: Stream, pkts: seq<Packet>) {
    && 0 < s.wrapBits < 64 && cfg.startTime.Some?
    && forall k :: 0 <= k < |pkts| ==>
         && Positive(pkts[k].timeBase)
         && FromMicros(cfg.startTime.value, pkts[k].timeBase) + Pow2(s.wrapBits) < INT64_LIMIT
  }

  /** The packets of one stream as they leave the wrap correction. */
  function Unwrappings(cfg: Config, s: Stream, pkts: seq<Packet>): (r: seq<Packet>)
    requires Wrappable(cfg, s, pkts)
    ensures |r| == |pkts|
    decreases |pkts|
  {
    if pkts == [] then []
    else
      var (t, p) := WrapCorrected(cfg, s, pkts[0]);
      [p] + Unwrappings(cfg, t, pkts[1..])
  }

  function BothUnwrapped(cfg: Config, s: Stream, pkt: Packet): Packet
    requires s.wrapBits > 0 && Positive(pkt.timeBase) && cfg.startTime.Some?
  {
    var start := FromMicros(cfg.startTime.value, pkt.timeBase);
    pkt.(dts := Unwrapped(pkt.dts, start, s.wrapBits), pts := Unwrapped(pkt.pts, start, s.wrapBits))
  }

  lemma {:induction false} DoneStaysDone(cfg: Config, s: Stream, pkts: seq<Packet>)
    requires Wrappable(cfg, s, pkts) && s.wrapDone
    ensures Unwrappings(cfg, s, pkts) == pkts
    decreases |pkts|
  {
    if pkts != [] {
      DoneStaysDone(cfg, s, pkts[1..]);
    }
  }

  /** Correction covers exactly the packets up to the first one that shows no wrap; from there
      on every packet passes unchanged, even one that looks wrapped. */
  lemma {:induction false} WrapsEndOnce(cfg: Config, s: Stream, pkts: seq<Packet>) returns (n: nat)
    requires Wrappable(cfg, s, pkts) && !s.wrapDone
    ensures n <= |pkts|
    ensures forall k :: 0 <= k < n ==>
              BeforeWrap(cfg, s, pkts[k]) && Unwrappings(cfg, s, pkts)[k] == BothUnwrapped(cfg, s, pkts[k])
    ensures n < |pkts| ==> !BeforeWrap(cfg, s, pkts[n])
    ensures forall k :: n <= k < |pkts| ==> Unwrappings(cfg, s, pkts)[k] == pkts[k]
    decreases |pkts|
  {
    if pkts == [] {
      n := 0;
    } else {
      var (t, p) := WrapCorrected(cfg, s, pkts[0]);
      assert t == s.(wrapDone := !BeforeWrap(cfg, s, pkts[0]));
      assert p == BothUnwrapped(cfg, s, pkts[0]);
      if t.wrapDone {
        n := 0;
        DoneStaysDone(cfg, t, pkts[1..]);
      } else {
        assert t == s;
        var m := WrapsEndOnce(cfg, s, pkts[1..]);
        n := m + 1;
        forall k | 0 < k < |pkts|
          ensures pkts[k] == pkts[1..][k - 1]
          ensures Unwrappings(cfg, s, pkts)[k] == Unwrappings(cfg, s, pkts[1..])[k - 1]
        {
        }
      }
    }
  }

  /** Without an offset, at scale one and after the last wrap, packets enter as they are. */
  lemma PreparedUnchanged(cfg: Config, d: Demux, i: nat, pkt: Packet)
    requires i < |d.streams| && d.streams[i].wrapBits > 0 && Positive(pkt.timeBase)
    requires d.streams[i].wrapDone && d.streams[i].tsScale == 1.0 && cfg.tsOffset == 0
    ensures Prepared(cfg, d, i, pkt) == (d, pkt)
  {
    RescaleSign(0, 1 * pkt.timeBase.den, pkt.timeBase.num * AV_TIME_BASE);
    assert FromMicros(0, pkt.timeBase) == 0;
    if pkt.pts.Some? { ScaleOne(pkt.pts.value); }
    if pkt.dts.Some? { ScaleOne(pkt.dts.value); }
    assert d.streams[i := d.streams[i]] == d.streams;
  }

  lemma ScaleOne(ts: int)
    ensures Multiplied(ts, 1.0) == ts
  {
    assert ts as real * 1.0 == ts as real;
  }

  /** Scaling by a factor that is not negative keeps the order of stamps. */
  lemma ScalingKeepsOrder(a: int, b: int, scale: real)
    requires a <= b && scale >= 0.0
    ensures Multiplied(a, scale) <= Multiplied(b, scale)
  {
    var x, y := a as real * scale, b as real * scale;
    assert y - x == (b - a) as real * scale;
    assert (b - a) as real * scale >= 0.0;
  }
}
