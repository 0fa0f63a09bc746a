/** -stream_loop over several streams, each in its own time base: passes never overlap by more
    than the rounding of their stamps. */
module DemuxLoopStreams {
  import opened Options
  import opened Arithmetic
  import opened DemuxTimestamps
  import opened DemuxLoops

  /** Seconds per tick. */
  function Tick(tb: Rational): real
    requires Positive(tb)
  {
    tb.num as real / tb.den as real
  }

  function Time(s: Stamp): real
    requires Positive(s.tb)
  {
    s.ts as real * Tick(s.tb)
  }

  function StartOf(pkt: Packet): Stamp
    requires pkt.pts.Some?
  {
    Stamp(pkt.pts.value, pkt.timeBase)
  }

  function FinishOf(pkt: Packet, have: bool): Stamp
    requires pkt.pts.Some?
  {
    Stamp(EndOf(pkt, have), pkt.timeBase)
  }

  // ---- comparing and rescaling in seconds ----

  lemma ScaledTime(s: Stamp, k: int)
    requires Positive(s.tb)
    ensures Time(s) * (s.tb.den as real * k as real) == (s.ts * s.tb.num * k) as real
  {
    var t := Tick(s.tb);
    assert t * s.tb.den as real == s.tb.num as real;
    assert (s.ts * s.tb.num) as real == s.ts as real * s.tb.num as real;
    assert (s.ts * s.tb.num * k) as real == (s.ts * s.tb.num) as real * k as real;
    Regroup(s.ts as real, t, s.tb.den as real, k as real, s.tb.num as real);
  }

  lemma Regroup(x: real, t: real, d: real, k: real, n: real)
    requires t * d == n
    ensures x * t * (d * k) == x * n * k
  {
    assert x * t * (d * k) == x * (t * d) * k;
  }

  lemma PositiveProduct(x: int, y: int)
    requires x > 0 && y > 0
    ensures x as real * y as real > 0.0
  {
  }

  lemma OrderScales(x: real, y: real, k: real)
    requires k > 0.0
    ensures x < y <==> x * k < y * k
  {
    assert y * k - x * k == (y - x) * k;
    assert y - x > 0.0 ==> (y - x) * k > 0.0;
    assert y - x <= 0.0 ==> (y - x) * k <= 0.0;
  }

  lemma CompareIsTime(a: Stamp, b: Stamp)
    requires Positive(a.tb) && Positive(b.tb)
    ensures CompareTs(a, b) < 0 <==> Time(a) < Time(b)
    ensures CompareTs(a, b) > 0 <==> Time(b) < Time(a)
  {
    ScaledTime(a, b.tb.den);
    ScaledTime(b, a.tb.den);
    var k := a.tb.den as real * b.tb.den as real;
    PositiveProduct(a.tb.den, b.tb.den);
    assert k == b.tb.den as real * a.tb.den as real;
    OrderScales(Time(a), Time(b), k);
    OrderScales(Time(b), Time(a), k);
  }

  lemma RescaledProducts(s: Stamp, to: Rational)
    requires Positive(s.tb) && Positive(to)
    ensures var r := RescaleQ(s.ts, s.tb, to);
            -(to.num * s.tb.den) <= 2 * (r * to.num * s.tb.den - s.ts * s.tb.num * to.den) <= to.num * s.tb.den
  {
    var b, c := s.tb.num * to.den, to.num * s.tb.den;
    RescaleError(s.ts, b, c);
    ProductAssociates(Rescale(s.ts, b, c), to.num, s.tb.den);
    ProductAssociates(s.ts, s.tb.num, to.den);
  }

  lemma RealProduct(a: int, b: int, c: int)
    ensures (a * b * c) as real == a as real * b as real * c as real
  {
    assert (a * b * c) as real == (a * b) as real * c as real;
  }

  /** Rescaling is off by at most half a tick of the target. */
  lemma RescaleTime(s: Stamp, to: Rational)
    requires Positive(s.tb) && Positive(to)
    ensures -Tick(to) / 2.0 <= Time(Stamp(RescaleQ(s.ts, s.tb, to), to)) - Time(s) <= Tick(to) / 2.0
  {
    RescaledProducts(s, to);
    TimeApart(RescaleQ(s.ts, s.tb, to), s, to);
  }

  lemma TimeApart(q: int, s: Stamp, to: Rational)
    requires Positive(s.tb) && Positive(to)
    requires -(to.num * s.tb.den) <= 2 * (q * to.num * s.tb.den - s.ts * s.tb.num * to.den) <= to.num * s.tb.den
    ensures -Tick(to) / 2.0 <= Time(Stamp(q, to)) - Time(s) <= Tick(to) / 2.0
  {
    InReals(q, s.ts, to.num, to.den, s.tb.num, s.tb.den);
    Divided(q as real, s.ts as real, to.num as real, to.den as real, s.tb.num as real, s.tb.den as real);
  }

  lemma InReals(q: int, a: int, n: int, d: int, m: int, e: int)
    requires -(n * e) <= 2 * (q * n * e - a * m * d) <= n * e
    ensures -(n as real * e as real) <=
            2.0 * (q as real * n as real * e as real - a as real * m as real * d as real) <= n as real * e as real
  {
    RealProduct(q, n, e);
    RealProduct(a, m, d);
    var x, y, c := q * n * e, a * m * d, n * e;
    assert c as real == n as real * e as real;
    assert (2 * (x - y)) as real == 2.0 * (x as real - y as real);
  }

  lemma Divided(q: real, a: real, n: real, d: real, m: real, e: real)
    requires d > 0.0 && e > 0.0
    requires -(n * e) <= 2.0 * (q * n * e - a * m * d) <= n * e
    ensures -(n / d) / 2.0 <= q * (n / d) - a * (m / e) <= (n / d) / 2.0
  {
    var t, u := n / d, m / e;
    assert t * d == n && u * e == m;
    assert d * e > 0.0;
    Regroup(q, t, d, e, n);
    Regroup(a, u, e, d, m);
    Regroup(1.0, t, d, e, n);
    Swap(d, e);
    HalfATick(q * t, a * u, t, d * e);
  }

  lemma Swap(d: real, e: real)
    ensures d * e == e * d
  {
  }

  lemma HalfATick(x: real, y: real, t: real, k: real)
    requires k > 0.0 && -(t * k) <= 2.0 * (x * k - y * k) <= t * k
    ensures -t / 2.0 <= x - y <= t / 2.0
  {
    var e := 2.0 * (x - y);
    assert e * k == 2.0 * (x * k - y * k);
    OrderScales(t, e, k);
    OrderScales(e, -t, k);
    assert -t * k == -(t * k);
  }

  // ---- what a pass records ----

  predicate After(m: Option<Stamp>, t: real) { m.Some? && Positive(m.value.tb) && t <= Time(m.value) }

  predicate Before(m: Option<Stamp>, t: real) { m.Some? && Positive(m.value.tb) && Time(m.value) <= t }

  /** The recorded extent only ever widens. */
  predicate Wider(l: Loop, r: Loop)
    requires ValidLoop(l) && ValidLoop(r)
  {
    && (l.maxPts.Some? ==> After(r.maxPts, Time(l.maxPts.value)))
    && (l.minPts.Some? ==> Before(r.minPts, Time(l.minPts.value)))
  }

  /** The extent takes in the packet. */
  predicate Spans(l: Loop, pkt: Packet, have: bool)
    requires Positive(pkt.timeBase)
  {
    pkt.pts.Some? ==> After(l.maxPts, Time(FinishOf(pkt, have))) && Before(l.minPts, Time(StartOf(pkt)))
  }

  lemma LaterIsLater(m: Option<Stamp>, s: Stamp)
    requires Positive(s.tb) && (m.Some? ==> Positive(m.value.tb))
    ensures After(Later(m, s), Time(s)) && (m.Some? ==> After(Later(m, s), Time(m.value)))
    ensures Before(Earlier(m, s), Time(s)) && (m.Some? ==> Before(Earlier(m, s), Time(m.value)))
  {
    if m.Some? { CompareIsTime(m.value, s); }
  }

  lemma PacketSpanned(l: Loop, pkt: Packet, have: bool)
    requires ValidLoop(l) && Positive(pkt.timeBase)
    ensures var (r, out) := Looped(l, pkt, have);
            && ValidLoop(r) && r.duration == l.duration && out.timeBase == pkt.timeBase
            && Wider(l, r) && Spans(r, out, have)
  {
    var (r, out) := Looped(l, pkt, have);
    if pkt.pts.Some? {
      LaterIsLater(l.maxPts, FinishOf(out, have));
      LaterIsLater(l.minPts, StartOf(out));
    }
  }

  lemma SpansWider(l: Loop, r: Loop, pkt: Packet, have: bool)
    requires ValidLoop(l) && ValidLoop(r) && Positive(pkt.timeBase) && Wider(l, r) && Spans(l, pkt, have)
    ensures Spans(r, pkt, have)
  {
  }

  lemma WiderTrans(l: Loop, m: Loop, r: Loop)
    requires ValidLoop(l) && ValidLoop(m) && ValidLoop(r) && Wider(l, m) && Wider(m, r)
    ensures Wider(l, r)
  {
  }

  /** A pass takes in every packet as it leaves. */
  lemma {:induction false} PassSpans(l: Loop, pkts: seq<Packet>, have: bool)
    requires ValidLoop(l) && Timed(pkts)
    ensures Wider(l, Pass(l, pkts, have))
    ensures forall k :: 0 <= k < |pkts| ==> Spans(Pass(l, pkts, have), Looped(l, pkts[k], have).1, have)
    decreases |pkts|
  {
    if pkts != [] {
      var n := |pkts| - 1;
      var m, r := Pass(l, pkts[..n], have), Pass(l, pkts, have);
      PassSpans(l, pkts[..n], have);
      PacketSpanned(m, pkts[n], have);
      WiderTrans(l, m, r);
      assert Looped(m, pkts[n], have).1 == Looped(l, pkts[n], have).1;
      forall k | 0 <= k < n
        ensures Spans(r, Looped(l, pkts[k], have).1, have)
      {
        assert pkts[..n][k] == pkts[k];
        SpansWider(m, r, Looped(l, pkts[k], have).1, have);
      }
    }
  }

  lemma RewoundWider(l: Loop, end: Option<Stamp>)
    requires ValidLoop(l) && (end.Some? ==> Positive(end.value.tb))
    ensures var r := Rewound(l, end);
            ValidLoop(r) && Wider(l, r) && r.minPts == l.minPts && (end.Some? ==> After(r.maxPts, Time(end.value)))
  {
    if end.Some? { LaterIsLater(l.maxPts, end.value); }
  }

  /** The extent reaches back to where the content itself starts. */
  predicate FromTheStart(l: Loop, pkts: seq<Packet>)
    requires Timed(pkts)
  {
    forall k :: 0 <= k < |pkts| && pkts[k].pts.Some? ==> Before(l.minPts, Time(StartOf(pkts[k])))
  }

  lemma FirstPassUnmoved(pkt: Packet, have: bool)
    requires Positive(pkt.timeBase)
    ensures Looped(FIRST_PASS, pkt, have).1 == pkt
  {
    RescaleSign(0, 1 * pkt.timeBase.den, pkt.timeBase.num * 1);
    assert RescaleQ(0, Rational(1, 1), pkt.timeBase) == 0;
  }

  lemma {:induction false} ReplayedFromTheStart(pkts: seq<Packet>, have: bool, ends: seq<Option<Stamp>>)
    requires Timed(pkts) && TimedEnds(ends)
    ensures ends != [] ==> FromTheStart(Replayed(pkts, have, ends), pkts)
    decreases |ends|
  {
    if ends != [] {
      var n := |ends| - 1;
      var l := Replayed(pkts, have, ends[..n]);
      var p := Pass(l, pkts, have);
      ReplayedFromTheStart(pkts, have, ends[..n]);
      PassSpans(l, pkts, have);
      RewoundWider(p, ends[n]);
      forall k | 0 <= k < |pkts| && pkts[k].pts.Some?
        ensures Before(p.minPts, Time(StartOf(pkts[k])))
      {
        if n == 0 { FirstPassUnmoved(pkts[k], have); }
      }
    }
  }

  // ---- passes in sequence ----

  /** Rounding of a packet's stamp, and of the content's start to the time base of its end. */
  function Slack(pkt: Packet, last: Stamp): real
    requires Positive(pkt.timeBase) && Positive(last.tb)
  {
    (Tick(pkt.timeBase) + Tick(last.tb)) / 2.0
  }

  lemma TimeAdds(a: int, b: int, tb: Rational)
    requires Positive(tb)
    ensures Time(Stamp(a + b, tb)) == Time(Stamp(a, tb)) + Time(Stamp(b, tb))
  {
    assert (a + b) as real == a as real + b as real;
    Distributes(a as real, b as real, Tick(tb));
  }

  lemma Distributes(a: real, b: real, t: real)
    ensures (a + b) * t == a * t + b * t
  {
  }

  /** A packet of the next pass starts no earlier than the recorded end, but for the slack. */
  lemma StartsBehind(l: Loop, end: Option<Stamp>, pkt: Packet, have: bool)
    requires ValidLoop(l) && l.maxPts.Some? && (end.Some? ==> Positive(end.value.tb))
    requires Positive(pkt.timeBase) && pkt.pts.Some? && Before(l.minPts, Time(StartOf(pkt)))
    ensures var r := Rewound(l, end);
            var out := Looped(r, pkt, have).1;
            r.maxPts.Some? && Time(StartOf(out)) >= Time(r.maxPts.value) - Slack(pkt, r.maxPts.value)
  {
    RewoundWider(l, end);
    var r := Rewound(l, end);
    var max, min := r.maxPts.value, l.minPts.value;
    var back := RescaleQ(min.ts, min.tb, max.tb);
    assert r.duration == Stamp(max.ts - back, max.tb);
    RescaleTime(min, max.tb);
    TimeAdds(max.ts - back, back, max.tb);
    RescaleTime(r.duration, pkt.timeBase);
    TimeAdds(pkt.pts.value, RescaleQ(r.duration.ts, r.duration.tb, pkt.timeBase), pkt.timeBase);
  }

  /** Whatever the time bases and the ends the audio decoders report: a packet of a pass starts
      no earlier than any packet of the pass before it ended, nor than its audio ended, but for
      half a tick of its own and half a tick of the recorded end. */
  lemma PassesBarelyOverlap(pkts: seq<Packet>, have: bool, ends: seq<Option<Stamp>>, i: nat, j: nat)
    requires Timed(pkts) && TimedEnds(ends) && ends != []
    requires i < |pkts| && j < |pkts| && pkts[i].pts.Some? && pkts[j].pts.Some?
    ensures var l := Replayed(pkts, have, ends);
            var before := Looped(Replayed(pkts, have, ends[..|ends| - 1]), pkts[i], have).1;
            var after := Looped(l, pkts[j], have).1;
            var end := ends[|ends| - 1];
            && l.maxPts.Some?
            && Time(StartOf(after)) >= Time(FinishOf(before, have)) - Slack(pkts[j], l.maxPts.value)
            && (end.Some? ==> Time(StartOf(after)) >= Time(end.value) - Slack(pkts[j], l.maxPts.value))
  {
    var n := |ends| - 1;
    var was := Replayed(pkts, have, ends[..n]);
    var p := Pass(was, pkts, have);
    PassSpans(was, pkts, have);
    assert Spans(p, Looped(was, pkts[i], have).1, have);
    RewoundWider(p, ends[n]);
    ReplayedFromTheStart(pkts, have, ends);
    StartsBehind(p, ends[n], pkts[j], have);
  }
}
