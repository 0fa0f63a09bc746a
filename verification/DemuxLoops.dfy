/** -stream_loop: how far each pass over the input is moved (fftools/ffmpeg_demux.c,
    seek_to_start and ts_fixup lines 442-466). */
module DemuxLoops {
  import opened Arithmetic
  import opened Options
  import opened DemuxTimestamps

  /** One pass over the file: its packets in order. */
  predicate Timed(pkts: seq<Packet>) {
    forall k :: 0 <= k < |pkts| ==> Positive(pkts[k].timeBase)
  }

  /** What the audio decoders reported after each pass. */
  predicate TimedEnds(ends: seq<Option<Stamp>>) {
    forall k :: 0 <= k < |ends| && ends[k].Some? ==> Positive(ends[k].value.tb)
  }

  /** A pass of one stream, in time base `tb`. */
  predicate Content(pkts: seq<Packet>, tb: Rational) {
    && Positive(tb)
    && forall k :: 0 <= k < |pkts| ==> pkts[k].timeBase == tb && pkts[k].duration >= 0
  }

  predicate InBase(ends: seq<Option<Stamp>>, tb: Rational) {
    forall k :: 0 <= k < |ends| && ends[k].Some? ==> ends[k].value.tb == tb
  }

  function EndOf(pkt: Packet, haveAudioDec: bool): int
    requires pkt.pts.Some?
  {
    pkt.pts.value + if haveAudioDec then 0 else pkt.duration
  }

  /** `lo` is the least pts of the pass and `hi` the greatest end of a packet. */
  predicate Extent(pkts: seq<Packet>, haveAudioDec: bool, lo: int, hi: int) {
    && (forall k :: 0 <= k < |pkts| && pkts[k].pts.Some? ==>
          lo <= pkts[k].pts.value && EndOf(pkts[k], haveAudioDec) <= hi)
    && (exists k :: 0 <= k < |pkts| && pkts[k].pts == Some(lo))
    && (exists k :: 0 <= k < |pkts| && pkts[k].pts.Some? && EndOf(pkts[k], haveAudioDec) == hi)
  }

  function Pass(l: Loop, pkts: seq<Packet>, haveAudioDec: bool): (r: Loop)
    requires ValidLoop(l) && Timed(pkts)
    ensures ValidLoop(r) && r.duration == l.duration
    decreases |pkts|
  {
    if pkts == [] then l
    else Looped(Pass(l, pkts[..|pkts| - 1], haveAudioDec), pkts[|pkts| - 1], haveAudioDec).0
  }

  /** The state at the start of pass number |ends|, when the audio decoders reported `ends[k]`
      after pass k. */
  function Replayed(pkts: seq<Packet>, haveAudioDec: bool, ends: seq<Option<Stamp>>): (r: Loop)
    requires Timed(pkts) && TimedEnds(ends)
    ensures ValidLoop(r)
    decreases |ends|
  {
    if ends == [] then FIRST_PASS
    else
      Rewound(Pass(Replayed(pkts, haveAudioDec, ends[..|ends| - 1]), pkts, haveAudioDec), ends[|ends| - 1])
  }

  /** The reference: each pass starts where the previous one, or its audio, ended. */
  function StartShift(lo: int, hi: int, ends: seq<Option<Stamp>>): int
    decreases |ends|
  {
    if ends == [] then 0
    else
      var last := ends[|ends| - 1];
      var before := StartShift(lo, hi, ends[..|ends| - 1]);
      var end := hi + before;
      Max(end, if last.Some? then last.value.ts else end) - lo
  }

  lemma CompareInOneBase(a: int, b: int, tb: Rational)
    requires Positive(tb)
    ensures CompareTs(Stamp(a, tb), Stamp(b, tb)) < 0 <==> a < b
    ensures CompareTs(Stamp(a, tb), Stamp(b, tb)) > 0 <==> a > b
  {
    var w := tb.num * tb.den;
    assert w > 0;
    assert CompareTs(Stamp(a, tb), Stamp(b, tb)) == (a - b) * w;
    assert a < b ==> (a - b) * w < 0;
    assert a > b ==> (a - b) * w > 0;
  }

  /** Everything a pass records lies in `tb`, and it moves stamps by exactly `shift`. */
  predicate Shifting(l: Loop, tb: Rational, shift: int) {
    && ValidLoop(l) && Positive(tb)
    && RescaleQ(l.duration.ts, l.duration.tb, tb) == shift
    && (l.minPts.Some? ==> l.minPts.value.tb == tb)
    && (l.maxPts.Some? ==> l.maxPts.value.tb == tb)
  }

  /** `m` is the bound `old` or the stamp of a packet seen in this pass, and bounds them all. */
  predicate LeastSeen(pkts: seq<Packet>, shift: int, was: Option<Stamp>, m: Option<Stamp>) {
    && (was.Some? ==> m.Some? && m.value.ts <= was.value.ts)
    && (forall k :: 0 <= k < |pkts| && pkts[k].pts.Some? ==> m.Some? && m.value.ts <= pkts[k].pts.value + shift)
    && (m == was || exists k :: 0 <= k < |pkts| && pkts[k].pts.Some? && m.value.ts == pkts[k].pts.value + shift)
  }

  predicate GreatestSeen(pkts: seq<Packet>, haveAudioDec: bool, shift: int, was: Option<Stamp>, m: Option<Stamp>) {
    && (was.Some? ==> m.Some? && m.value.ts >= was.value.ts)
    && (forall k :: 0 <= k < |pkts| && pkts[k].pts.Some? ==>
          m.Some? && m.value.ts >= EndOf(pkts[k], haveAudioDec) + shift)
    && (m == was || exists k ::
          0 <= k < |pkts| && pkts[k].pts.Some? && m.value.ts == EndOf(pkts[k], haveAudioDec) + shift)
  }

  lemma {:induction false} PassRecords(l: Loop, pkts: seq<Packet>, have: bool, tb: Rational, shift: int)
    requires Content(pkts, tb) && Shifting(l, tb, shift)
    ensures var r := Pass(l, pkts, have);
            && Shifting(r, tb, shift)
            && LeastSeen(pkts, shift, l.minPts, r.minPts)
            && GreatestSeen(pkts, have, shift, l.maxPts, r.maxPts)
    decreases |pkts|
  {
    if pkts != [] {
      var n := |pkts| - 1;
      PassRecords(l, pkts[..n], have, tb, shift);
      PacketRecords(Pass(l, pkts[..n], have), pkts, have, tb, shift, l.minPts, l.maxPts);
    }
  }

  lemma PacketRecords(m: Loop, pkts: seq<Packet>, have: bool, tb: Rational, shift: int, wasMin: Option<Stamp>,
                      wasMax: Option<Stamp>)
    requires Content(pkts, tb) && pkts != [] && Shifting(m, tb, shift)
    requires LeastSeen(pkts[..|pkts| - 1], shift, wasMin, m.minPts)
    requires GreatestSeen(pkts[..|pkts| - 1], have, shift, wasMax, m.maxPts)
    ensures var r := Looped(m, pkts[|pkts| - 1], have).0;
            && Shifting(r, tb, shift)
            && LeastSeen(pkts, shift, wasMin, r.minPts)
            && GreatestSeen(pkts, have, shift, wasMax, r.maxPts)
  {
    var pkt := pkts[|pkts| - 1];
    if pkt.pts.None? {
      CarryLeast(pkts, shift, wasMin, m.minPts);
      CarryGreatest(pkts, have, shift, wasMax, m.maxPts);
    } else {
      var pts, end := Stamp(pkt.pts.value + shift, tb), Stamp(EndOf(pkt, have) + shift, tb);
      if m.minPts.Some? { CompareInOneBase(m.minPts.value.ts, pts.ts, tb); }
      if m.maxPts.Some? { CompareInOneBase(m.maxPts.value.ts, end.ts, tb); }
      RecordLeast(pkts, shift, wasMin, m.minPts, pts);
      RecordGreatest(pkts, have, shift, wasMax, m.maxPts, end);
      assert Looped(m, pkt, have).0 == m.(minPts := Earlier(m.minPts, pts), maxPts := Later(m.maxPts, end));
    }
  }

  lemma CarryLeast(pkts: seq<Packet>, shift: int, was: Option<Stamp>, m: Option<Stamp>)
    requires pkts != [] && pkts[|pkts| - 1].pts.None? && LeastSeen(pkts[..|pkts| - 1], shift, was, m)
    ensures LeastSeen(pkts, shift, was, m)
  {
    var init := pkts[..|pkts| - 1];
    assert forall k :: 0 <= k < |init| ==> init[k] == pkts[k];
    if m != was {
      var k :| 0 <= k < |init| && init[k].pts.Some? && m.value.ts == init[k].pts.value + shift;
      assert pkts[k] == init[k];
    }
  }

  lemma CarryGreatest(pkts: seq<Packet>, have: bool, shift: int, was: Option<Stamp>, m: Option<Stamp>)
    requires pkts != [] && pkts[|pkts| - 1].pts.None? && GreatestSeen(pkts[..|pkts| - 1], have, shift, was, m)
    ensures GreatestSeen(pkts, have, shift, was, m)
  {
    var init := pkts[..|pkts| - 1];
    assert forall k :: 0 <= k < |init| ==> init[k] == pkts[k];
    if m != was {
      var k :| 0 <= k < |init| && init[k].pts.Some? && m.value.ts == EndOf(init[k], have) + shift;
      assert pkts[k] == init[k];
    }
  }

  lemma RecordLeast(pkts: seq<Packet>, shift: int, was: Option<Stamp>, m: Option<Stamp>, s: Stamp)
    requires pkts != [] && LeastSeen(pkts[..|pkts| - 1], shift, was, m)
    requires pkts[|pkts| - 1].pts.Some? && s.ts == pkts[|pkts| - 1].pts.value + shift
    requires m.Some? ==> (CompareTs(m.value, s) > 0 <==> m.value.ts > s.ts)
    ensures LeastSeen(pkts, shift, was, Earlier(m, s))
  {
    var init := pkts[..|pkts| - 1];
    assert forall k :: 0 <= k < |init| ==> init[k] == pkts[k];
    if Earlier(m, s) == m && m != was {
      var k :| 0 <= k < |init| && init[k].pts.Some? && m.value.ts == init[k].pts.value + shift;
      assert pkts[k] == init[k];
    }
  }

  lemma RecordGreatest(pkts: seq<Packet>, have: bool, shift: int, was: Option<Stamp>, m: Option<Stamp>, s: Stamp)
    requires pkts != [] && GreatestSeen(pkts[..|pkts| - 1], have, shift, was, m)
    requires pkts[|pkts| - 1].pts.Some? && s.ts == EndOf(pkts[|pkts| - 1], have) + shift
    requires m.Some? ==> (CompareTs(m.value, s) < 0 <==> m.value.ts < s.ts)
    ensures GreatestSeen(pkts, have, shift, was, Later(m, s))
  {
    var init := pkts[..|pkts| - 1];
    assert forall k :: 0 <= k < |init| ==> init[k] == pkts[k];
    if Later(m, s) == m && m != was {
      var k :| 0 <= k < |init| && init[k].pts.Some? && m.value.ts == EndOf(init[k], have) + shift;
      assert pkts[k] == init[k];
    }
  }

  /** A pass over content from `lo` to `hi` records exactly that extent, `shift` later. */
  lemma PassExtent(l: Loop, pkts: seq<Packet>, have: bool, tb: Rational, shift: int, lo: int, hi: int)
    requires Content(pkts, tb) && Shifting(l, tb, shift) && Extent(pkts, have, lo, hi) && shift >= 0
    requires l.minPts.None? || l.minPts.value.ts == lo
    requires l.minPts.None? ==> shift == 0
    requires l.maxPts.None? || l.maxPts.value.ts <= hi + shift
    ensures var r := Pass(l, pkts, have);
            && Shifting(r, tb, shift)
            && r.minPts == Some(Stamp(lo, tb))
            && r.maxPts == Some(Stamp(hi + shift, tb))
  {
    PassRecords(l, pkts, have, tb, shift);
    var r := Pass(l, pkts, have);
    var a :| 0 <= a < |pkts| && pkts[a].pts == Some(lo);
    var b :| 0 <= b < |pkts| && pkts[b].pts.Some? && EndOf(pkts[b], have) == hi;
  }

  /** Whatever ends the audio decoders report, each pass is moved to start exactly where the
      previous pass, or its audio when that lasted longer, ended. */
  lemma {:induction false} PassesFollowOn(pkts: seq<Packet>, have: bool, tb: Rational, ends: seq<Option<Stamp>>,
                                          lo: int, hi: int)
    requires Content(pkts, tb) && InBase(ends, tb) && Extent(pkts, have, lo, hi)
    ensures lo <= hi && StartShift(lo, hi, ends) >= 0
    ensures var l := Replayed(pkts, have, ends);
            && Shifting(l, tb, StartShift(lo, hi, ends))
            && (ends == [] ==> l == FIRST_PASS)
            && (ends != [] ==>
                  && l.minPts == Some(Stamp(lo, tb))
                  && l.maxPts == Some(Stamp(lo + StartShift(lo, hi, ends), tb)))
    decreases |ends|
  {
    ExtentOrdered(pkts, have, tb, lo, hi);
    if ends == [] {
      FirstPassUnshifted(tb);
    } else {
      var n := |ends| - 1;
      PassesFollowOn(pkts, have, tb, ends[..n], lo, hi);
      var l := Replayed(pkts, have, ends[..n]);
      FollowsOn(l, pkts, have, tb, StartShift(lo, hi, ends[..n]), lo, hi, ends[n]);
    }
  }

  lemma ExtentOrdered(pkts: seq<Packet>, have: bool, tb: Rational, lo: int, hi: int)
    requires Content(pkts, tb) && Extent(pkts, have, lo, hi)
    ensures lo <= hi
  {
    var a :| 0 <= a < |pkts| && pkts[a].pts == Some(lo);
    assert EndOf(pkts[a], have) <= hi;
  }

  lemma FirstPassUnshifted(tb: Rational)
    requires Positive(tb)
    ensures Shifting(FIRST_PASS, tb, 0)
  {
    RescaleSign(0, 1 * tb.den, tb.num * 1);
    assert RescaleQ(0, Rational(1, 1), tb) == 0;
  }

  /** One more pass. */
  lemma FollowsOn(l: Loop, pkts: seq<Packet>, have: bool, tb: Rational, shift: int, lo: int, hi: int,
                  audio: Option<Stamp>)
    requires Content(pkts, tb) && Shifting(l, tb, shift) && Extent(pkts, have, lo, hi) && shift >= 0
    requires if l.minPts.None? then l == FIRST_PASS && shift == 0
             else l.minPts == Some(Stamp(lo, tb)) && l.maxPts == Some(Stamp(lo + shift, tb))
    requires lo <= hi && (audio.Some? ==> audio.value.tb == tb)
    ensures var r := Rewound(Pass(l, pkts, have), audio);
            var end := hi + shift;
            var max := Max(end, if audio.Some? then audio.value.ts else end);
            && Shifting(r, tb, max - lo)
            && r.minPts == Some(Stamp(lo, tb))
            && r.maxPts == Some(Stamp(max, tb))
  {
    PassExtent(l, pkts, have, tb, shift, lo, hi);
    RewindExtent(Pass(l, pkts, have), tb, lo, hi + shift, audio);
  }

  lemma RewindExtent(p: Loop, tb: Rational, lo: int, end: int, audio: Option<Stamp>)
    requires ValidLoop(p) && Positive(tb) && (audio.Some? ==> audio.value.tb == tb)
    requires p.minPts == Some(Stamp(lo, tb)) && p.maxPts == Some(Stamp(end, tb))
    ensures var r := Rewound(p, audio);
            var max := Max(end, if audio.Some? then audio.value.ts else end);
            && Shifting(r, tb, max - lo)
            && r.minPts == p.minPts
            && r.maxPts == Some(Stamp(max, tb))
  {
    if audio.Some? { CompareInOneBase(end, audio.value.ts, tb); }
    var max := Max(end, if audio.Some? then audio.value.ts else end);
    RescaleQIdentity(lo, tb);
    RescaleQIdentity(max - lo, tb);
  }

  function NoAudio(k: nat): (r: seq<Option<Stamp>>)
    ensures |r| == k
  {
    seq(k, _ => None)
  }

  lemma {:induction false} ShiftWithoutAudio(lo: int, hi: int, k: nat)
    ensures StartShift(lo, hi, NoAudio(k)) == k * (hi - lo)
  {
    if k > 0 {
      ShiftWithoutAudio(lo, hi, k - 1);
      assert NoAudio(k)[..k - 1] == NoAudio(k - 1);
      assert k * (hi - lo) == (k - 1) * (hi - lo) + (hi - lo);
    }
  }

  /** A packet of pass k leaves exactly k times the length of the content later. */
  lemma LoopShiftsByLength(pkts: seq<Packet>, have: bool, tb: Rational, k: nat, lo: int, hi: int, i: nat)
    requires Content(pkts, tb) && Extent(pkts, have, lo, hi) && i < |pkts|
    ensures var l := Replayed(pkts, have, NoAudio(k));
            Looped(l, pkts[i], have).1 == Shift(pkts[i], k * (hi - lo))
  {
    PassesFollowOn(pkts, have, tb, NoAudio(k), lo, hi);
    ShiftWithoutAudio(lo, hi, k);
  }

  /** Packets of a later pass never start before any packet of the pass before it ended, nor
      before the audio reported for that pass ended. */
  lemma PassesDoNotOverlap(pkts: seq<Packet>, have: bool, tb: Rational, ends: seq<Option<Stamp>>, lo: int, hi: int,
                           i: nat, j: nat)
    requires Content(pkts, tb) && InBase(ends, tb) && Extent(pkts, have, lo, hi) && ends != []
    requires i < |pkts| && j < |pkts| && pkts[i].pts.Some? && pkts[j].pts.Some?
    ensures var before := Looped(Replayed(pkts, have, ends[..|ends| - 1]), pkts[i], have).1;
            var after := Looped(Replayed(pkts, have, ends), pkts[j], have).1;
            && after.pts.value >= EndOf(before, have)
            && (ends[|ends| - 1].Some? ==> after.pts.value >= ends[|ends| - 1].value.ts)
  {
    PassesFollowOn(pkts, have, tb, ends, lo, hi);
    PassesFollowOn(pkts, have, tb, ends[..|ends| - 1], lo, hi);
  }
}
