/** Audio timestamps in the decoder (fftools/ffmpeg_dec.c: audio_samplerate_update and
    audio_ts_process): an internal time base that grows with the sample rates seen. */
module AudioTime {
  import opened Arithmetic
  import opened Options

  /** The time base used when no exact one fits: LCM of 192000 and 44100. */
  const FALLBACK_RATE: int := 28224000

  datatype Frame = Frame(pts: Option<int>, timeBase: Rational, sampleRate: int, nbSamples: nat)

  /** A frame after processing: its duration is its sample count. */
  datatype Stamped = Stamped(pts: int, duration: nat, timeBase: Rational)

  /** `tb` and `pts` are last_frame_tb and last_frame_pts, `delta` the state of
      av_rescale_delta; `rate` is 0 before the first frame. */
  datatype Clock = Clock(tb: Rational, rate: int, pts: Option<int>, durationEst: int, delta: Option<int>)

  const INITIAL := Clock(Rational(1, 1), 0, None, 0, None)

  predicate ValidFrame(f: Frame) {
    && 0 < f.sampleRate <= INT_MAX
    && f.timeBase.den <= INT_MAX
    && (f.pts.Some? ==> Positive(f.timeBase))
  }

  predicate ValidClock(c: Clock) {
    c.tb.num == 1 && 0 < c.tb.den <= INT_MAX
  }

  // ---- greatest common divisors ----

  predicate Divides(d: int, n: int) { d > 0 && n % d == 0 }

  function Gcd(a: nat, b: nat): (g: nat)
    requires a > 0 || b > 0
    ensures g > 0
    decreases b
  {
    if b == 0 then a else Gcd(b, a % b)
  }

  lemma DividesIs(d: int, q: int)
    requires d > 0
    ensures Divides(d, q * d) && q * d / d == q
  {
    DivIs(q * d, d, q);
    DivBounds(q * d, d);
    assert q * d / d * d == q * d;
    assert (q * d) % d == q * d - d * (q * d / d);
  }

  lemma DividesSum(d: int, m: int, n: int)
    requires Divides(d, m) && Divides(d, n)
    ensures Divides(d, m + n)
  {
    DividesIs(d, m / d + n / d);
    assert m == m / d * d && n == n / d * d;
    assert (m / d + n / d) * d == m + n;
  }

  lemma DividesMultiple(d: int, n: int, k: int)
    requires Divides(d, n)
    ensures Divides(d, k * n)
  {
    DividesIs(d, k * (n / d));
    assert n == n / d * d;
    assert k * (n / d) * d == k * n;
  }

  lemma {:induction false} GcdDivides(a: nat, b: nat)
    requires a > 0 || b > 0
    ensures Divides(Gcd(a, b), a) && Divides(Gcd(a, b), b)
    decreases b
  {
    if b == 0 {
      DividesIs(a, 1);
      DividesIs(a, 0);
    } else {
      var g := Gcd(b, a % b);
      GcdDivides(b, a % b);
      DividesMultiple(g, b, a / b);
      DividesSum(g, a / b * b, a % b);
      assert a == a / b * b + a % b;
    }
  }

  lemma PositiveFactor(x: int, d: int)
    requires d > 0 && x * d > 0
    ensures x > 0
  {
    assert x <= 0 ==> x * d <= 0;
  }

  /** a / gcd * b, the way the code computes it, is a common multiple. */
  lemma CommonMultiple(a: int, b: int)
    requires a > 0 && b > 0
    ensures var m := a / Gcd(a, b) * b; m > 0 && Divides(a, m) && Divides(b, m)
  {
    var g := Gcd(a, b);
    GcdDivides(a, b);
    var x, y := a / g, b / g;
    assert a == x * g && b == y * g;
    PositiveFactor(x, g);
    DividesIs(b, x);
    DividesIs(a, y);
    assert y * a == x * b;
    assert x * b > 0;
  }

  lemma DividesTrans(a: int, b: int, c: int)
    requires Divides(a, b) && Divides(b, c)
    ensures Divides(a, c)
  {
    DividesMultiple(a, b, c / b);
    assert c == c / b * b;
  }

  // ---- the specification ----

  /** No exact common time base is attempted for this frame. */
  predicate FallsBack(c: Clock, f: Frame)
    requires ValidClock(c) && ValidFrame(f)
  {
    f.sampleRate != c.rate && c.tb.den / Gcd(c.tb.den, f.sampleRate) >= INT_MAX / f.sampleRate
  }

  /** The frame's own time base is strictly better. */
  predicate Better(f: Frame, base: int) {
    f.timeBase.num == 1 && f.timeBase.den > base > 0 && f.timeBase.den % base == 0
  }

  function NewDen(c: Clock, f: Frame): int
    requires ValidClock(c) && ValidFrame(f)
  {
    var base := if FallsBack(c, f) then FALLBACK_RATE else c.tb.den / Gcd(c.tb.den, f.sampleRate) * f.sampleRate;
    if Better(f, base) then f.timeBase.den else base
  }

  lemma NewDenFits(c: Clock, f: Frame)
    requires ValidClock(c) && ValidFrame(f)
    ensures 0 < NewDen(c, f)
    ensures f.sampleRate != c.rate ==> NewDen(c, f) <= INT_MAX
  {
    CommonMultiple(c.tb.den, f.sampleRate);
    if f.sampleRate != c.rate && !FallsBack(c, f) {
      FallbackExactly(c, f);
    }
  }

  /** The fallback is taken exactly when adding one more period of the sample rate to the
      common multiple would exceed an int. */
  lemma FallbackExactly(c: Clock, f: Frame)
    requires ValidClock(c) && ValidFrame(f) && f.sampleRate != c.rate
    ensures FallsBack(c, f) <==> c.tb.den / Gcd(c.tb.den, f.sampleRate) * f.sampleRate + f.sampleRate > INT_MAX
  {
    var p, sr := c.tb.den / Gcd(c.tb.den, f.sampleRate), f.sampleRate;
    var q := INT_MAX / sr;
    DivBounds(INT_MAX, sr);
    assert p >= q ==> p * sr >= q * sr;
    assert p < q ==> (p + 1) * sr <= q * sr;
    assert (p + 1) * sr == p * sr + sr;
  }

  function Retuned(c: Clock, f: Frame): Clock
    requires ValidClock(c) && ValidFrame(f)
  {
    if f.sampleRate == c.rate then c
    else
      NewDenFits(c, f);
      var tb := Rational(1, NewDen(c, f));
      c.(tb := tb, rate := f.sampleRate,
         pts := if c.pts.Some? then Some(RescaleQ(c.pts.value, c.tb, tb)) else None,
         durationEst := RescaleQ(c.durationEst, c.tb, tb))
  }

  lemma RetunedValid(c: Clock, f: Frame)
    requires ValidClock(c) && ValidFrame(f)
    ensures ValidClock(Retuned(c, f))
  {
    NewDenFits(c, f);
  }

  function Predicted(c: Clock): int {
    if c.pts.None? then 0 else c.pts.value + c.durationEst
  }

  /** A stamp later than the prediction, rounded up, starts the sample clock afresh. */
  predicate Gap(c: Clock, f: Frame)
    requires ValidClock(c) && ValidFrame(f)
  {
    && f.pts.Some? && c.pts.Some?
    && f.pts.value > CeilDiv(Predicted(c) * (c.tb.num * f.timeBase.den), f.timeBase.num * c.tb.den)
  }

  /** The clock after `f`, with its new pts in the internal time base. */
  function Ticked(c: Clock, f: Frame): Clock
    requires ValidClock(c) && ValidFrame(f)
  {
    var (pts, tb) := if f.pts.Some? then (f.pts.value, f.timeBase) else (Predicted(c), c.tb);
    var (now, delta) := RescaleDelta(tb, pts, c.tb, f.nbSamples, if Gap(c, f) then None else c.delta, c.tb);
    c.(pts := Some(now), durationEst := RescaleQ(f.nbSamples, Rational(1, f.sampleRate), c.tb), delta := Some(delta))
  }

  function Process(c: Clock, f: Frame): (Clock, Stamped)
    requires ValidClock(c) && ValidFrame(f)
  {
    RetunedValid(c, f);
    var next := Ticked(Retuned(c, f), f);
    var tb := Rational(1, f.sampleRate);
    (next, Stamped(RescaleQ(next.pts.value, next.tb, tb), f.nbSamples, tb))
  }

  // ---- the code ----

  class AudioDecoder {
    var lastFrameTb: Rational
    var lastFrameSampleRate: int
    var lastFramePts: Option<int>
    var lastFrameDurationEst: int
    var lastFilterInRescaleDelta: Option<int>

    ghost function View(): Clock
      reads this
    {
      Clock(lastFrameTb, lastFrameSampleRate, lastFramePts, lastFrameDurationEst, lastFilterInRescaleDelta)
    }

    constructor ()
      ensures View() == INITIAL
    {
      lastFrameTb := Rational(1, 1);
      lastFrameSampleRate := 0;
      lastFramePts := None;
      lastFrameDurationEst := 0;
      lastFilterInRescaleDelta := None;
    }

    method AudioSamplerateUpdate(frame: Frame) returns (tb: Rational)
      requires ValidClock(View()) && ValidFrame(frame)
      modifies this`lastFrameTb, this`lastFrameSampleRate, this`lastFramePts, this`lastFrameDurationEst
      ensures View() == Retuned(old(View()), frame) && tb == lastFrameTb
    {
      var prev, sr := lastFrameTb.den, frame.sampleRate;
      NewDenFits(View(), frame);
      if sr != lastFrameSampleRate {
        CommonMultiple(prev, sr);
        var gcd := Gcd(prev, sr);
        var tbNew;
        if prev / gcd >= INT_MAX / sr {
          tbNew := Rational(1, FALLBACK_RATE);
        } else {
          tbNew := Rational(1, prev / gcd * sr);
        }
        if frame.timeBase.num == 1 && frame.timeBase.den > tbNew.den && frame.timeBase.den % tbNew.den == 0 {
          tbNew := frame.timeBase;
        }
        if lastFramePts.Some? {
          lastFramePts := Some(RescaleQ(lastFramePts.value, lastFrameTb, tbNew));
        }
        lastFrameDurationEst := RescaleQ(lastFrameDurationEst, lastFrameTb, tbNew);
        lastFrameTb := tbNew;
        lastFrameSampleRate := sr;
      }
      tb := lastFrameTb;
    }

    method AudioTsProcess(frame: Frame) returns (out: Stamped)
      requires ValidClock(View()) && ValidFrame(frame)
      modifies this
      ensures (View(), out) == Process(old(View()), frame)
    {
      RetunedValid(View(), frame);
      var tbFilter := Rational(1, frame.sampleRate);
      var tb := AudioSamplerateUpdate(frame);
      var ptsPred := 0;
      if lastFramePts.Some? {
        ptsPred := lastFramePts.value + lastFrameDurationEst;
      }
      var pts, timeBase := ptsPred, tb;
      if frame.pts.Some? {
        pts, timeBase := frame.pts.value, frame.timeBase;
        if lastFramePts.Some? && pts > CeilDiv(ptsPred * (tb.num * timeBase.den), timeBase.num * tb.den) {
          lastFilterInRescaleDelta := None;
        }
      }
      var (now, delta) := RescaleDelta(timeBase, pts, tb, frame.nbSamples, lastFilterInRescaleDelta, tb);
      lastFilterInRescaleDelta := Some(delta);
      lastFramePts := Some(now);
      lastFrameDurationEst := RescaleQ(frame.nbSamples, tbFilter, tb);
      out := Stamped(RescaleQ(now, tb, tbFilter), frame.nbSamples, tbFilter);
    }
  }

  // ---- growth is exact ----

  /** `fellBack` tells whether any frame took the fallback, `lossy` whether that lost anything. */
  datatype Run = Run(clock: Clock, fellBack: bool, lossy: bool)

  /** The new time base cannot count the old ticks, or the new samples. */
  predicate Lossy(c: Clock, f: Frame)
    requires ValidClock(c) && ValidFrame(f)
  {
    f.sampleRate != c.rate && !(Divides(c.tb.den, NewDen(c, f)) && Divides(f.sampleRate, NewDen(c, f)))
  }

  predicate ValidFrames(frames: seq<Frame>) {
    forall k :: 0 <= k < |frames| ==> ValidFrame(frames[k])
  }

  /** The clock after `frames`, and what became of its exactness. */
  function After(frames: seq<Frame>): (r: Run)
    requires ValidFrames(frames)
    ensures ValidClock(r.clock)
    decreases |frames|
  {
    if frames == [] then Run(INITIAL, false, false)
    else
      var last := frames[|frames| - 1];
      var before := After(frames[..|frames| - 1]);
      RetunedValid(before.clock, last);
      Run(Process(before.clock, last).0,
          before.fellBack || FallsBack(before.clock, last),
          before.lossy || Lossy(before.clock, last))
  }

  /** Seconds after `ticks` of `tb`. */
  function Seconds(ticks: int, tb: Rational): real
    requires tb.den > 0
  {
    ticks as real / tb.den as real
  }

  lemma RetuneGrows(c: Clock, f: Frame)
    requires ValidClock(c) && ValidFrame(f) && f.sampleRate != c.rate && !FallsBack(c, f)
    ensures Divides(c.tb.den, Retuned(c, f).tb.den) && Divides(f.sampleRate, Retuned(c, f).tb.den)
    ensures !Lossy(c, f)
  {
    CommonMultiple(c.tb.den, f.sampleRate);
    var base := c.tb.den / Gcd(c.tb.den, f.sampleRate) * f.sampleRate;
    if NewDen(c, f) != base {
      DividesTrans(c.tb.den, base, f.timeBase.den);
      DividesTrans(f.sampleRate, base, f.timeBase.den);
    }
  }

  /** Only the fallback can lose anything. */
  lemma {:induction false} LossNeedsFallback(frames: seq<Frame>)
    requires ValidFrames(frames)
    ensures After(frames).lossy ==> After(frames).fellBack
    decreases |frames|
  {
    if frames != [] {
      var n := |frames| - 1;
      var c, f := After(frames[..n]).clock, frames[n];
      LossNeedsFallback(frames[..n]);
      if f.sampleRate != c.rate && !FallsBack(c, f) {
        RetuneGrows(c, f);
      }
    }
  }

  lemma SecondsSurvive(a: int, d: int, d': int)
    requires d > 0 && Divides(d, d') && d' > 0
    ensures Seconds(RescaleQ(a, Rational(1, d), Rational(1, d')), Rational(1, d')) == Seconds(a, Rational(1, d))
  {
    var k := d' / d;
    assert d' == k * d;
    PositiveFactor(k, d);
    RescaleQRefines(a, d, k);
    ScaledSeconds(a, d, k);
  }

  lemma ScaledSeconds(a: int, d: int, k: int)
    requires d > 0 && k > 0 && k * d > 0
    ensures Seconds(a * k, Rational(1, k * d)) == Seconds(a, Rational(1, d))
  {
    assert (a * k) as real == a as real * k as real;
    assert (k * d) as real == k as real * d as real;
    SameFraction(a as real, k as real, d as real);
  }

  lemma SameFraction(a: real, k: real, d: real)
    requires k > 0.0 && d > 0.0
    ensures k * d > 0.0 && a * k / (k * d) == a / d
  {
    var q := a / d;
    assert q * d == a;
    assert k * d > 0.0;
    assert q * (k * d) == a * k;
  }

  /** A rate change that is not lossy loses nothing of what the clock holds. */
  lemma RetuneExact(c: Clock, f: Frame)
    requires ValidClock(c) && ValidFrame(f) && !Lossy(c, f)
    ensures var r := Retuned(c, f);
            && ValidClock(r)
            && (c.pts.Some? <==> r.pts.Some?)
            && (c.pts.Some? ==> Seconds(r.pts.value, r.tb) == Seconds(c.pts.value, c.tb))
            && Seconds(r.durationEst, r.tb) == Seconds(c.durationEst, c.tb)
  {
    RetunedValid(c, f);
    if f.sampleRate != c.rate {
      var d := Retuned(c, f).tb.den;
      assert c.tb == Rational(1, c.tb.den);
      if c.pts.Some? { SecondsSurvive(c.pts.value, c.tb.den, d); }
      SecondsSurvive(c.durationEst, c.tb.den, d);
    }
  }

  /** As long as nothing is lost, which is always so without a fallback, the internal time base
      represents a sample of every rate seen so far exactly, and fits an int. */
  lemma {:induction false} EveryRateDivides(frames: seq<Frame>)
    requires ValidFrames(frames)
    ensures var r := After(frames);
            !r.lossy ==>
              && (forall k :: 0 <= k < |frames| ==> Divides(frames[k].sampleRate, r.clock.tb.den))
              && r.clock.tb.den <= INT_MAX
              && (frames != [] ==> r.clock.rate == frames[|frames| - 1].sampleRate)
              && (frames == [] ==> r.clock.rate == 0)
    decreases |frames|
  {
    if frames != [] && !After(frames).lossy {
      var n := |frames| - 1;
      var c, f := After(frames[..n]).clock, frames[n];
      EveryRateDivides(frames[..n]);
      if f.sampleRate != c.rate {
        NewDenFits(c, f);
        forall k | 0 <= k < n
          ensures Divides(frames[k].sampleRate, Retuned(c, f).tb.den)
        {
          assert Divides(frames[..n][k].sampleRate, c.tb.den);
          DividesTrans(frames[k].sampleRate, c.tb.den, Retuned(c, f).tb.den);
        }
      } else {
        assert forall k :: 0 <= k < n ==> frames[..n][k] == frames[k];
        assert n > 0;
        assert f.sampleRate == frames[..n][n - 1].sampleRate;
      }
    }
  }

  // ---- frames without timestamps ----

  /** What the clock expects the next frame to start at. */
  function Expected(c: Clock): real
    requires ValidClock(c)
  {
    Seconds(Predicted(c), c.tb)
  }

  function PlayTime(frames: seq<Frame>): real
    requires ValidFrames(frames)
    decreases |frames|
  {
    if frames == [] then 0.0
    else
      var last := frames[|frames| - 1];
      PlayTime(frames[..|frames| - 1]) + last.nbSamples as real / last.sampleRate as real
  }

  lemma SecondsAdd(a: int, b: int, tb: Rational)
    requires tb.den > 0
    ensures Seconds(a + b, tb) == Seconds(a, tb) + Seconds(b, tb)
  {
  }

  lemma UnstampedTick(r: Clock, f: Frame)
    requires ValidClock(r) && ValidFrame(f) && f.pts.None? && Divides(f.sampleRate, r.tb.den)
    ensures var next := Ticked(r, f);
            && next.tb == r.tb && next.pts == Some(Predicted(r))
            && Expected(next) == Expected(r) + f.nbSamples as real / f.sampleRate as real
  {
    var next := Ticked(r, f);
    RescaleDeltaIdentity(r.tb, Predicted(r), f.nbSamples, r.delta);
    assert r.tb == Rational(1, r.tb.den);
    SecondsSurvive(f.nbSamples, f.sampleRate, r.tb.den);
    SecondsAdd(Predicted(r), next.durationEst, r.tb);
  }

  /** A frame without a stamp is placed at the expected time, and advances it by exactly the
      samples it holds. */
  lemma UnstampedStep(c: Clock, f: Frame)
    requires ValidClock(c) && ValidFrame(f) && !Lossy(c, f) && f.pts.None?
    requires Divides(f.sampleRate, Retuned(c, f).tb.den)
    ensures var next := Process(c, f).0;
            && ValidClock(next) && next.pts.Some?
            && Seconds(next.pts.value, next.tb) == Expected(c)
            && Expected(next) == Expected(c) + f.nbSamples as real / f.sampleRate as real
  {
    RetuneExact(c, f);
    var r := Retuned(c, f);
    SameExpectation(c, r);
    UnstampedTick(r, f);
  }

  lemma SameExpectation(c: Clock, r: Clock)
    requires ValidClock(c) && ValidClock(r) && (c.pts.Some? <==> r.pts.Some?)
    requires c.pts.Some? ==> Seconds(r.pts.value, r.tb) == Seconds(c.pts.value, c.tb)
    requires Seconds(r.durationEst, r.tb) == Seconds(c.durationEst, c.tb)
    ensures Expected(r) == Expected(c)
  {
    if c.pts.Some? {
      SecondsAdd(c.pts.value, c.durationEst, c.tb);
      SecondsAdd(r.pts.value, r.durationEst, r.tb);
    }
  }

  /** The clock can take the frame without losing ticks or samples. */
  predicate Timely(c: Clock, f: Frame)
    requires ValidClock(c) && ValidFrame(f)
  {
    RetunedValid(c, f);
    !Lossy(c, f) && Divides(f.sampleRate, Retuned(c, f).tb.den)
  }

  /** So it is with each frame of a stretch, whatever came before. */
  predicate TimelyStretch(lead: seq<Frame>, frames: seq<Frame>)
    requires ValidFrames(lead) && ValidFrames(frames)
    decreases |frames|
  {
    frames == [] ||
    var n := |frames| - 1;
    TimelyStretch(lead, frames[..n]) && Timely(After(lead + frames[..n]).clock, frames[n])
  }

  /** Which is always so while nothing has been lost. */
  lemma {:induction false} LosslessIsTimely(lead: seq<Frame>, frames: seq<Frame>)
    requires ValidFrames(lead) && ValidFrames(frames) && !After(lead + frames).lossy
    ensures TimelyStretch(lead, frames)
    decreases |frames|
  {
    if frames != [] {
      var n := |frames| - 1;
      var all := lead + frames;
      assert all[..|all| - 1] == lead + frames[..n];
      LosslessIsTimely(lead, frames[..n]);
      EveryRateDivides(all);
      assert Divides(all[|all| - 1].sampleRate, After(all).clock.tb.den);
    }
  }

  /** After any frames at all, a stretch without timestamps is timed by the exact running sum
      of its samples, across every change of rate that is not lossy. */
  lemma {:induction false} UnstampedStretchExact(lead: seq<Frame>, frames: seq<Frame>)
    requires ValidFrames(lead) && ValidFrames(frames) && TimelyStretch(lead, frames)
    requires forall k :: 0 <= k < |frames| ==> frames[k].pts.None?
    ensures Expected(After(lead + frames).clock) == Expected(After(lead).clock) + PlayTime(frames)
    decreases |frames|
  {
    if frames == [] {
      assert lead + frames == lead;
    } else {
      var n := |frames| - 1;
      var all := lead + frames;
      assert all[..|all| - 1] == lead + frames[..n];
      UnstampedStretchExact(lead, frames[..n]);
      UnstampedStep(After(lead + frames[..n]).clock, frames[n]);
    }
  }

  /** `pts` is the sample nearest to time `t`. */
  predicate NearestSample(pts: int, t: real, rate: int) {
    -0.5 <= pts as real - t * rate as real <= 0.5
  }

  /** ... and what such a frame is finally stamped with, in samples, is that sum rounded. */
  lemma UnstampedOutput(c: Clock, f: Frame)
    requires ValidClock(c) && ValidFrame(f) && f.pts.None? && Timely(c, f)
    ensures var out := Process(c, f).1;
            out.duration == f.nbSamples && NearestSample(out.pts, Expected(c), f.sampleRate)
  {
    UnstampedStep(c, f);
    var next := Process(c, f).0;
    assert next.tb == Rational(1, next.tb.den);
    RoundedSeconds(next.pts.value, next.tb.den, f.sampleRate);
  }

  lemma RoundedSeconds(a: int, d: int, sr: int)
    requires d > 0 && sr > 0
    ensures NearestSample(RescaleQ(a, Rational(1, d), Rational(1, sr)), Seconds(a, Rational(1, d)), sr)
  {
    var from, to := Rational(1, d), Rational(1, sr);
    var r := RescaleQ(a, from, to);
    assert r == Rescale(a, sr, d);
    RescaleError(a, sr, d);
    InReals(r, d, a, sr);
    RealBound(r as real, Seconds(a, from), sr as real, d as real, a as real);
  }

  lemma InReals(r: int, d: int, a: int, sr: int)
    requires -d <= 2 * (r * d - a * sr) <= d
    ensures -(d as real) <= 2.0 * (r as real * d as real - a as real * sr as real) <= d as real
  {
    RealProduct(r, d);
    RealProduct(a, sr);
    var x, y := r * d, a * sr;
    assert -d <= 2 * (x - y) <= d;
    assert -(d as real) <= 2.0 * (x as real - y as real) <= d as real;
  }

  lemma RealProduct(x: int, y: int)
    ensures (x * y) as real == x as real * y as real
  {
  }

  lemma RealBound(r: real, q: real, sr: real, d: real, a: real)
    requires d > 0.0 && q == a / d
    requires -d <= 2.0 * (r * d - a * sr) <= d
    ensures -0.5 <= r - q * sr <= 0.5
  {
    var e, x, y := r - q * sr, r * d, a * sr;
    assert q * d == a;
    assert q * sr * d == q * d * sr == y;
    assert e * d == x - q * sr * d == x - y;
    HalfBound(e, d);
  }

  lemma HalfBound(e: real, d: real)
    requires d > 0.0 && -d <= 2.0 * (e * d) <= d
    ensures -0.5 <= e <= 0.5
  {
    assert (e - 0.5) * d == e * d - 0.5 * d;
    assert (e + 0.5) * d == e * d + 0.5 * d;
    assert e - 0.5 > 0.0 ==> (e - 0.5) * d > 0.0;
    assert e + 0.5 < 0.0 ==> (e + 0.5) * d < 0.0;
  }

  // ---- frames with timestamps ----

  /** A stamp is never moved by more than half an input tick and one internal tick. */
  lemma StampKept(c: Clock, f: Frame)
    requires ValidClock(c) && ValidFrame(f) && f.pts.Some?
    ensures var r := Retuned(c, f);
            var next := Process(c, f).0;
            && next.tb == r.tb && next.pts.Some?
            && Abs(2 * (next.pts.value * f.timeBase.den - f.pts.value * (f.timeBase.num * r.tb.den)))
                 <= f.timeBase.num * r.tb.den + 2 * f.timeBase.den
  {
    RetunedValid(c, f);
    var r := Retuned(c, f);
    DeltaStaysClose(f.timeBase, f.pts.value, r.tb, f.nbSamples, if Gap(r, f) then None else r.delta);
  }

  lemma DeltaStaysClose(input: Rational, ts: int, tb: Rational, duration: nat, last: Option<int>)
    requires Positive(input) && Positive(tb) && tb.num == 1
    ensures var n := input.num * tb.den;
            Abs(2 * (RescaleDelta(input, ts, tb, duration, last, tb).0 * input.den - ts * n)) <= n + 2 * input.den
  {
    var n, d := input.num * tb.den, input.den;
    RescaleError(ts, n, d);
    if last.Some? {
      var a := (2 * ts - 1) * n / d / 2;
      var b := (CeilDiv((2 * ts + 1) * n, d) + 1) / 2;
      var x := Clip(last.value, a, b);
      RescaleQIdentity(x, tb);
      WindowIsNarrow(ts, n, d, x, a, b);
    }
  }

  /** Anything between the halved bounds of av_rescale_delta is close to the stamp. */
  lemma WindowIsNarrow(ts: int, n: int, d: int, x: int, a: int, b: int)
    requires n > 0 && d > 0
    requires a == (2 * ts - 1) * n / d / 2 && b == (CeilDiv((2 * ts + 1) * n, d) + 1) / 2
    requires (a <= x <= b) || x == a || x == b
    ensures Abs(2 * (x * d - ts * n)) <= n + 2 * d
  {
    HalfFloor((2 * ts - 1) * n, d);
    HalfCeil((2 * ts + 1) * n, d);
    ProductBetween(a, x, d);
    ProductBetween(x, b, d);
    Around(ts, n);
  }

  lemma ProductBetween(a: int, b: int, d: int)
    requires d > 0
    ensures a <= b ==> a * d <= b * d
  {
  }

  lemma Around(ts: int, n: int)
    ensures (2 * ts - 1) * n == 2 * (ts * n) - n && (2 * ts + 1) * n == 2 * (ts * n) + n
  {
  }

  lemma HalfFloor(x: int, d: int)
    requires d > 0
    ensures x - 2 * d <= 2 * (x / d / 2 * d) <= x
  {
    var q := x / d;
    DivBounds(x, d);
    HalfOf(q, q / 2, d);
  }

  lemma HalfCeil(x: int, d: int)
    requires d > 0
    ensures x <= 2 * ((CeilDiv(x, d) + 1) / 2 * d) <= x + 2 * d
  {
    var q := CeilDiv(x, d);
    DivBounds(-x, d);
    assert q * d == -(-x / d * d);
    HalfOf(q + 1, (q + 1) / 2, d);
    assert (q + 1) * d == q * d + d;
  }

  lemma HalfOf(q: int, h: int, d: int)
    requires d > 0 && 2 * h <= q <= 2 * h + 1
    ensures q * d - d <= 2 * (h * d) <= q * d
  {
    if q == 2 * h {
      assert q * d == 2 * (h * d);
    } else {
      assert q * d == 2 * (h * d) + d;
    }
  }

  // ---- what the fallback loses ----

  /** After the fallback every rate dividing 28224000 is still exact. */
  lemma FallbackKeepsCommonRates(c: Clock, f: Frame, rate: int)
    requires ValidClock(c) && ValidFrame(f) && FallsBack(c, f) && Divides(rate, FALLBACK_RATE)
    ensures Divides(rate, Retuned(c, f).tb.den)
  {
    if NewDen(c, f) != FALLBACK_RATE {
      DividesTrans(rate, FALLBACK_RATE, f.timeBase.den);
    }
  }

  /** A time base counts the samples of a rate exactly if and only if the rate divides it. */
  lemma SampleExactIff(sr: int, d: int)
    requires sr > 0 && d > 0
    ensures (forall nb: nat ::
               Seconds(RescaleQ(nb, Rational(1, sr), Rational(1, d)), Rational(1, d)) == Seconds(nb, Rational(1, sr)))
            <==> Divides(sr, d)
  {
    if Divides(sr, d) {
      forall nb: nat
        ensures Seconds(RescaleQ(nb, Rational(1, sr), Rational(1, d)), Rational(1, d)) == Seconds(nb, Rational(1, sr))
      {
        SecondsSurvive(nb, sr, d);
      }
    } else {
      var r := RescaleQ(1, Rational(1, sr), Rational(1, d));
      if Seconds(r, Rational(1, d)) == Seconds(1, Rational(1, sr)) {
        CrossMultiply(r, d, sr);
        DividesIs(sr, r);
        assert false;
      }
    }
  }

  /** So the lossy changes are exactly those after which some number of old ticks, or of new
      samples, is no longer exact. */
  lemma LossyExactly(c: Clock, f: Frame)
    requires ValidClock(c) && ValidFrame(f) && f.sampleRate != c.rate
    ensures var was, rate, tb := c.tb, Rational(1, f.sampleRate), Retuned(c, f).tb;
            tb.den > 0 &&
            (!Lossy(c, f) <==>
              && (forall n: nat :: Seconds(RescaleQ(n, was, tb), tb) == Seconds(n, was))
              && (forall n: nat :: Seconds(RescaleQ(n, rate, tb), tb) == Seconds(n, rate)))
  {
    NewDenFits(c, f);
    SampleExactIff(c.tb.den, NewDen(c, f));
    SampleExactIff(f.sampleRate, NewDen(c, f));
    assert c.tb == Rational(1, c.tb.den);
  }

  lemma CrossMultiply(r: int, d: int, sr: int)
    requires d > 0 && sr > 0 && r as real / d as real == 1.0 / sr as real
    ensures r * sr == d
  {
    var x, y := d as real, sr as real;
    assert (r as real / x) * x == r as real;
    assert (1.0 / y) * y == 1.0;
    assert r as real * y == (1.0 / y) * x * y == x;
    assert (r * sr) as real == r as real * y;
  }

  lemma GcdOfRates()
    ensures Gcd(1, 44100) == 1 && Gcd(44100, 191999) == 1
  {
    assert Gcd(1, 44100) == Gcd(44100, 1) == Gcd(1, 0) == 1;
    assert Gcd(44100, 191999) == Gcd(191999, 44100) == Gcd(44100, 15599) == Gcd(15599, 12902) == Gcd(12902, 2697);
    assert Gcd(12902, 2697) == Gcd(2697, 2114) == Gcd(2114, 583) == Gcd(583, 365) == Gcd(365, 218) == Gcd(218, 147);
    assert Gcd(218, 147) == Gcd(147, 71) == Gcd(71, 5) == Gcd(5, 1) == Gcd(1, 0) == 1;
  }

  /** Frames of 44100 Hz, the first of which brings no better time base: they keep one of that
      rate. */
  predicate CdFrames(frames: seq<Frame>) {
    && (forall k :: 0 <= k < |frames| ==> ValidFrame(frames[k]) && frames[k].sampleRate == 44100)
    && (frames != [] ==> !Better(frames[0], 44100))
  }

  lemma FirstRate(c: Clock, f: Frame)
    requires c.tb == Rational(1, 1) && c.rate == 0
    requires ValidFrame(f) && f.sampleRate == 44100 && !Better(f, 44100)
    ensures !FallsBack(c, f) && !Lossy(c, f)
    ensures Retuned(c, f).tb == Rational(1, 44100) && Retuned(c, f).rate == 44100
  {
    GcdOfRates();
    RetuneGrows(c, f);
  }

  lemma {:induction false} OneRateClock(frames: seq<Frame>)
    requires CdFrames(frames)
    ensures var r := After(frames);
            && !r.fellBack && !r.lossy
            && (frames == [] ==> r.clock.tb == Rational(1, 1) && r.clock.rate == 0)
            && (frames != [] ==> r.clock.tb == Rational(1, 44100) && r.clock.rate == 44100 && r.clock.pts.Some?)
    decreases |frames|
  {
    if frames != [] {
      var n := |frames| - 1;
      assert n > 0 ==> frames[..n][0] == frames[0];
      OneRateClock(frames[..n]);
      if n == 0 {
        FirstRate(After(frames[..n]).clock, frames[n]);
      }
    }
  }

  /** A sample of 191999 Hz counts as 147 ticks of the fallback, a little too few. */
  lemma OtherRateFallsBack(c: Clock, f: Frame)
    requires c.tb == Rational(1, 44100) && c.rate == 44100 && c.pts.Some?
    requires ValidFrame(f) && f.pts.None? && f.sampleRate == 191999 && f.nbSamples == 1
    requires !Better(f, FALLBACK_RATE)
    ensures FallsBack(c, f) && Lossy(c, f)
    ensures var d := Process(c, f).0;
            d.tb == Rational(1, FALLBACK_RATE) && Predicted(d) == 640 * Predicted(c) + 147
  {
    GcdOfRates();
    var tb := Rational(1, FALLBACK_RATE);
    RescaleQRefines(c.durationEst, 44100, 640);
    RescaleQRefines(c.pts.value, 44100, 640);
    assert RescaleQ(1, Rational(1, 191999), tb) == 147;
    var r := Retuned(c, f);
    assert r.tb == tb && r.pts == Some(640 * c.pts.value) && r.durationEst == 640 * c.durationEst;
    RescaleDeltaIdentity(tb, Predicted(r), 1, r.delta);
  }

  /** Over any other rate the sum is no longer exact: any frames of 44100 Hz, then one sample of
      191999 Hz. */
  lemma FallbackLosesSamples(frames: seq<Frame>, f: Frame)
    requires CdFrames(frames) && frames != [] && ValidFrames(frames + [f])
    requires ValidFrame(f) && f.pts.None? && f.sampleRate == 191999 && f.nbSamples == 1
    requires !Better(f, FALLBACK_RATE)
    ensures After(frames + [f]).lossy && !After(frames).fellBack
    ensures Expected(After(frames + [f]).clock) != Expected(After(frames).clock) + 1.0 / 191999.0
  {
    OneRateClock(frames);
    assert (frames + [f])[..|frames|] == frames;
    OtherRateFallsBack(After(frames).clock, f);
    OffByTicks(Predicted(After(frames).clock));
  }

  lemma OffByTicks(n: int)
    ensures (640 * n + 147) as real / 28224000.0 != n as real / 44100.0 + 1.0 / 191999.0
  {
    assert (640 * n + 147) as real == 640.0 * n as real + 147.0;
  }
}
