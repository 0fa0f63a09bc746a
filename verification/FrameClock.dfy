/** Where a filtered frame falls on the output's clock
    (fftools/ffmpeg_filter.c: adjust_frame_pts_to_encoder_tb). */
module FrameClock {
  import opened Arithmetic

  lemma {:induction false} Pow2Adds(a: nat, b: nat)
    ensures Pow2(a + b) == Pow2(a) * Pow2(b)
  {
    if a > 0 {
      Pow2Adds(a - 1, b);
    }
  }

  predicate IsInteger(x: real) { x == x.Floor as real }

  const NUDGE := 1.0 / 131072.0

  /** Away from zero by 1/2^17, unless already whole. */
  function Nudged(x: real): real {
    if IsInteger(x) then x else if x > 0.0 then x + NUDGE else x - NUDGE
  }

  /** `pts` in output ticks: computed in a tick `extraBits` finer, then divided back. */
  function SyncIpts(pts: int, filterTb: Rational, outTb: Rational, startTime: int, extraBits: nat): real
    requires Positive(filterTb) && Positive(outTb) && extraBits <= 16
  {
    var fine := Rational(outTb.num, outTb.den * Pow2(extraBits));
    var ticks := RescaleQ(pts, filterTb, fine) - RescaleQ(startTime, AV_TIME_BASE_Q, fine);
    Nudged(ticks as real / Pow2(extraBits) as real)
  }

  /** A multiple of 2^-16 keeps clear of every midpoint between two integers once nudged,
      so the rounding mode of llrint cannot matter. */
  lemma NudgedAvoidsMidpoints(k: int)
    ensures var r := Nudged(k as real / 65536.0); r - r.Floor as real != 0.5
  {
    var x := k as real / 65536.0;
    var n := Nudged(x).Floor;
    OddIsNotEven(2 * k + 1, n);
    OddIsNotEven(2 * k - 1, n);
    assert 131072.0 * x == (2 * k) as real;
  }

  lemma OddIsNotEven(odd: int, n: int)
    requires odd % 2 == 1
    ensures odd as real / 131072.0 != n as real + 0.5
  {
    assert odd != 131072 * n + 65536;
    assert 131072.0 * (n as real + 0.5) == (131072 * n + 65536) as real;
  }

  /** The nudge never reorders two stamps. */
  lemma NudgedMonotone(k: int, k': int)
    requires k <= k'
    ensures Nudged(k as real / 65536.0) <= Nudged(k' as real / 65536.0)
  {
    var x, x' := k as real / 65536.0, k' as real / 65536.0;
    if k < k' {
      assert x' >= x + 1.0 / 65536.0;
    }
  }

  /** The fixed-point stamps are multiples of 2^-16 whatever precision was affordable. */
  lemma FineTicks(ticks: int, extraBits: nat)
    requires extraBits <= 16
    ensures ticks as real / Pow2(extraBits) as real == (ticks * Pow2(16 - extraBits)) as real / 65536.0
  {
    Pow2Adds(extraBits, 16 - extraBits);
    Pow2Adds(4, 4);
    Pow2Adds(8, 8);
    assert Pow2(4) == 16 && Pow2(16) == 65536;
    SameQuotient(ticks, Pow2(extraBits), Pow2(16 - extraBits));
  }

  lemma SameQuotient(n: int, p: nat, q: nat)
    requires p > 0 && q > 0 && p * q == 65536
    ensures n as real / p as real == (n * q) as real / 65536.0
  {
    var x := n as real / p as real;
    assert p as real * q as real == 65536.0;
    assert x * p as real == n as real;
    assert (n * q) as real == n as real * q as real;
    assert x * p as real * q as real == x * (p as real * q as real);
  }

  /** A frame's clock position is never halfway between two ticks. */
  lemma SyncIptsUnambiguous(pts: int, filterTb: Rational, outTb: Rational, startTime: int, extraBits: nat)
    requires Positive(filterTb) && Positive(outTb) && extraBits <= 16
    ensures var r := SyncIpts(pts, filterTb, outTb, startTime, extraBits); r - r.Floor as real != 0.5
  {
    var k := FinePosition(pts, filterTb, outTb, startTime, extraBits);
    NudgedAvoidsMidpoints(k);
  }

  lemma FinePosition(pts: int, filterTb: Rational, outTb: Rational, startTime: int, extraBits: nat) returns (k: int)
    requires Positive(filterTb) && Positive(outTb) && extraBits <= 16
    ensures SyncIpts(pts, filterTb, outTb, startTime, extraBits) == Nudged(k as real / 65536.0)
  {
    var fine := Rational(outTb.num, outTb.den * Pow2(extraBits));
    var t := RescaleQ(pts, filterTb, fine) - RescaleQ(startTime, AV_TIME_BASE_Q, fine);
    k := t * Pow2(16 - extraBits);
    FineTicks(t, extraBits);
  }

  /** On a clock of 65536 ticks to the output's one a position is the stamp, nudged. */
  lemma OneTickBase(pts: int)
    ensures SyncIpts(pts, Rational(1, 65536), Rational(1, 1), 0, 16) == Nudged(pts as real / 65536.0)
  {
    FineTicks(pts, 16);
    Pow2Adds(8, 8);
    Pow2Adds(4, 4);
    assert Pow2(4) == 16 && Pow2(16) == 65536;
    var fine := Rational(1, 65536);
    RescaleQIdentity(pts, fine);
    RescaleSign(0, 1 * 65536, 1 * AV_TIME_BASE);
    assert RescaleQ(0, AV_TIME_BASE_Q, fine) == 0;
  }

  /** Later stamps never get earlier clock positions. */
  lemma SyncIptsMonotone(pts: int, pts': int, filterTb: Rational, outTb: Rational, startTime: int, extraBits: nat)
    requires Positive(filterTb) && Positive(outTb) && extraBits <= 16 && pts <= pts'
    ensures SyncIpts(pts, filterTb, outTb, startTime, extraBits) <=
            SyncIpts(pts', filterTb, outTb, startTime, extraBits)
  {
    var fine := Rational(outTb.num, outTb.den * Pow2(extraBits));
    var start := RescaleQ(startTime, AV_TIME_BASE_Q, fine);
    RescaleQMonotone(pts, pts', filterTb, fine);
    TicksMonotone(RescaleQ(pts, filterTb, fine) - start, RescaleQ(pts', filterTb, fine) - start, extraBits);
  }

  lemma TicksMonotone(t: int, t': int, extraBits: nat)
    requires extraBits <= 16 && t <= t'
    ensures Nudged(t as real / Pow2(extraBits) as real) <= Nudged(t' as real / Pow2(extraBits) as real)
  {
    var q := Pow2(16 - extraBits);
    FineTicks(t, extraBits);
    FineTicks(t', extraBits);
    Widen(t, t', q);
    NudgedMonotone(t * q, t' * q);
  }

  lemma Widen(t: int, t': int, q: nat)
    requires t <= t'
    ensures t * q <= t' * q
  {
  }
}
