/** Integer division, rounding of reals and rational time bases: the arithmetic that
    libavutil/mathematics.c and the C library lend to the timestamp code. */
module Arithmetic {
  import opened Options

  function Min(a: int, b: int): int { if a <= b then a else b }

  function Max(a: int, b: int): int { if a >= b then a else b }

  /** The middle one of three numbers: their sum less its extremes. */
  function Median3(a: int, b: int, c: int): (m: int)
    ensures m == a + b + c - Max(a, Max(b, c)) - Min(a, Min(b, c))
    ensures (a <= b <= c || c <= b <= a) ==> m == b
    ensures (b <= a <= c || c <= a <= b) ==> m == a
    ensures (a <= c <= b || b <= c <= a) ==> m == c
  {
    var max2 := Max(a, b);
    var min2 := Min(a, b);
    Max(if c >= max2 then max2 else c, min2)
  }

  function Abs(a: int): (r: int)
    ensures r >= 0
  {
    if a < 0 then -a else a
  }

  function Pow2(n: nat): (r: nat)
    ensures r > 0
  {
    if n == 0 then 1 else 2 * Pow2(n - 1)
  }

  const INT_MAX: int := 0x7fff_ffff

  // ---- rounding a real, ties to even (llrint, llrintf) ----

  function RoundEven(x: real): (r: int)
    ensures x - 0.5 <= r as real <= x + 0.5
  {
    var f := x.Floor;
    var rest := x - f as real;
    if rest < 0.5 then f
    else if rest > 0.5 then f + 1
    else if f % 2 == 0 then f
    else f + 1
  }

  lemma RoundEvenMonotone(x: real, y: real)
    requires x <= y
    ensures RoundEven(x) <= RoundEven(y)
  {
    if x.Floor < y.Floor {
      assert RoundEven(x) <= x.Floor + 1 <= y.Floor <= RoundEven(y);
    }
  }

  /** Rounding never crosses an integer. */
  lemma RoundEvenKeepsBound(x: real, n: int)
    ensures x >= n as real ==> RoundEven(x) >= n
    ensures x <= n as real ==> RoundEven(x) <= n
  {
  }

  // ---- integer division ----

  lemma DivIs(x: int, c: int, q: int)
    requires c > 0 && q * c <= x < q * c + c
    ensures x / c == q
  {
    DivBounds(x, c);
    assert (x / c - q) * c == x / c * c - q * c;
    SmallMultiple(x / c - q, c);
  }

  lemma SmallMultiple(k: int, c: int)
    requires -c < k * c < c
    ensures k == 0
  {
    AtLeast(k, c);
    AtLeast(-k, c);
  }

  lemma AtLeast(k: int, c: int)
    requires c > 0
    ensures k > 0 ==> k * c >= c
  {
    assert k > 0 ==> (k - 1) * c >= 0;
  }

  lemma DivBounds(x: int, c: int)
    requires c > 0
    ensures x / c * c <= x < x / c * c + c
  {
  }

  lemma DivMonotone(x: int, y: int, c: int)
    requires c > 0 && x <= y
    ensures x / c <= y / c
  {
    DivBounds(x, c);
    DivBounds(y, c);
    var p, q := x / c, y / c;
    assert q < p ==> (q + 1) * c <= p * c;
  }

  // ---- rational time bases ----

  datatype Rational = Rational(num: int, den: int)

  predicate Positive(q: Rational) { q.num > 0 && q.den > 0 }

  const AV_TIME_BASE: int := 1000000
  const AV_TIME_BASE_Q := Rational(1, AV_TIME_BASE)

  /** av_rescale: a * b / c, to the nearest integer, ties away from zero. */
  function Rescale(a: int, b: int, c: int): (r: int)
    requires b >= 0 && c > 0
  {
    if a < 0 then -((-a * b + c / 2) / c) else (a * b + c / 2) / c
  }

  /** av_rescale_q: the timestamp `a`, counted in `from`, counted in `to` instead. */
  function RescaleQ(a: int, from: Rational, to: Rational): (r: int)
    requires Positive(from) && Positive(to)
  {
    Rescale(a, from.num * to.den, to.num * from.den)
  }

  /** Rescaling is off by at most half a target tick. */
  lemma RescaleError(a: int, b: int, c: int)
    requires b >= 0 && c > 0
    ensures -c <= 2 * (Rescale(a, b, c) * c - a * b) <= c
  {
    var m := Abs(a) * b + c / 2;
    DivBounds(m, c);
    if a < 0 {
      assert Abs(a) * b == -(a * b) == -a * b;
      assert Rescale(a, b, c) * c == -(m / c) * c == -(m / c * c);
    }
  }

  lemma ProductAssociates(a: int, b: int, c: int)
    ensures a * (b * c) == a * b * c
  {
  }

  lemma ProductNegates(a: int, b: int)
    ensures -a * b == -(a * b)
  {
  }

  lemma ProductNonNegative(a: nat, b: nat)
    ensures a * b >= 0
  {
  }

  lemma WholeTicks(n: int, c: int)
    requires c > 0
    ensures (n * c + c / 2) / c == n
  {
    var x := n * c + c / 2;
    assert 0 <= c / 2 < c;
    DivIs(x, c, n);
  }

  lemma RescaleExact(a: int, k: int, c: int)
    requires k >= 0 && c > 0
    ensures k * c >= 0 && Rescale(a, k * c, c) == a * k
  {
    ProductNonNegative(k, c);
    var b := k * c;
    if a < 0 {
      ProductAssociates(-a, k, c);
      ProductNegates(a, k);
      WholeTicks(-a * k, c);
      assert Rescale(a, b, c) == -((-a * b + c / 2) / c);
    } else {
      ProductAssociates(a, k, c);
      WholeTicks(a * k, c);
      assert Rescale(a, b, c) == (a * b + c / 2) / c;
    }
  }

  lemma RescaleMonotone(a: int, a': int, b: int, c: int)
    requires b >= 0 && c > 0 && a <= a'
    ensures Rescale(a, b, c) <= Rescale(a', b, c)
  {
    if 0 <= a {
      assert a * b <= a' * b;
      DivMonotone(a * b + c / 2, a' * b + c / 2, c);
    } else if a' < 0 {
      assert -a' * b <= -a * b;
      DivMonotone(-a' * b + c / 2, -a * b + c / 2, c);
    } else {
      RescaleSign(a, b, c);
      RescaleSign(a', b, c);
    }
  }

  /** Stamps a whole target tick apart stay apart. */
  lemma RescaleStrict(a: int, a': int, b: int, c: int)
    requires b >= 0 && c > 0 && a * b + c <= a' * b
    ensures Rescale(a, b, c) < Rescale(a', b, c)
  {
    var h := c / 2;
    if 0 <= a && 0 <= a' {
      NextTick(a * b + h, a' * b + h, c);
    } else if a < 0 && a' < 0 {
      ProductNegates(a, b);
      ProductNegates(a', b);
      NextTick(-a' * b + h, -a * b + h, c);
    } else if a < 0 {
      ProductNegates(a, b);
      ProductNonNegative(-a, b);
      ProductNonNegative(a', b);
      ApartFromZero(-a * b, a' * b, c);
    } else {
      ProductNonNegative(a, b);
      ProductNonNegative(-a', b);
      ProductNegates(a', b);
    }
  }

  lemma NextTick(x: int, y: int, c: int)
    requires c > 0 && x + c <= y
    ensures x / c < y / c
  {
    DivBounds(x, c);
    DivMonotone(x + c, y, c);
    DivIs(x + c, c, x / c + 1);
  }

  lemma ApartFromZero(x: nat, y: nat, c: int)
    requires c > 0 && x + y >= c
    ensures -((x + c / 2) / c) < (y + c / 2) / c
  {
    var h := c / 2;
    DivMonotone(0, x + h, c);
    DivMonotone(0, y + h, c);
    DivIs(0, c, 0);
    if x + h >= c {
      DivMonotone(c, x + h, c);
      DivIs(c, c, 1);
    } else {
      DivMonotone(c, y + h, c);
      DivIs(c, c, 1);
    }
  }

  lemma RescaleSign(a: int, b: int, c: int)
    requires b >= 0 && c > 0
    ensures a >= 0 ==> Rescale(a, b, c) >= 0
    ensures a <= 0 ==> Rescale(a, b, c) <= 0
  {
    var m := Abs(a) * b;
    assert m >= 0;
    DivMonotone(0, m + c / 2, c);
    DivIs(c / 2, c, 0);
    if a < 0 {
      assert -a * b == m;
    } else if a == 0 {
      assert a * b == 0;
    }
  }

  /** Between equal time bases rescaling changes nothing. */
  lemma RescaleQIdentity(a: int, q: Rational)
    requires Positive(q)
    ensures RescaleQ(a, q, q) == a
  {
    assert q.num * q.den > 0;
    RescaleExact(a, 1, q.num * q.den);
  }

  /** Into a time base whose tick divides the old one, rescaling is exact. */
  lemma RescaleQRefines(a: int, d: int, k: int)
    requires d > 0 && k > 0
    ensures k * d > 0 && RescaleQ(a, Rational(1, d), Rational(1, k * d)) == a * k
  {
    assert k * d > 0;
    RescaleExact(a, k, d);
  }

  lemma RescaleQMonotone(a: int, a': int, from: Rational, to: Rational)
    requires Positive(from) && Positive(to) && a <= a'
    ensures RescaleQ(a, from, to) <= RescaleQ(a', from, to)
  {
    assert from.num * to.den > 0 && to.num * from.den > 0;
    RescaleMonotone(a, a', from.num * to.den, to.num * from.den);
  }

  /** Division of any integer by a positive one, rounded up. */
  function CeilDiv(x: int, c: int): int
    requires c > 0
  {
    -(-x / c)
  }

  function Clip(x: int, lo: int, hi: int): int {
    if x < lo then lo else if x > hi then hi else x
  }

  /** av_rescale_delta: follow a sample-exact clock (`fs`, last value `last`) as long as the
      coarser input stamps agree with it; also returns the clock's next value. */
  function RescaleDelta(input: Rational, ts: int, fs: Rational, duration: nat, last: Option<int>,
                        output: Rational): (int, int)
    requires Positive(input) && Positive(fs) && Positive(output)
  {
    var simple := (RescaleQ(ts, input, output), RescaleQ(ts, input, fs) + duration);
    if last.None? || duration == 0 || input.num * output.den <= output.num * input.den then simple
    else
      var num, den := input.num * fs.den, fs.num * input.den;
      var a := (2 * ts - 1) * num / den / 2;
      var b := (CeilDiv((2 * ts + 1) * num, den) + 1) / 2;
      if last.value < 2 * a - b || last.value > 2 * b - a then simple
      else
        var this_ := Clip(last.value, a, b);
        (RescaleQ(this_, fs, output), this_ + duration)
  }

  /** Within one time base the delta clock passes stamps through unchanged. */
  lemma RescaleDeltaIdentity(tb: Rational, ts: int, duration: nat, last: Option<int>)
    requires Positive(tb)
    ensures RescaleDelta(tb, ts, tb, duration, last, tb).0 == ts
  {
    RescaleQIdentity(ts, tb);
  }
}
