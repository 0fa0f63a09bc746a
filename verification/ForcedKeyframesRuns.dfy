/** The forced keyframes of a run: as many of the requested times as any assignment to frames
    could serve. */
module ForcedKeyframesRuns {
  import opened Arithmetic
  import opened Options
  import opened ForcedKeyframes

  /** How many times are spent after the frames. */
  function Spent(times: seq<int>, frames: seq<Frame>): (k: nat)
    ensures k <= |times|
    decreases |frames|
  {
    if frames == [] then 0 else Spend(times, Spent(times, frames[..|frames| - 1]), frames[|frames| - 1])
  }

  predicate ValidFrames(frames: seq<Frame>) {
    forall i :: 0 <= i < |frames| ==> Positive(frames[i].timeBase)
  }

  /** The last microsecond a frame is not before. */
  function Due(f: Frame): int
    requires Positive(f.timeBase)
  {
    f.pts * f.timeBase.num * AV_TIME_BASE / f.timeBase.den
  }

  /** The order of frames, as far as forcing can tell. */
  predicate DueInOrder(frames: seq<Frame>)
    requires ValidFrames(frames)
  {
    forall i, j :: 0 <= i < j < |frames| ==> Due(frames[i]) <= Due(frames[j])
  }

  lemma NotBeforeIsDue(f: Frame, t: int)
    requires Positive(f.timeBase)
    ensures NotBefore(f, t) <==> t <= Due(f)
  {
    DivAtLeast(f.pts * f.timeBase.num * AV_TIME_BASE, f.timeBase.den, t);
  }

  lemma DivAtLeast(x: int, d: int, t: int)
    requires d > 0
    ensures x >= t * d <==> t <= x / d
  {
    DivBounds(x, d);
    var q := x / d;
    assert t <= q ==> t * d <= q * d;
    assert t >= q + 1 ==> t * d >= (q + 1) * d;
    assert (q + 1) * d == q * d + d;
  }

  /** av_compare_ts on the frames' own time bases. */
  predicate NoLater(f: Frame, g: Frame) {
    f.pts * f.timeBase.num * g.timeBase.den <= g.pts * g.timeBase.num * f.timeBase.den
  }

  /** An assignment of frames to the times they are forced for: each time at most once, and
      no frame before its time. */
  predicate Assignment(m: map<nat, nat>, times: seq<int>, frames: seq<Frame>) {
    && (forall f :: f in m ==> f < |frames| && m[f] < |times| && NotBefore(frames[f], times[m[f]]))
    && (forall f, g :: f in m && g in m && m[f] == m[g] ==> f == g)
  }

  /** Frames in order of time are in order here, whatever their time bases. */
  lemma LaterIsDueLater(f: Frame, g: Frame)
    requires Positive(f.timeBase) && Positive(g.timeBase) && NoLater(f, g)
    ensures Due(f) <= Due(g)
  {
    var fb, gb := f.timeBase.den, g.timeBase.den;
    var a, b := f.pts * f.timeBase.num, g.pts * g.timeBase.num;
    var t := Due(f);
    DivAtLeast(a * AV_TIME_BASE, fb, t);
    CrossMultiply(a, fb, b, gb, t);
    DivAtLeast(b * AV_TIME_BASE, gb, t);
  }

  lemma CrossMultiply(a: int, fb: int, b: int, gb: int, t: int)
    requires fb > 0 && gb > 0 && a * gb <= b * fb && a * AV_TIME_BASE >= t * fb
    ensures b * AV_TIME_BASE >= t * gb
  {
    Scaled(t * fb, a * AV_TIME_BASE, gb);
    assert a * AV_TIME_BASE * gb == a * gb * AV_TIME_BASE;
    assert b * AV_TIME_BASE * fb == b * fb * AV_TIME_BASE;
    assert t * fb * gb == t * gb * fb;
    Unscaled(t * gb, b * AV_TIME_BASE, fb);
  }

  lemma Scaled(x: int, y: int, k: int)
    requires k > 0 && x <= y
    ensures x * k <= y * k
  {
  }

  lemma Unscaled(x: int, y: int, k: int)
    requires k > 0 && x * k <= y * k
    ensures x <= y
  {
    if y < x { Scaled(y + 1, x, k); }
  }

  // ---- greedy is as good as any ----

  /** An injective map into the first k numbers has at most k entries. */
  lemma {:induction false} Pigeonhole(m: map<nat, nat>, k: nat)
    requires forall f :: f in m ==> m[f] < k
    requires forall f, g :: f in m && g in m && m[f] == m[g] ==> f == g
    ensures |m| <= k
    decreases k
  {
    if k == 0 {
      assert m == map[];
    } else if f :| f in m && m[f] == k - 1 {
      var rest := m - {f};
      Pigeonhole(rest, k - 1);
      assert m == rest[f := m[f]];
      assert |m| == |rest| + 1;
    } else {
      Pigeonhole(m, k - 1);
    }
  }

  lemma WithoutKey(m: map<nat, nat>, n: nat)
    ensures |m| <= |m - {n}| + 1
    ensures forall f :: f in m - {n} <==> f in m && f != n
    ensures forall f :: f in m - {n} ==> (m - {n})[f] == m[f]
  {
    var rest := m - {n};
    assert n in m ==> m == rest[n := m[n]];
    assert n !in m ==> m == rest;
  }

  lemma WithoutLast(m: map<nat, nat>, times: seq<int>, frames: seq<Frame>)
    requires frames != [] && Assignment(m, times, frames)
    ensures Assignment(m - {|frames| - 1}, times, frames[..|frames| - 1])
  {
    var n := |frames| - 1;
    var rest := m - {n};
    forall f | f in rest
      ensures f < n && rest[f] < |times| && NotBefore(frames[..n][f], times[rest[f]])
    {
      assert f in m && f != n && frames[..n][f] == frames[f];
    }
    forall f, g | f in rest && g in rest && rest[f] == rest[g]
      ensures f == g
    {
      assert f in m && g in m;
    }
  }

  /** A time the last frame is too early for, no frame can serve, nor any later time. */
  lemma LastTooEarly(times: seq<int>, frames: seq<Frame>, k: nat, f: nat, t: nat)
    requires Ascending(times) && ValidFrames(frames) && DueInOrder(frames)
    requires f < |frames| && k <= t < |times|
    requires !NotBefore(frames[|frames| - 1], times[k])
    ensures !NotBefore(frames[f], times[t])
  {
    NotBeforeIsDue(frames[|frames| - 1], times[k]);
    NotBeforeIsDue(frames[f], times[t]);
    assert Due(frames[f]) <= Due(frames[|frames| - 1]);
    assert times[k] <= times[t];
  }

  /** No assignment serves more of the times than the encoder has spent. */
  lemma {:induction false} NoAssignmentServesMore(m: map<nat, nat>, times: seq<int>, frames: seq<Frame>)
    requires Ascending(times) && ValidFrames(frames) && DueInOrder(frames) && Assignment(m, times, frames)
    ensures |m| <= Spent(times, frames)
    decreases |frames|
  {
    if frames == [] {
      assert m == map[];
    } else {
      var n := |frames| - 1;
      var k := Spent(times, frames[..n]);
      if k < |times| && NotBefore(frames[n], times[k]) {
        WithoutKey(m, n);
        WithoutLast(m, times, frames);
        NoAssignmentServesMore(m - {n}, times, frames[..n]);
      } else {
        forall f | f in m
          ensures m[f] < k
        {
          if k <= m[f] { LastTooEarly(times, frames, k, f, m[f]); }
        }
        Pigeonhole(m, k);
      }
    }
  }

  /** The frames the encoder forces for a time, and the time it spends on each. */
  function Served(times: seq<int>, frames: seq<Frame>): map<nat, nat>
    decreases |frames|
  {
    if frames == [] then map[]
    else
      var n := |frames| - 1;
      var k := Spent(times, frames[..n]);
      if Spent(times, frames) > k then Served(times, frames[..n])[n := k] else Served(times, frames[..n])
  }

  /** What the encoder does is itself an assignment, of exactly the times spent, whatever the
      frames. */
  lemma {:induction false} ServedIsAssignment(times: seq<int>, frames: seq<Frame>)
    ensures Assignment(Served(times, frames), times, frames)
    ensures |Served(times, frames)| == Spent(times, frames)
    ensures forall f :: f in Served(times, frames) ==> Served(times, frames)[f] < Spent(times, frames)
    decreases |frames|
  {
    if frames != [] {
      var n := |frames| - 1;
      ServedIsAssignment(times, frames[..n]);
      ServeOne(Served(times, frames[..n]), times, frames, Spent(times, frames[..n]));
    }
  }

  lemma ServeOne(m: map<nat, nat>, times: seq<int>, frames: seq<Frame>, k: nat)
    requires frames != [] && Assignment(m, times, frames[..|frames| - 1])
    requires forall f :: f in m ==> m[f] < k
    ensures Assignment(m, times, frames)
    ensures var n := |frames| - 1;
            && n !in m
            && |m[n := k]| == |m| + 1
            && (k < |times| && NotBefore(frames[n], times[k]) ==> Assignment(m[n := k], times, frames))
  {
    var n := |frames| - 1;
    assert forall f :: f in m ==> frames[..n][f] == frames[f];
    var more := m[n := k];
    assert forall f :: f in more && f != n ==> f in m;
  }

  /** Whatever times are requested, the encoder has served a maximum of them after every frame. */
  ghost predicate ServesMost(frames: seq<Frame>) {
    forall times, n: nat, m :: n <= |frames| && Ascending(times) && Assignment(m, times, frames[..n]) ==>
      |m| <= Spent(times, frames[..n])
  }

  /** Serving a maximum is exactly a matter of the frames' order in whole microseconds. */
  lemma ForcedIsMaximalExactly(frames: seq<Frame>)
    requires ValidFrames(frames)
    ensures ServesMost(frames) <==> DueInOrder(frames)
  {
    if DueInOrder(frames) {
      forall times, n: nat, m | n <= |frames| && Ascending(times) && Assignment(m, times, frames[..n])
        ensures |m| <= Spent(times, frames[..n])
      {
        NoAssignmentServesMore(m, times, frames[..n]);
      }
    } else {
      var j := FirstDescent(frames);
      var times, m := DescentLoses(frames, j);
    }
  }

  lemma DueInOrderExtends(frames: seq<Frame>)
    requires ValidFrames(frames) && frames != [] && DueInOrder(frames[..|frames| - 1])
    requires |frames| > 1 ==> Due(frames[|frames| - 2]) <= Due(frames[|frames| - 1])
    ensures DueInOrder(frames)
  {
    var n := |frames| - 1;
    var init := frames[..n];
    forall i, j | 0 <= i < j <= n
      ensures Due(frames[i]) <= Due(frames[j])
    {
      assert frames[i] == init[i];
      assert j < n ==> frames[j] == init[j];
      assert i < n - 1 ==> Due(init[i]) <= Due(init[n - 1]);
    }
  }

  /** The first frame due before its predecessor. */
  lemma FirstDescent(frames: seq<Frame>) returns (j: nat)
    requires ValidFrames(frames) && !DueInOrder(frames)
    ensures 0 < j < |frames| && Due(frames[j]) < Due(frames[j - 1]) && DueInOrder(frames[..j])
    decreases |frames|
  {
    var n := |frames| - 1;
    if DueInOrder(frames[..n]) {
      j := n;
      if n == 0 || Due(frames[n - 1]) <= Due(frames[n]) {
        DueInOrderExtends(frames);
        assert false;
      }
    } else {
      j := FirstDescent(frames[..n]);
      assert frames[..n][..j] == frames[..j];
    }
  }

  function Repeated(t: int, k: nat): (r: seq<int>)
    ensures |r| == k && forall i :: 0 <= i < k ==> r[i] == t
  {
    seq(k, _ => t)
  }

  /** The times that a last frame due before its predecessor loses one of. */
  function Trap(frames: seq<Frame>): (times: seq<int>)
    requires ValidFrames(frames) && |frames| > 1
    ensures |times| == |frames|
  {
    var n := |frames| - 1;
    Repeated(Min(Due(frames[0]), Due(frames[n])), n - 1) + [Due(frames[n]), Due(frames[n - 1])]
  }

  predicate EndsInDescent(frames: seq<Frame>) {
    && ValidFrames(frames) && |frames| > 1
    && DueInOrder(frames[..|frames| - 1])
    && Due(frames[|frames| - 1]) < Due(frames[|frames| - 2])
  }

  lemma LowestDue(frames: seq<Frame>, i: nat)
    requires EndsInDescent(frames) && i < |frames|
    ensures Min(Due(frames[0]), Due(frames[|frames| - 1])) <= Due(frames[i])
  {
    var init := frames[..|frames| - 1];
    if 0 < i < |init| {
      assert Due(init[0]) <= Due(init[i]);
    }
  }

  /** The predecessor takes the time the last frame could have served, and leaves the one only
      it could have served. */
  lemma TrapSpends(frames: seq<Frame>)
    requires EndsInDescent(frames)
    ensures Spent(Trap(frames), frames) == |frames| - 1
  {
    var n := |frames| - 1;
    var times := Trap(frames);
    var low := Min(Due(frames[0]), Due(frames[n]));
    forall i | 0 <= i < n - 1
      ensures times[i] == low && low <= Due(frames[i])
    {
      LowestDue(frames, i);
    }
    SpendsEqually(times, frames, n - 1, low);
    assert frames[..n][..n - 1] == frames[..n - 1] && frames[..n][n - 1] == frames[n - 1];
    NotBeforeIsDue(frames[n - 1], times[n - 1]);
    assert Spent(times, frames[..n]) == n;
    NotBeforeIsDue(frames[n], times[n]);
  }

  lemma TrapAscends(frames: seq<Frame>)
    requires EndsInDescent(frames)
    ensures Ascending(Trap(frames))
  {
    LowestDue(frames, |frames| - 1);
  }

  /** A frame due before its predecessor loses a time. */
  lemma DescentLoses(frames: seq<Frame>, j: nat) returns (times: seq<int>, m: map<nat, nat>)
    requires ValidFrames(frames) && 0 < j < |frames|
    requires Due(frames[j]) < Due(frames[j - 1]) && DueInOrder(frames[..j])
    ensures Ascending(times) && Assignment(m, times, frames[..j + 1])
    ensures |m| == j + 1 && Spent(times, frames[..j + 1]) == j
  {
    var all := frames[..j + 1];
    assert all[..j] == frames[..j];
    times := Trap(all);
    m := Swapped(j);
    TrapAscends(all);
    TrapSpends(all);
    SwappedAssignment(all);
    SwappedLooks(j);
  }

  /** Frames not before the least time spend a copy of it each. */
  lemma {:induction false} SpendsEqually(times: seq<int>, frames: seq<Frame>, k: nat, low: int)
    requires ValidFrames(frames) && k <= |frames| && k <= |times|
    requires forall i :: 0 <= i < k ==> times[i] == low && low <= Due(frames[i])
    ensures Spent(times, frames[..k]) == k
    decreases k
  {
    if k > 0 {
      SpendsEqually(times, frames, k - 1, low);
      assert frames[..k][..k - 1] == frames[..k - 1];
      NotBeforeIsDue(frames[k - 1], times[k - 1]);
    }
  }

  function Identity(k: nat): map<nat, nat> {
    if k == 0 then map[] else Identity(k - 1)[k - 1 := k - 1]
  }

  lemma {:induction false} IdentityLooks(k: nat)
    ensures forall i: nat :: i in Identity(k) <==> i < k
    ensures forall i: nat :: i in Identity(k) ==> Identity(k)[i] == i
    ensures |Identity(k)| == k
  {
    if k > 0 {
      IdentityLooks(k - 1);
    }
  }

  /** Every frame serves the time of its own number, but the last two trade theirs. */
  function Swapped(j: nat): map<nat, nat>
    requires j > 0
  {
    Identity(j - 1)[j - 1 := j][j := j - 1]
  }

  lemma SwappedLooks(j: nat)
    requires j > 0
    ensures |Swapped(j)| == j + 1
    ensures forall i: nat :: i in Swapped(j) <==> i <= j
    ensures forall i: nat :: i in Swapped(j) ==> Swapped(j)[i] == if i == j then j - 1 else if i == j - 1 then j else i
  {
    IdentityLooks(j - 1);
  }

  lemma SwappedAssignment(frames: seq<Frame>)
    requires EndsInDescent(frames)
    ensures Assignment(Swapped(|frames| - 1), Trap(frames), frames)
  {
    var n := |frames| - 1;
    var m, times := Swapped(n), Trap(frames);
    SwappedLooks(n);
    forall f | f in m
      ensures f < |frames| && m[f] < |times| && NotBefore(frames[f], times[m[f]])
    {
      LowestDue(frames, f);
      NotBeforeIsDue(frames[f], times[m[f]]);
    }
  }

  /** With frames in order of time, the encoder serves a maximum of the parsed times at every
      point of the run, and what it serves is an assignment of that size. */
  lemma ForcedIsMaximal(requested: seq<int>, frames: seq<Frame>, n: nat, m: map<nat, nat>)
    requires ValidFrames(frames) && n <= |frames|
    requires forall i, j :: 0 <= i < j < |frames| ==> NoLater(frames[i], frames[j])
    requires Assignment(m, Sort(requested), frames[..n])
    ensures |m| <= |Served(Sort(requested), frames[..n])|
    ensures Assignment(Served(Sort(requested), frames[..n]), Sort(requested), frames[..n])
  {
    forall i, j | 0 <= i < j < |frames|
      ensures Due(frames[i]) <= Due(frames[j])
    {
      LaterIsDueLater(frames[i], frames[j]);
    }
    SortSorts(requested);
    NoAssignmentServesMore(m, Sort(requested), frames[..n]);
    ServedIsAssignment(Sort(requested), frames[..n]);
  }

  /** Every requested time comes to be served once enough frames follow it: after as many
      frames not before the last time as there are times. */
  lemma {:induction false} AllServedInTheEnd(times: seq<int>, lead: seq<Frame>, late: seq<Frame>)
    requires Ascending(times) && ValidFrames(late)
    requires forall i :: 0 <= i < |late| ==> times != [] ==> NotBefore(late[i], times[|times| - 1])
    ensures Spent(times, lead + late) >= Min(|times|, Spent(times, lead) + |late|)
    decreases |late|
  {
    if late == [] {
      assert lead + late == lead;
    } else {
      var n := |late| - 1;
      AllServedInTheEnd(times, lead, late[..n]);
      assert (lead + late)[..|lead + late| - 1] == lead + late[..n];
      var k := Spent(times, lead + late[..n]);
      if k < |times| {
        NotBeforeIsDue(late[n], times[|times| - 1]);
        NotBeforeIsDue(late[n], times[k]);
        assert times[k] <= times[|times| - 1];
      }
    }
  }

  /** Out of order, frames can serve less: the time 0 takes the frame that 5 needed. */
  lemma DisorderCostsATime()
    ensures var tb := AV_TIME_BASE_Q;
            var frames := [Frame(5, tb, false, false), Frame(0, tb, false, false)];
            Spent([0, 5], frames) == 1 && Assignment(map[0 := 1, 1 := 0], [0, 5], frames)
  {
    var tb := AV_TIME_BASE_Q;
    var frames := [Frame(5, tb, false, false), Frame(0, tb, false, false)];
    assert frames[..1] == [frames[0]] && frames[..1][..0] == [];
    assert Spent([0, 5], frames[..1]) == 1;
  }

  /** Two frames of a nanosecond clock out of order within one microsecond lose nothing. */
  lemma DisorderWithinAMicrosecond()
    ensures var tb := Rational(1, 1000 * AV_TIME_BASE);
            var frames := [Frame(700, tb, false, false), Frame(200, tb, false, false)];
            !NoLater(frames[0], frames[1]) && ServesMost(frames)
  {
    var tb := Rational(1, 1000 * AV_TIME_BASE);
    var frames := [Frame(700, tb, false, false), Frame(200, tb, false, false)];
    DueAtOnce(frames);
  }

  lemma DueAtOnce(frames: seq<Frame>)
    requires ValidFrames(frames) && forall k :: 0 <= k < |frames| ==> Due(frames[k]) == 0
    ensures ServesMost(frames)
  {
    ForcedIsMaximalExactly(frames);
  }

  // ---- forcing by expression ----

  /** The state after some frames. */
  function Forced(times: seq<int>, kind: Kind, expr: Option<Expression>, frames: seq<Frame>): Forcing
    requires ValidFrames(frames)
    decreases |frames|
  {
    if frames == [] then UNFORCED
    else Force(times, kind, expr, Forced(times, kind, expr, frames[..|frames| - 1]), frames[|frames| - 1]).0
  }

  datatype Judgement = Judgement(t: real, verdict: bool)

  /** The frames the expression was asked about, with its verdicts. */
  function Judgements(times: seq<int>, kind: Kind, expr: Expression, frames: seq<Frame>): seq<Judgement>
    requires ValidFrames(frames)
    decreases |frames|
  {
    if frames == [] then []
    else
      var n := |frames| - 1;
      var before := Judgements(times, kind, expr, frames[..n]);
      if Spent(times, frames) > Spent(times, frames[..n]) then before
      else
        var t := Since(frames[0].pts, frames[n]);
        before + [Judgement(t, Judged(expr, Forced(times, kind, Some(expr), frames[..n]).consts, t).1)]
  }

  function Approvals(js: seq<Judgement>): nat {
    if js == [] then 0 else Approvals(js[..|js| - 1]) + if js[|js| - 1].verdict then 1 else 0
  }

  /** The last approval, if any. */
  function LastApproval(js: seq<Judgement>): (r: Option<nat>)
    ensures r.Some? ==> r.value < |js| && js[r.value].verdict && forall k :: r.value < k < |js| ==> !js[k].verdict
    ensures r.None? ==> forall k :: 0 <= k < |js| ==> !js[k].verdict
  {
    if js == [] then None
    else if js[|js| - 1].verdict then Some(|js| - 1)
    else LastApproval(js[..|js| - 1])
  }

  /** `c` is what an expression should see after the judgements `js`. */
  predicate Tells(c: Consts, js: seq<Judgement>) {
    && c.n == |js| && c.nForced == Approvals(js)
    && c.prevForcedN == LastApproval(js)
    && c.prevForcedT == (if LastApproval(js).None? then None else Some(js[LastApproval(js).value].t))
  }

  lemma TellsMore(c: Consts, js: seq<Judgement>, expr: Expression, t: real)
    requires Tells(c, js)
    ensures var (d, verdict) := Judged(expr, c, t); Tells(d, js + [Judgement(t, verdict)])
  {
    var (d, verdict) := Judged(expr, c, t);
    assert (js + [Judgement(t, verdict)])[..|js|] == js;
  }

  /** The constants an expression sees tell its own history: how often it was asked, how often
      it approved, and number and time of its last approval, all since the first frame. */
  lemma {:induction false} ConstsTellHistory(times: seq<int>, kind: Kind, expr: Expression, frames: seq<Frame>)
    requires ValidFrames(frames)
    ensures var f := Forced(times, kind, Some(expr), frames);
            && f.index == Spent(times, frames)
            && f.refPts == (if frames == [] then None else Some(frames[0].pts))
            && Tells(f.consts, Judgements(times, kind, expr, frames))
    decreases |frames|
  {
    if frames != [] {
      var n := |frames| - 1;
      ConstsTellHistory(times, kind, expr, frames[..n]);
      assert n > 0 ==> frames[..n][0] == frames[0];
      var f := Forced(times, kind, Some(expr), frames[..n]);
      var t := Since(frames[0].pts, frames[n]);
      ForceEffects(times, kind, expr, f, frames[n]);
      assert Spent(times, frames) == Spend(times, f.index, frames[n]);
      TellsMore(f.consts, Judgements(times, kind, expr, frames[..n]), expr, t);
    }
  }

  lemma ForceEffects(times: seq<int>, kind: Kind, expr: Expression, f: Forcing, frame: Frame)
    requires Positive(frame.timeBase)
    ensures var g := Force(times, kind, Some(expr), f, frame).0;
            && g.refPts == Some(RefPts(f, frame))
            && g.index == Spend(times, f.index, frame)
            && g.consts == if g.index > f.index then f.consts
                           else Judged(expr, f.consts, Since(RefPts(f, frame), frame)).0
  {
  }
}
