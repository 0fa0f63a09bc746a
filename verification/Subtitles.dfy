/** Fixing subtitle durations in the decoder (fftools/ffmpeg_dec.c: process_subtitle and
    fix_sub_duration_heartbeat). */
module Subtitles {
  import opened Arithmetic
  import opened Options

  const INT32: int := 0x1_0000_0000

  /** `pts` is in microseconds; `endDisplay`, an unsigned 32-bit number, in milliseconds after
      it. `id` stands for the content. */
  datatype Subtitle = Subtitle(id: int, pts: int, endDisplay: int, rects: nat)

  predicate ValidSubtitle(s: Subtitle) { 0 <= s.endDisplay < INT32 }

  /** Conversion of a 64-bit number to int. */
  function ToInt(x: int): (r: int)
    ensures -INT32 / 2 <= r < INT32 / 2 && (r - x) % INT32 == 0
  {
    (x + INT32 / 2) % INT32 - INT32 / 2
  }

  /** Comparing with an unsigned number, or storing into one, converts an int first. */
  function ToUnsigned(x: int): int { x % INT32 }

  // ---- the specification ----

  /** Milliseconds from one subtitle to the next. */
  function Gap(s: Subtitle, next: Subtitle): int {
    ToInt(Rescale(next.pts - s.pts, 1000, AV_TIME_BASE))
  }

  function Cut(s: Subtitle, next: Subtitle): Subtitle {
    var end := Gap(s, next);
    if ToUnsigned(end) < s.endDisplay then s.(endDisplay := ToUnsigned(end)) else s
  }

  /** What follows from one subtitle when the next one is known. */
  function Released(s: Subtitle, next: Subtitle): seq<Subtitle> {
    if Gap(s, next) <= 0 then [] else [Cut(s, next)]
  }

  /** The reference: each subtitle but the last, cut by its successor. */
  function Shown(entered: seq<Subtitle>): (r: seq<Subtitle>)
    decreases |entered|
  {
    if |entered| < 2 then []
    else
      var n := |entered| - 1;
      Shown(entered[..n]) + Released(entered[n - 1], entered[n])
  }

  datatype Event = Decoded(sub: Subtitle) | Heartbeat(signal: int)

  function TimeOf(e: Event): int { if e.Decoded? then e.sub.pts else e.signal }

  /** What a heartbeat puts in: a copy of the pending subtitle from now on. */
  function Enters(pending: Option<Subtitle>, e: Event): seq<Subtitle> {
    match e
    case Decoded(sub) => [sub]
    case Heartbeat(signal) =>
      if pending.None? || pending.value.rects == 0 || signal <= pending.value.pts then []
      else [pending.value.(pts := signal)]
  }

  function Last(entered: seq<Subtitle>): Option<Subtitle> {
    if entered == [] then None else Some(entered[|entered| - 1])
  }

  /** Everything that reached process_subtitle, heartbeat copies included. */
  function Entered(events: seq<Event>): seq<Subtitle>
    decreases |events|
  {
    if events == [] then []
    else
      var before := Entered(events[..|events| - 1]);
      before + Enters(Last(before), events[|events| - 1])
  }

  predicate Chronological(events: seq<Event>) {
    forall i, j :: 0 <= i < j < |events| ==> TimeOf(events[i]) <= TimeOf(events[j])
  }

  // ---- the code ----

  const AVERROR_EOF: int := -541478725
  const AVERROR_EXIT: int := -1414092869

  class SubtitleDecoder {
    const fixSubDuration: bool
    var current: Option<Subtitle>
    var previous: Option<Subtitle>
    /** What was handed to sch_dec_send. */
    var sent: seq<Subtitle>

    constructor (fix: bool)
      ensures fixSubDuration == fix && current == None && sent == []
    {
      fixSubDuration := fix;
      current, previous, sent := None, None, [];
    }

    /** `answer` is what sch_dec_send returns, should it be called. */
    method ProcessSubtitle(subtitle: Subtitle, answer: int) returns (ret: int)
      requires ValidSubtitle(subtitle)
      modifies this`current, this`previous, this`sent
      ensures fixSubDuration ==>
                && current == Some(subtitle)
                && sent == old(sent) + (if old(current).Some? then Released(old(current).value, subtitle) else [])
      ensures !fixSubDuration ==> current == old(current) && sent == old(sent) + [subtitle]
      ensures ret == if sent == old(sent) then 0 else if answer == AVERROR_EOF then AVERROR_EXIT else answer
    {
      var frame := Some(subtitle);
      if fixSubDuration {
        var end := 1;
        if current.Some? {
          end := ToInt(Rescale(subtitle.pts - current.value.pts, 1000, AV_TIME_BASE));
          if ToUnsigned(end) < current.value.endDisplay {
            current := Some(current.value.(endDisplay := ToUnsigned(end)));
          }
        }
        previous := frame;
        frame := current;
        current, previous := previous, current;
        if end <= 0 {
          return 0;
        }
      }
      if frame.None? {
        return 0;
      }
      sent := sent + [frame.value];
      if fixSubDuration {
        previous := None;
      }
      ret := if answer == AVERROR_EOF then AVERROR_EXIT else answer;
    }

    method FixSubDurationHeartbeat(signalPts: int, answer: int) returns (ret: int)
      requires current.Some? ==> ValidSubtitle(current.value)
      modifies this`current, this`previous, this`sent
      ensures !fixSubDuration ==> current == old(current) && sent == old(sent) && ret == 0
      ensures fixSubDuration ==>
                var copy := Enters(old(current), Heartbeat(signalPts));
                && current == (if copy == [] then old(current) else Some(copy[0]))
                && sent == old(sent) + (if copy == [] then [] else Released(old(current).value, copy[0]))
    {
      ret := 0;
      if fixSubDuration && current.Some? && current.value.rects > 0 && signalPts > current.value.pts {
        var heartbeat := current.value.(pts := signalPts);
        ret := ProcessSubtitle(heartbeat, answer);
      }
    }

    /** A whole run, sends answered by `answers`. */
    method Replay(events: seq<Event>, answers: seq<int>)
      requires fixSubDuration && current == None && sent == [] && |answers| == |events|
      requires forall i :: 0 <= i < |events| && events[i].Decoded? ==> ValidSubtitle(events[i].sub)
      modifies this`current, this`previous, this`sent
      ensures current == Last(Entered(events))
      ensures sent == Shown(Entered(events))
    {
      var i := 0;
      while i < |events|
        invariant 0 <= i <= |events| && HasTaken(events[..i])
      {
        Take(events[i], answers[i], events[..i]);
        assert events[..i] + [events[i]] == events[..i + 1];
        i := i + 1;
      }
      assert events[..i] == events;
    }

    ghost predicate HasTaken(events: seq<Event>)
      reads this
    {
      && current == Last(Entered(events)) && sent == Shown(Entered(events))
      && (current.Some? ==> ValidSubtitle(current.value))
    }

    /** One more event after those in `before`. */
    method Take(event: Event, answer: int, ghost before: seq<Event>)
      requires fixSubDuration && HasTaken(before) && (event.Decoded? ==> ValidSubtitle(event.sub))
      modifies this`current, this`previous, this`sent
      ensures HasTaken(before + [event])
    {
      ghost var entered := Entered(before);
      EnteredExtends(before, event);
      ShownExtends(entered, Enters(Last(entered), event));
      var ret;
      if event.Decoded? {
        ret := ProcessSubtitle(event.sub, answer);
      } else {
        ret := FixSubDurationHeartbeat(event.signal, answer);
      }
    }
  }

  lemma EnteredExtends(before: seq<Event>, event: Event)
    ensures var more := Enters(Last(Entered(before)), event);
            && Entered(before + [event]) == Entered(before) + more
            && Last(Entered(before + [event])) == if more == [] then Last(Entered(before)) else Some(more[0])
  {
    assert (before + [event])[..|before|] == before;
  }

  lemma ShownExtends(entered: seq<Subtitle>, more: seq<Subtitle>)
    requires |more| <= 1
    ensures Shown(entered + more) == Shown(entered) +
              (if more == [] || entered == [] then [] else Released(entered[|entered| - 1], more[0]))
  {
    if more == [] {
      assert entered + more == entered;
    } else {
      assert (entered + more)[..|entered|] == entered;
    }
  }

  // ---- what viewers get ----

  predicate InOrder(subs: seq<Subtitle>) {
    forall i, j :: 0 <= i < j < |subs| ==> subs[i].pts <= subs[j].pts
  }

  predicate EndsBy(subs: seq<Subtitle>, time: int) {
    subs != [] ==> subs[|subs| - 1].pts <= time
  }

  lemma AppendInOrder(subs: seq<Subtitle>, more: seq<Subtitle>, time: int)
    requires InOrder(subs) && EndsBy(subs, time) && |more| <= 1
    requires more != [] ==> more[0].pts == time
    ensures InOrder(subs + more) && EndsBy(subs + more, time)
  {
    if more != [] {
      var all := subs + more;
      forall i, j | 0 <= i < j < |all|
        ensures all[i].pts <= all[j].pts
      {
        if j == |subs| && i < |subs| - 1 {
          assert subs[i].pts <= subs[|subs| - 1].pts;
        }
      }
    } else {
      assert subs + more == subs;
    }
  }

  /** In a chronological run what enters stays in order. */
  lemma {:induction false} EnteredInOrder(events: seq<Event>)
    requires Chronological(events)
    ensures InOrder(Entered(events))
    ensures events != [] ==> EndsBy(Entered(events), TimeOf(events[|events| - 1]))
    decreases |events|
  {
    if events != [] {
      var n := |events| - 1;
      var before := Entered(events[..n]);
      EnteredInOrder(events[..n]);
      if n > 0 { assert TimeOf(events[n - 1]) <= TimeOf(events[n]); }
      AppendInOrder(before, Enters(Last(before), events[n]), TimeOf(events[n]));
    }
  }

  /** Where the k-th shown subtitle comes from. */
  function Source(entered: seq<Subtitle>, k: nat): (i: nat)
    requires k < |Shown(entered)|
    ensures i + 1 < |entered|
    ensures Gap(entered[i], entered[i + 1]) > 0 && Shown(entered)[k] == Cut(entered[i], entered[i + 1])
    decreases |entered|
  {
    var n := |entered| - 1;
    if k < |Shown(entered[..n])| then Source(entered[..n], k) else n - 1
  }

  /** One behind, in order, each at most once. */
  lemma {:induction false} ShownInOrder(entered: seq<Subtitle>, k: nat, l: nat)
    requires k < l < |Shown(entered)|
    ensures Source(entered, k) < Source(entered, l)
    decreases |entered|
  {
    var n := |entered| - 1;
    if l < |Shown(entered[..n])| {
      ShownInOrder(entered[..n], k, l);
    }
  }

  /** Where a subtitle with a positive gap is shown. */
  lemma {:induction false} ShownAt(entered: seq<Subtitle>, i: nat) returns (k: nat)
    requires i + 1 < |entered| && Gap(entered[i], entered[i + 1]) > 0
    ensures k < |Shown(entered)| && Source(entered, k) == i
    decreases |entered|
  {
    var n := |entered| - 1;
    var init := entered[..n];
    if i == n - 1 {
      k := |Shown(init)|;
    } else {
      k := ShownAt(init, i);
    }
  }

  /** A subtitle with a successor is shown exactly if the gap is positive. */
  lemma ShownExactly(entered: seq<Subtitle>, i: nat)
    requires i + 1 < |entered|
    ensures (exists k :: 0 <= k < |Shown(entered)| && Source(entered, k) == i) <==> Gap(entered[i], entered[i + 1]) > 0
  {
    if Gap(entered[i], entered[i + 1]) > 0 {
      var k := ShownAt(entered, i);
    }
  }

  /** ... which it is when the milliseconds between them, counted modulo 2^32, are some but
      less than 2^31. */
  lemma PositiveGap(s: Subtitle, next: Subtitle)
    ensures Gap(s, next) > 0 <==> 0 < Rescale(next.pts - s.pts, 1000, AV_TIME_BASE) % INT32 < INT32 / 2
  {
    PositiveInt(Rescale(next.pts - s.pts, 1000, AV_TIME_BASE));
  }

  lemma PositiveInt(x: int)
    ensures ToInt(x) > 0 <==> 0 < x % INT32 < INT32 / 2
  {
    var q, m, half := x / INT32, x % INT32, INT32 / 2;
    assert x == q * INT32 + m;
    if m < half {
      ModOfSum(q, m + half);
    } else {
      ModOfSum(q + 1, m - half);
    }
  }

  /** In order of time, and in microseconds: half a millisecond or more, wrapping around. */
  lemma PositiveGapExactly(s: Subtitle, next: Subtitle)
    requires s.pts <= next.pts
    ensures Gap(s, next) > 0 <==> 1000 <= (next.pts - s.pts + 500) % (1000 * INT32) < 1000 * (INT32 / 2)
  {
    var d := next.pts - s.pts + 500;
    var r := Rescale(next.pts - s.pts, 1000, AV_TIME_BASE);
    Thousandths(next.pts - s.pts);
    var turns, rest := d / (1000 * INT32), d % (1000 * INT32);
    assert d == turns * (1000 * INT32) + rest;
    DivIs(d, 1000, turns * INT32 + rest / 1000);
    assert r == turns * INT32 + rest / 1000;
    ModOfSum(turns, rest / 1000);
    PositiveGap(s, next);
  }

  lemma Thousandths(d: int)
    requires d >= 0
    ensures Rescale(d, 1000, AV_TIME_BASE) == (d + 500) / 1000
  {
    DivIs(d * 1000 + AV_TIME_BASE / 2, AV_TIME_BASE, (d + 500) / 1000);
  }

  lemma ModOfSum(turns: int, rest: int)
    requires 0 <= rest < INT32
    ensures (turns * INT32 + rest) % INT32 == rest
  {
    DivIs(turns * INT32 + rest, INT32, turns);
  }

  /** So a subtitle 25 days before the next one is dropped, */
  lemma LongGapDropsSubtitle(s: Subtitle, next: Subtitle)
    requires next.pts - s.pts == 25 * 24 * 3600 * AV_TIME_BASE
    ensures Released(s, next) == []
  {
    PositiveGapExactly(s, next);
  }

  /** and one 2^32 milliseconds and a second before it is cut to that second. */
  lemma LongerGapCutsSubtitle(s: Subtitle, next: Subtitle)
    requires next.pts - s.pts == (INT32 + 1000) * 1000 && s.endDisplay > 1000
    ensures Released(s, next) == [s.(endDisplay := 1000)]
  {
    Thousandths(next.pts - s.pts);
    assert Rescale(next.pts - s.pts, 1000, AV_TIME_BASE) == INT32 + 1000;
    assert Gap(s, next) == 1000;
  }

  lemma CutEndsInTime(s: Subtitle, next: Subtitle)
    requires ValidSubtitle(s) && s.pts <= next.pts && Gap(s, next) > 0
    ensures var c := Cut(s, next);
            && c == s.(endDisplay := c.endDisplay)
            && 0 <= c.endDisplay <= s.endDisplay
            && s.pts + 1000 * c.endDisplay <= next.pts + 500
  {
    var diff := next.pts - s.pts;
    var r := Rescale(diff, 1000, AV_TIME_BASE);
    RescaleError(diff, 1000, AV_TIME_BASE);
    RescaleSign(diff, 1000, AV_TIME_BASE);
    assert ToInt(r) <= r;
    assert ToUnsigned(ToInt(r)) == ToInt(r);
  }

  /** No shown subtitle outlasts the start of any later one by more than half a
      millisecond, whatever durations the decoder gave them. */
  lemma NoOverlap(events: seq<Event>, k: nat, j: nat)
    requires Chronological(events)
    requires forall i :: 0 <= i < |events| && events[i].Decoded? ==> ValidSubtitle(events[i].sub)
    requires k < |Shown(Entered(events))| && Source(Entered(events), k) < j < |Entered(events)|
    ensures var s := Shown(Entered(events))[k];
            && s.pts == Entered(events)[Source(Entered(events), k)].pts
            && s.pts + 1000 * s.endDisplay <= Entered(events)[j].pts + 500
  {
    EnteredInOrder(events);
    EnteredValid(events);
    ShownEndsInTime(Entered(events), k, j);
  }

  lemma ShownEndsInTime(e: seq<Subtitle>, k: nat, j: nat)
    requires InOrder(e) && forall i :: 0 <= i < |e| ==> ValidSubtitle(e[i])
    requires k < |Shown(e)| && Source(e, k) < j < |e|
    ensures Shown(e)[k].pts == e[Source(e, k)].pts
    ensures Shown(e)[k].pts + 1000 * Shown(e)[k].endDisplay <= e[j].pts + 500
  {
    var i := Source(e, k);
    var s, next := e[i], e[i + 1];
    InTurn(e, i, j);
    assert ValidSubtitle(s);
    CutEndsInTime(s, next);
    assert Shown(e)[k] == Cut(s, next);
  }

  lemma InTurn(e: seq<Subtitle>, i: nat, j: nat)
    requires InOrder(e) && i < j < |e|
    ensures e[i].pts <= e[i + 1].pts <= e[j].pts
  {
    if i + 1 < j {
      assert e[i + 1].pts <= e[j].pts;
    }
  }

  lemma {:induction false} EnteredValid(events: seq<Event>)
    requires forall i :: 0 <= i < |events| && events[i].Decoded? ==> ValidSubtitle(events[i].sub)
    ensures forall i :: 0 <= i < |Entered(events)| ==> ValidSubtitle(Entered(events)[i])
    decreases |events|
  {
    if events != [] {
      EnteredValid(events[..|events| - 1]);
    }
  }

  // ---- heartbeats only split ----

  /** The decoder's own subtitles, in order. */
  function Originals(events: seq<Event>): seq<int>
    decreases |events|
  {
    if events == [] then []
    else
      var last := events[|events| - 1];
      Originals(events[..|events| - 1]) + if last.Decoded? then [last.sub.id] else []
  }

  /** The contents of a list with neighbouring repetitions of heartbeat copies merged:
      `decoded[i]` tells the subtitles the decoder produced. */
  function Contents(entered: seq<Subtitle>, decoded: seq<bool>): seq<int>
    requires |entered| == |decoded|
    decreases |entered|
  {
    if entered == [] then []
    else
      var n := |entered| - 1;
      Contents(entered[..n], decoded[..n]) + if decoded[n] then [entered[n].id] else []
  }

  function Freshness(events: seq<Event>): (r: seq<bool>)
    ensures |r| == |Entered(events)|
    decreases |events|
  {
    if events == [] then []
    else
      var last := events[|events| - 1];
      var before := Freshness(events[..|events| - 1]);
      before + if Enters(Last(Entered(events[..|events| - 1])), last) == [] then [] else [last.Decoded?]
  }

  /** Entries that were not decoded are later copies of the entry before them. */
  predicate Copies(e: seq<Subtitle>, decoded: seq<bool>)
    requires |e| == |decoded|
  {
    forall i :: 0 <= i < |e| && !decoded[i] ==> i > 0 && e[i] == e[i - 1].(pts := e[i].pts) && e[i - 1].pts < e[i].pts
  }

  /** Every decoded subtitle enters once, and a heartbeat only adds a later copy of the one
      before it. */
  lemma {:induction false} HeartbeatsOnlySplit(events: seq<Event>)
    ensures var e, f := Entered(events), Freshness(events);
            Contents(e, f) == Originals(events) && Copies(e, f)
    decreases |events|
  {
    if events != [] {
      var init := events[..|events| - 1];
      HeartbeatsOnlySplit(init);
      SplitMore(Entered(init), Freshness(init), events[|events| - 1]);
    }
  }

  lemma SplitMore(before: seq<Subtitle>, f: seq<bool>, event: Event)
    requires |before| == |f| && Copies(before, f)
    ensures var more := Enters(Last(before), event);
            var g := f + if more == [] then [] else [event.Decoded?];
            && |before + more| == |g|
            && Copies(before + more, g)
            && Contents(before + more, g) == Contents(before, f) + if event.Decoded? then [event.sub.id] else []
  {
    var more := Enters(Last(before), event);
    if more == [] {
      assert before + more == before && f + [] == f;
    } else {
      ContentsMore(before, f, more[0], event.Decoded?);
      assert more == [more[0]];
      CopiesMore(before, f, more[0], event.Decoded?);
    }
  }

  lemma CopiesMore(before: seq<Subtitle>, f: seq<bool>, s: Subtitle, decoded: bool)
    requires |before| == |f| && Copies(before, f)
    requires decoded || (before != [] && s == Last(before).value.(pts := s.pts) && Last(before).value.pts < s.pts)
    ensures Copies(before + [s], f + [decoded])
  {
  }

  lemma ContentsMore(before: seq<Subtitle>, f: seq<bool>, s: Subtitle, decoded: bool)
    requires |before| == |f|
    ensures Contents(before + [s], f + [decoded]) == Contents(before, f) + if decoded then [s.id] else []
  {
    assert (before + [s])[..|before|] == before && (f + [decoded])[..|f|] == f;
  }
}
