/** Forced keyframes: parsing the list of times (fftools/ffmpeg_mux_init.c:
    parse_forced_key_frames) and spending them on frames (fftools/ffmpeg_enc.c:
    forced_kf_apply). */
module ForcedKeyframes {
  import opened Arithmetic
  import opened Options

  const CHAPTERS: string := "chapters"

  datatype Chapter = Chapter(start: int, timeBase: Rational)

  datatype Error = ERANGE | BadTime(code: int)

  /** What av_parse_time makes of a duration. */
  datatype Parsed = Time(us: int) | Failed(code: int)

  // ---- the list of times ----

  function CommaAt(s: string): (r: Option<nat>)
    ensures r.Some? ==> r.value < |s| && s[r.value] == ',' && ',' !in s[..r.value]
    ensures r.None? ==> ',' !in s
  {
    if s == "" then None
    else if s[0] == ',' then Some(0)
    else
      var r := CommaAt(s[1..]);
      if r.None? then None else Some(r.value + 1)
  }

  function Split(s: string): (r: seq<string>)
    ensures r != []
    decreases |s|
  {
    var c := CommaAt(s);
    if c.None? then [s] else [s[..c.value]] + Split(s[c.value + 1..])
  }

  function Commas(s: string): nat {
    if s == "" then 0 else (if s[0] == ',' then 1 else 0) + Commas(s[1..])
  }

  predicate Chaptered(token: string) { CHAPTERS <= token }

  /** The times one token stands for; `None` is a time that does not parse. */
  function TimesOf(token: string, chapters: seq<Chapter>, parse: string -> Parsed): Option<seq<int>>
    requires forall i :: 0 <= i < |chapters| ==> Positive(chapters[i].timeBase)
  {
    if Chaptered(token) then
      var offset := if |token| > 8 then parse(token[8..]) else Time(0);
      if offset.Failed? then None else Some(Starts(chapters, offset.us))
    else
      var t := parse(token);
      if t.Failed? then None else Some([t.us])
  }

  function Starts(chapters: seq<Chapter>, offset: int): (r: seq<int>)
    requires forall i :: 0 <= i < |chapters| ==> Positive(chapters[i].timeBase)
    ensures |r| == |chapters|
  {
    seq(|chapters|, i requires 0 <= i < |chapters| =>
      RescaleQ(chapters[i].start, chapters[i].timeBase, AV_TIME_BASE_Q) + offset)
  }

  /** How many times the first `i` tokens announce. */
  function Announced(tokens: seq<string>, nbChapters: nat): nat {
    if tokens == [] then 0
    else Announced(tokens[..|tokens| - 1], nbChapters) + if Chaptered(tokens[|tokens| - 1]) then nbChapters else 1
  }

  datatype Listed = Times(times: seq<int>) | Rejected(error: Error)

  /** The reference: all tokens in order. A chapter list is refused when its times and one for
      each remaining token would not fit an int. */
  function AllTimes(tokens: seq<string>, left: nat, chapters: seq<Chapter>, parse: string -> Parsed): (r: Listed)
    requires forall i :: 0 <= i < |chapters| ==> Positive(chapters[i].timeBase)
    ensures r.Times? ==> |r.times| == Announced(tokens, |chapters|)
    decreases |tokens|
  {
    if tokens == [] then Times([])
    else
      var n := |tokens| - 1;
      var before := AllTimes(tokens[..n], left + 1, chapters, parse);
      if before.Rejected? then before
      else if Chaptered(tokens[n]) && |chapters| > INT_MAX - (|before.times| + left + 1) then Rejected(ERANGE)
      else
        var t := TimesOf(tokens[n], chapters, parse);
        if t.None? then Rejected(BadTime(FailureOf(tokens[n], parse))) else Times(before.times + t.value)
  }

  function FailureOf(token: string, parse: string -> Parsed): int {
    var p := parse(if Chaptered(token) then token[8..] else token);
    if p.Failed? then p.code else 0
  }

  // ---- sorting ----

  function Insert(t: int, s: seq<int>): (r: seq<int>)
    ensures |r| == |s| + 1
  {
    if s == [] || t <= s[0] then [t] + s else [s[0]] + Insert(t, s[1..])
  }

  function Sort(s: seq<int>): (r: seq<int>)
    ensures |r| == |s|
  {
    if s == [] then [] else Insert(s[0], Sort(s[1..]))
  }

  predicate Ascending(s: seq<int>) { forall i, j :: 0 <= i < j < |s| ==> s[i] <= s[j] }

  lemma {:induction false} InsertAdds(t: int, s: seq<int>)
    ensures multiset(Insert(t, s)) == multiset(s) + multiset{t}
  {
    if s != [] && t > s[0] {
      InsertAdds(t, s[1..]);
      assert s == [s[0]] + s[1..];
    }
  }

  predicate AtLeast(s: seq<int>, low: int) { forall i :: 0 <= i < |s| ==> low <= s[i] }

  lemma {:induction false} InsertAscends(t: int, s: seq<int>, low: int)
    requires Ascending(s) && AtLeast(s, low) && low <= t
    ensures Ascending(Insert(t, s)) && AtLeast(Insert(t, s), low)
  {
    if s != [] && t > s[0] {
      InsertAscends(t, s[1..], s[0]);
    }
  }

  lemma {:induction false} SortAscends(s: seq<int>)
    ensures Ascending(Sort(s))
  {
    if s != [] {
      SortAscends(s[1..]);
      var rest := Sort(s[1..]);
      InsertAscends(s[0], rest, if rest == [] then s[0] else Min(s[0], rest[0]));
    }
  }

  /** Sorting orders the times and loses none. */
  lemma {:induction false} SortSorts(s: seq<int>)
    ensures Ascending(Sort(s)) && multiset(Sort(s)) == multiset(s)
  {
    SortAscends(s);
    if s != [] {
      SortSorts(s[1..]);
      InsertAdds(s[0], Sort(s[1..]));
      assert s == [s[0]] + s[1..];
    }
  }

  // ---- the code ----

  datatype Frame = Frame(pts: int, timeBase: Rational, key: bool, sceneChange: bool)

  datatype Kind = NoKind | ForceSource | ForceScdMetadata

  predicate NotBefore(f: Frame, t: int) {
    f.pts * f.timeBase.num * AV_TIME_BASE >= t * f.timeBase.den
  }

  /** What a forcing expression can refer to; NAN is None. */
  datatype Consts = Consts(n: nat, nForced: nat, prevForcedN: Option<nat>, prevForcedT: Option<real>, t: real)

  const NOTHING_JUDGED := Consts(0, 0, None, None, 0.0)

  type Expression = Consts -> bool

  /** The constants after one evaluation at time `t`, and the verdict. */
  function Judged(expr: Expression, c: Consts, t: real): (Consts, bool) {
    var verdict := expr(c.(t := t));
    var counted := c.(t := t, n := c.n + 1);
    (if verdict then counted.(prevForcedN := Some(c.n), prevForcedT := Some(t), nForced := c.nForced + 1) else counted,
     verdict)
  }

  /** How `kf` stands: times spent, the constants, and the first frame's pts. */
  datatype Forcing = Forcing(index: nat, consts: Consts, refPts: Option<int>)

  const UNFORCED := Forcing(0, NOTHING_JUDGED, None)

  /** Seconds from a stamp in the frame's time base to the frame. */
  function Since(ref: int, frame: Frame): real
    requires Positive(frame.timeBase)
  {
    (frame.pts - ref) as real * (frame.timeBase.num as real / frame.timeBase.den as real)
  }

  function RefPts(f: Forcing, frame: Frame): int {
    if f.refPts.Some? then f.refPts.value else frame.pts
  }

  /** One frame: a due time is spent, or else the expression is asked, or else its marks are. */
  function Force(times: seq<int>, kind: Kind, expr: Option<Expression>, f: Forcing, frame: Frame): (Forcing, bool)
    requires Positive(frame.timeBase)
  {
    var g := f.(refPts := Some(RefPts(f, frame)));
    if f.index < |times| && NotBefore(frame, times[f.index]) then (g.(index := f.index + 1), true)
    else if expr.Some? then
      var (c, verdict) := Judged(expr.value, f.consts, Since(RefPts(f, frame), frame));
      (g.(consts := c), verdict)
    else (g, (kind.ForceSource? && frame.key) || (kind.ForceScdMetadata? && frame.sceneChange))
  }

  class KeyframeForce {
    const kind: Kind
    const expr: Option<Expression>
    var pts: array<int>
    var index: nat
    var consts: Consts
    var refPts: Option<int>

    ghost function View(): Forcing
      reads this
    {
      Forcing(index, consts, refPts)
    }

    constructor (kind: Kind, expr: Option<Expression>)
      ensures this.kind == kind && this.expr == expr && pts.Length == 0 && View() == UNFORCED
    {
      this.kind, this.expr := kind, expr;
      index, consts, refPts := 0, NOTHING_JUDGED, None;
      pts := new int[0];
    }

    method CountTokens(spec: string) returns (n: nat)
      ensures n == |Split(spec)|
    {
      n := 1;
      for p := 0 to |spec|
        invariant n == 1 + Commas(spec) - Commas(spec[p..])
      {
        if spec[p] == ',' {
          n := n + 1;
        }
      }
      SplitCounts(spec);
    }

    /** pts grown to `size` entries; the first `index` are kept. */
    method Realloc(a: array<int>, size: nat, index: nat) returns (b: array<int>)
      requires index <= a.Length && index <= size
      ensures fresh(b) && b.Length == size && b[..index] == a[..index]
    {
      b := new int[size];
      for i := 0 to index
        invariant forall k :: 0 <= k < i ==> b[k] == a[k]
      {
        b[i] := a[i];
      }
    }

    method AddChapters(a: array<int>, index: nat, chapters: seq<Chapter>, t: int)
      requires forall i :: 0 <= i < |chapters| ==> Positive(chapters[i].timeBase)
      requires index + |chapters| <= a.Length
      modifies a
      ensures a[..index + |chapters|] == old(a[..index]) + Starts(chapters, t)
    {
      for j := 0 to |chapters|
        invariant a[..index + j] == old(a[..index]) + Starts(chapters, t)[..j]
      {
        a[index + j] := RescaleQ(chapters[j].start, chapters[j].timeBase, AV_TIME_BASE_Q) + t;
        assert a[..index + j + 1] == a[..index + j] + [a[index + j]];
      }
    }

    method QSort(a: array<int>)
      modifies a
      ensures a[..] == Sort(old(a[..]))
    {
      var sorted := Sort(a[..]);
      for i := 0 to a.Length
        invariant a[..i] == sorted[..i]
      {
        a[i] := sorted[i];
      }
    }

    /** One token: writes its times behind the `index` ones in `a`, which holds one place for
        this token and for each of the `left` ones after it. */
    method ParseToken(token: string, a: array<int>, index: nat, left: nat, chapters: seq<Chapter>,
                      parse: string -> Parsed)
      returns (error: Option<Error>, b: array<int>, index': nat)
      requires forall i :: 0 <= i < |chapters| ==> Positive(chapters[i].timeBase)
      requires a.Length == index + left + 1
      modifies a
      ensures b == a || fresh(b)
      ensures error == if Chaptered(token) && |chapters| > INT_MAX - a.Length then Some(ERANGE)
                       else if TimesOf(token, chapters, parse).None? then Some(BadTime(FailureOf(token, parse)))
                       else None
      ensures error.None? ==>
                && index' == index + |TimesOf(token, chapters, parse).value|
                && b.Length == index' + left
                && b[..index'] == old(a[..index]) + TimesOf(token, chapters, parse).value
    {
      b, index', error := a, index, None;
      if CHAPTERS <= token {
        if |chapters| > INT_MAX - a.Length {
          return Some(ERANGE), b, index';
        }
        b := Realloc(a, a.Length + |chapters| - 1, index);
        var t := 0;
        if |token| > 8 {
          var offset := parse(token[8..]);
          if offset.Failed? {
            return Some(BadTime(offset.code)), b, index';
          }
          t := offset.us;
        }
        AddChapters(b, index, chapters, t);
        index' := index + |chapters|;
      } else {
        var time := parse(token);
        if time.Failed? {
          return Some(BadTime(time.code)), b, index';
        }
        b[index] := time.us;
        index' := index + 1;
        assert b[..index'] == b[..index] + [b[index]];
      }
    }

    /** The first `i` tokens are parsed, `p` holds the others, and the array has room for one
        time of each. */
    ghost predicate Underway(tokens: seq<string>, i: nat, p: string, a: array<int>, index: nat,
                             chapters: seq<Chapter>, parse: string -> Parsed)
      requires forall i :: 0 <= i < |chapters| ==> Positive(chapters[i].timeBase)
      reads a
    {
      && i <= |tokens| && a.Length == index + |tokens| - i
      && (i < |tokens| ==> Split(p) == tokens[i..])
      && AllTimes(tokens[..i], |tokens| - i, chapters, parse) == Times(a[..index])
    }

    method Round(ghost tokens: seq<string>, ghost i: nat, left: nat, p: string, a: array<int>, index: nat,
                 chapters: seq<Chapter>, parse: string -> Parsed)
      returns (error: Option<Error>, next: string, b: array<int>, index': nat)
      requires forall i :: 0 <= i < |chapters| ==> Positive(chapters[i].timeBase)
      requires Underway(tokens, i, p, a, index, chapters, parse) && i < |tokens| && left == |tokens| - i - 1
      modifies a
      ensures b == a || fresh(b)
      ensures if error.Some? then AllTimes(tokens, 0, chapters, parse) == Rejected(error.value)
              else Underway(tokens, i + 1, next, b, index', chapters, parse)
    {
      var token;
      token, next := NextToken(tokens, i, p);
      error, b, index' := TakeTimes(tokens, i, left, token, a, index, chapters, parse);
    }

    method NextToken(ghost tokens: seq<string>, ghost i: nat, p: string) returns (token: string, next: string)
      requires i < |tokens| && Split(p) == tokens[i..]
      ensures token == tokens[i] && (i + 1 < |tokens| ==> Split(next) == tokens[i + 1..])
    {
      SplitNext(p, tokens, i);
      var comma := CommaAt(p);
      token := if comma.Some? then p[..comma.value] else p;
      next := if comma.Some? then p[comma.value + 1..] else "";
    }

    method TakeTimes(ghost tokens: seq<string>, ghost i: nat, left: nat, token: string, a: array<int>, index: nat,
                     chapters: seq<Chapter>, parse: string -> Parsed)
      returns (error: Option<Error>, b: array<int>, index': nat)
      requires forall i :: 0 <= i < |chapters| ==> Positive(chapters[i].timeBase)
      requires i < |tokens| && left == |tokens| - i - 1 && token == tokens[i] && a.Length == index + left + 1
      requires AllTimes(tokens[..i], left + 1, chapters, parse) == Times(a[..index])
      modifies a
      ensures b == a || fresh(b)
      ensures if error.Some? then AllTimes(tokens, 0, chapters, parse) == Rejected(error.value)
              else
                && b.Length == index' + left
                && AllTimes(tokens[..i + 1], left, chapters, parse) == Times(b[..index'])
    {
      TokenTaken(tokens, i, left, chapters, parse, a[..index]);
      error, b, index' := ParseToken(token, a, index, left, chapters, parse);
    }

    /** The loop over the tokens, which ends with the array full. */
    method ParseTokens(spec: string, chapters: seq<Chapter>, parse: string -> Parsed)
        returns (error: Option<Error>, a: array<int>)
      requires forall i :: 0 <= i < |chapters| ==> Positive(chapters[i].timeBase)
      ensures fresh(a)
      ensures if error.Some? then AllTimes(Split(spec), 0, chapters, parse) == Rejected(error.value)
              else AllTimes(Split(spec), 0, chapters, parse) == Times(a[..])
    {
      var n := CountTokens(spec);
      a := new int[n];
      var index: nat := 0;
      var p := spec;
      ghost var tokens := Split(spec);
      assert tokens[0..] == tokens;
      for i := 0 to n
        invariant fresh(a) && Underway(tokens, i, p, a, index, chapters, parse)
      {
        error, p, a, index := Round(tokens, i, n - i - 1, p, a, index, chapters, parse);
        if error.Some? {
          return;
        }
      }
      assert tokens[..n] == tokens;
      assert a[..index] == a[..];
      error := None;
    }

    method ParseForcedKeyFrames(spec: string, chapters: seq<Chapter>, parse: string -> Parsed)
        returns (error: Option<Error>)
      requires forall i :: 0 <= i < |chapters| ==> Positive(chapters[i].timeBase)
      modifies this`pts
      ensures var all := AllTimes(Split(spec), 0, chapters, parse);
              if all.Rejected? then error == Some(all.error) && pts == old(pts)
              else error == None && fresh(pts) && pts[..] == Sort(all.times)
    {
      var a;
      error, a := ParseTokens(spec, chapters, parse);
      if error.None? {
        QSort(a);
        pts := a;
      }
    }

    method ForcedKfApply(frame: Frame) returns (forced: bool)
      requires Positive(frame.timeBase)
      modifies this`index, this`consts, this`refPts
      ensures (View(), forced) == Force(pts[..], kind, expr, old(View()), frame)
    {
      if refPts.None? {
        refPts := Some(frame.pts);
      }
      var ptsTime := Since(refPts.value, frame);
      if index < pts.Length && frame.pts * frame.timeBase.num * AV_TIME_BASE >= pts[index] * frame.timeBase.den {
        index := index + 1;
        return true;
      } else if expr.Some? {
        consts := consts.(t := ptsTime);
        var res := expr.value(consts);
        consts := consts.(n := consts.n + 1);
        if res {
          consts := consts.(prevForcedN := Some(consts.n - 1), prevForcedT := Some(consts.t),
                            nForced := consts.nForced + 1);
          return true;
        }
      } else if kind == ForceSource && frame.key {
        return true;
      } else if kind == ForceScdMetadata && frame.sceneChange {
        return true;
      }
      forced := false;
    }
  }

  function Spend(times: seq<int>, index: nat, frame: Frame): nat {
    if index < |times| && NotBefore(frame, times[index]) then index + 1 else index
  }

  lemma {:induction false} SplitCounts(s: string)
    ensures |Split(s)| == 1 + Commas(s)
    decreases |s|
  {
    var c := CommaAt(s);
    NoCommas(s, if c.Some? then c.value else |s|);
    if c.Some? {
      SplitCounts(s[c.value + 1..]);
      assert s[c.value..][1..] == s[c.value + 1..];
    }
  }

  lemma {:induction false} NoCommas(s: string, k: nat)
    requires k <= |s| && ',' !in s[..k]
    ensures Commas(s) == Commas(s[k..])
    decreases k
  {
    if k > 0 {
      assert s[0] == s[..k][0];
      assert s[1..][..k - 1] == s[..k][1..];
      NoCommas(s[1..], k - 1);
      assert s[1..][k - 1..] == s[k..];
    }
  }

  lemma SplitNext(p: string, tokens: seq<string>, i: nat)
    requires i < |tokens| && Split(p) == tokens[i..]
    ensures var c := CommaAt(p);
            && tokens[i] == (if c.Some? then p[..c.value] else p)
            && (c.Some? ==> Split(p[c.value + 1..]) == tokens[i + 1..])
            && (c.None? ==> i + 1 == |tokens|)
  {
    assert tokens[i..][1..] == tokens[i + 1..];
    assert tokens[i] == tokens[i..][0];
  }

  lemma NextTimes(tokens: seq<string>, i: nat, left: nat, chapters: seq<Chapter>, parse: string -> Parsed,
                  done: seq<int>)
    requires forall k :: 0 <= k < |chapters| ==> Positive(chapters[k].timeBase)
    requires i < |tokens| && AllTimes(tokens[..i], left + 1, chapters, parse) == Times(done)
    ensures AllTimes(tokens[..i + 1], left, chapters, parse) ==
            if Chaptered(tokens[i]) && |chapters| > INT_MAX - (|done| + left + 1) then Rejected(ERANGE)
            else if TimesOf(tokens[i], chapters, parse).None? then Rejected(BadTime(FailureOf(tokens[i], parse)))
            else Times(done + TimesOf(tokens[i], chapters, parse).value)
  {
    assert tokens[..i + 1][..i] == tokens[..i];
  }

  /** What parsing token `i` does to the whole list. */
  lemma TokenTaken(tokens: seq<string>, i: nat, left: nat, chapters: seq<Chapter>, parse: string -> Parsed,
                   done: seq<int>)
    requires forall k :: 0 <= k < |chapters| ==> Positive(chapters[k].timeBase)
    requires i < |tokens| && left == |tokens| - i - 1
    requires AllTimes(tokens[..i], left + 1, chapters, parse) == Times(done)
    ensures var all := AllTimes(tokens, 0, chapters, parse);
            if Chaptered(tokens[i]) && |chapters| > INT_MAX - (|done| + left + 1) then all == Rejected(ERANGE)
            else if TimesOf(tokens[i], chapters, parse).None? then
              all == Rejected(BadTime(FailureOf(tokens[i], parse)))
            else
              AllTimes(tokens[..i + 1], left, chapters, parse) ==
              Times(done + TimesOf(tokens[i], chapters, parse).value)
  {
    NextTimes(tokens, i, left, chapters, parse, done);
    var now := AllTimes(tokens[..i + 1], left, chapters, parse);
    if now.Rejected? {
      TokenRejects(tokens, i, left, chapters, parse, now.error);
    }
  }

  /** A token that stops the list stops every longer list too. */
  lemma {:induction false} TokenRejects(tokens: seq<string>, i: nat, left: nat, chapters: seq<Chapter>,
                                        parse: string -> Parsed, e: Error)
    requires forall k :: 0 <= k < |chapters| ==> Positive(chapters[k].timeBase)
    requires i < |tokens| && left == |tokens| - i - 1
    requires AllTimes(tokens[..i + 1], left, chapters, parse) == Rejected(e)
    ensures AllTimes(tokens, 0, chapters, parse) == Rejected(e)
    decreases left
  {
    if left == 0 {
      assert tokens[..i + 1] == tokens;
    } else {
      assert tokens[..i + 2][..i + 1] == tokens[..i + 1];
      TokenRejects(tokens, i + 1, left - 1, chapters, parse, e);
    }
  }
}
