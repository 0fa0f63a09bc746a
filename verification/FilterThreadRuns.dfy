/** Whole runs of the filtering thread. */
module FilterThreadRuns {
  import opened Options
  import opened FilterThread

  /** The thread after `es`; messages the scheduler could not have delivered are no messages. */
  function Run(t: Thread, es: seq<Event>): Thread {
    if es == [] then t
    else
      var before := Run(t, es[..|es| - 1]);
      if Deliverable(before, es[|es| - 1]) then Turn(before, es[|es| - 1]) else before
  }

  // ---- the state that should be unreachable ----

  /** A running thread without a graph is still waiting for somebody's format. */
  ghost predicate Sound(t: Thread) {
    && !t.status.AssertionFailed?
    && (t.status.Running? ==>
      && (forall k :: 0 <= k < |t.inputs| ==> t.inputs[k].known.None? ==> !t.inputs[k].eofIn)
      && (t.configured <==> HasAllFormats(t.inputs)))
  }

  predicate RefusesWithEof(build: Build) { build == Refused(Eof) }

  lemma SameFormatsSound(t: Thread, u: Thread)
    requires Sound(t) && t.status.Running? && u.status.Running? && u.configured == t.configured
    requires |u.inputs| == |t.inputs|
    requires forall k :: 0 <= k < |t.inputs| ==>
      && u.inputs[k].known == t.inputs[k].known
      && (t.configured || u.inputs[k].known.Some? || u.inputs[k].eofIn == t.inputs[k].eofIn)
    ensures Sound(u)
  {
  }

  /** What matters of a thread that is about to take a frame from input `i`. */
  ghost predicate Taking(t: Thread, i: nat) {
    && t.status.Running? && i < |t.inputs| && t.inputs[i].known.Some?
    && (forall k :: 0 <= k < |t.inputs| ==> t.inputs[k].known.None? ==> !t.inputs[k].eofIn)
    && (t.configured ==> HasAllFormats(t.inputs))
  }

  lemma ConfigureSound(t: Thread, build: Build)
    requires t.status.Running? && HasAllFormats(t.inputs) && !RefusesWithEof(build)
    ensures var o := Configure(t, build);
      && o.t.status.Running? && |o.t.inputs| == |t.inputs|
      && (o.answer.Error? || (Sound(o.t) && o.t.configured) || build.Refused?)
    ensures var o := Configure(t, build); o.answer.Ok? && !build.Refused? ==>
            HasAllFormats(o.t.inputs) && o.t.configured
  {
    var o := Configure(t, build);
    assert forall k :: 0 <= k < |t.inputs| ==> o.t.inputs[k].known == t.inputs[k].known;
  }

  lemma FedSound(t: Thread, i: nat, item: Item)
    requires Sound(t) && t.status.Running? && t.configured && i < |t.inputs|
    ensures Sound(Feed(t, i, item)) && Feed(t, i, item).status.Running?
  {
    var u := Feed(t, i, item);
    assert forall k :: 0 <= k < |t.inputs| ==> u.inputs[k].known == t.inputs[k].known;
  }

  lemma DeliverSound(t: Thread, i: nat, f: Frame, rebuild: bool, drain: Read, build: Build, add: Answer)
    requires Taking(t, i) && Proper(build) && !RefusesWithEof(build) && (rebuild || t.configured)
    ensures var o := Deliver(t, i, f, rebuild, drain, build, add);
      o.t.status.Running? && |o.t.inputs| == |t.inputs| && (o.answer.Error? || Sound(o.t))
  {
    if !rebuild {
      FedSound(t, i, Data(f));
    } else if HasAllFormats(t.inputs) {
      if !t.configured || drain.answer.Ok? {
        var u := if t.configured then t.(nextIn := drain.next) else t;
        ConfigureSound(u, build);
        if build == Built {
          FedSound(Configure(u, build).t, i, Data(f));
        }
      }
    } else {
      var u := SetInput(t, i, t.inputs[i].(queue := t.inputs[i].queue + [f]));
      assert forall k :: 0 <= k < |t.inputs| ==>
        u.inputs[k].known == t.inputs[k].known && u.inputs[k].eofIn == t.inputs[k].eofIn;
    }
  }

  lemma FrameSound(t: Thread, e: Event)
    requires Sound(t) && t.status.Running? && Deliverable(t, e) && !RefusesWithEof(e.build) && e.msg.FrameIn?
    ensures var h := Handle(t, e);
      h.t.status.Running? && |h.t.inputs| == |t.inputs| && (h.answer.Error? || Sound(h.t))
  {
    var FrameIn(i, f, force, drain) := e.msg;
    if Drops(t, i, f.params) {
      SameFormatsSound(t, Handle(t, e).t);
    } else {
      var u := Noted(t, i, f.params);
      assert forall k :: 0 <= k < |t.inputs| && k != i ==> u.inputs[k] == t.inputs[k];
      assert u.inputs[i].known.Some?;
      DeliverSound(u, i, f, NeedsReinit(t, i, f.params) || force || !t.configured, drain, e.build, e.add);
    }
  }

  lemma EofSound(t: Thread, e: Event)
    requires Sound(t) && t.status.Running? && Deliverable(t, e) && !RefusesWithEof(e.build) && e.msg.EofIn?
    ensures var h := Handle(t, e);
      h.t.status.Running? && |h.t.inputs| == |t.inputs| && (h.answer.Error? || Sound(h.t))
  {
    var i := e.msg.i;
    var h := Handle(t, e);
    if t.configured || t.inputs[i].known.Some? {
      SameFormatsSound(t, h.t);
    } else {
      var u := SetInput(t, i, t.inputs[i].(eofIn := true, known := t.inputs[i].fallback));
      assert forall k :: 0 <= k < |t.inputs| && k != i ==> u.inputs[k] == t.inputs[k];
      if h.t.configured {
        assert forall k :: 0 <= k < |t.inputs| ==> h.t.inputs[k].known == u.inputs[k].known;
      }
    }
  }

  lemma HandleSound(t: Thread, e: Event)
    requires Sound(t) && t.status.Running? && Deliverable(t, e) && !RefusesWithEof(e.build)
    ensures var h := Handle(t, e);
      h.t.status.Running? && |h.t.inputs| == |t.inputs| && (h.answer.Error? || Sound(h.t))
  {
    if e.msg.FrameIn? {
      FrameSound(t, e);
    } else if e.msg.EofIn? {
      EofSound(t, e);
    } else {
      SameFormatsSound(t, Handle(t, e).t);
    }
  }

  lemma WantedExists(t: Thread)
    requires Sound(t) && t.status.Running? && !t.configured
    ensures FirstWanted(t.inputs).Some?
  {
    var k :| 0 <= k < |t.inputs| && t.inputs[k].known.None?;
    assert Wanted(t.inputs[k]);
  }

  lemma CloseSound(t: Thread, i: nat, ended: set<nat>)
    requires Sound(t)
    ensures i < |t.inputs| ==> Sound(SetInput(t, i, t.inputs[i].(closed := true)))
    ensures Sound(CloseEnded(t, ended))
  {
    if i < |t.inputs| {
      var u := SetInput(t, i, t.inputs[i].(closed := true));
      assert forall k :: 0 <= k < |t.inputs| ==> u.inputs[k].known == t.inputs[k].known;
    }
    var c := CloseEnded(t, ended);
    assert forall k :: 0 <= k < |t.inputs| ==> c.inputs[k].known == t.inputs[k].known;
  }

  lemma TurnSound(t: Thread, e: Event)
    requires Sound(t) && Deliverable(t, e) && !RefusesWithEof(e.build)
    ensures Sound(Turn(t, e))
  {
    if t.status.Running? && !e.msg.Command? && !e.msg.Shutdown? {
      HandleSound(t, e);
      var h := Handle(t, e);
      if h.answer.Eof? && Source(e).Some? {
        CloseSound(h.t, Source(e).value, {});
      } else if h.answer.Ok? {
        if !h.t.configured {
          WantedExists(h.t);
        }
        CloseSound(ReadFrames(h.t, e.read, e.next).t, 0, e.ended);
      }
    }
  }

  lemma StartSound(t: Thread, build: Build)
    requires Fresh(t) && Proper(build)
    ensures Sound(Start(t, build))
  {
  }

  /** Unless building a graph ever fails with AVERROR_EOF, no run reaches the assertion in
      read_frames, and every running thread without a graph has an input it still needs. */
  lemma {:induction false} AssertionUnreachable(t: Thread, build: Build, es: seq<Event>)
    requires Fresh(t) && Proper(build)
    requires forall k :: 0 <= k < |es| ==> !RefusesWithEof(es[k].build)
    ensures Sound(Run(Start(t, build), es))
  {
    if es == [] {
      StartSound(t, build);
    } else {
      var n := |es| - 1;
      AssertionUnreachable(t, build, es[..n]);
      var before := Run(Start(t, build), es[..n]);
      if Deliverable(before, es[n]) {
        TurnSound(before, es[n]);
      }
    }
  }

  /** The message makes the thread build a graph. */
  predicate Builds(t: Thread, e: Event) {
    Deliverable(t, e) && t.status.Running? &&
    match e.msg
    case FrameIn(i, f, force, drain) =>
      && !Drops(t, i, f.params)
      && (NeedsReinit(t, i, f.params) || force || !t.configured)
      && HasAllFormats(Noted(t, i, f.params).inputs)
      && (t.configured ==> drain.answer.Ok?)
    case EofIn(i) =>
      && !t.configured && t.inputs[i].known.None?
      && HasAllFormats(SetInput(t, i, t.inputs[i].(eofIn := true, known := t.inputs[i].fallback)).inputs)
    case _ => false
  }

  /** No graph, and no input left to ask for a format. */
  ghost predicate Stuck(t: Thread) {
    t.status.Running? && !t.configured && forall k :: 0 <= k < |t.inputs| ==> t.inputs[k].known.Some?
  }

  lemma RefusalSticks(t: Thread, e: Event)
    requires Sound(t) && Builds(t, e) && RefusesWithEof(e.build)
    ensures Stuck(Turn(t, e)) && |Turn(t, e).inputs| == |t.inputs|
    ensures forall k :: 0 <= k < |t.inputs| && k != e.msg.i ==> Turn(t, e).inputs[k] == t.inputs[k]
  {
    var i := e.msg.i;
    var h := Handle(t, e);
    if e.msg.FrameIn? {
      FrameRefused(t, e);
    } else {
      EofRefused(t, e);
    }
    assert Turn(t, e) == SetInput(h.t, i, h.t.inputs[i].(closed := true));
  }

  /** A build that ended in AVERROR_EOF on behalf of input `i`. */
  ghost predicate RefusedFor(t: Thread, h: Outcome, i: nat) {
    && h.answer.Eof? && Stuck(h.t) && |h.t.inputs| == |t.inputs|
    && forall k :: 0 <= k < |t.inputs| && k != i ==> h.t.inputs[k] == t.inputs[k]
  }

  lemma FrameRefused(t: Thread, e: Event)
    requires Builds(t, e) && RefusesWithEof(e.build) && e.msg.FrameIn?
    ensures RefusedFor(t, Handle(t, e), e.msg.i)
  {
    var FrameIn(i, f, force, drain) := e.msg;
    var u := Noted(t, i, f.params);
    assert HasAllFormats(u.inputs) && u.configured == t.configured;
    assert u.configured ==> drain.answer.Ok?;
    assert QueueOrBuild(u, i, f, drain, e.build) ==
           Configure(if u.configured then u.(nextIn := drain.next) else u, e.build);
  }

  lemma EofRefused(t: Thread, e: Event)
    requires Sound(t) && Builds(t, e) && RefusesWithEof(e.build) && e.msg.EofIn?
    ensures RefusedFor(t, Handle(t, e), e.msg.i)
  {
    var x := t.inputs[e.msg.i];
    var u := SetInput(t, e.msg.i, x.(eofIn := true, known := x.fallback));
    assert !x.eofIn && u.inputs[e.msg.i].known == x.fallback;
    assert SendEof(t, e.msg.i, e.build, e.add) == Configure(u, e.build);
  }

  lemma EofTripsStuck(t: Thread, next: Event)
    requires Stuck(t) && next.msg.EofIn? && Deliverable(t, next) && !t.inputs[next.msg.i].eofIn
    ensures Turn(t, next).status == AssertionFailed
  {
    var h := Handle(t, next);
    assert h.t == SetInput(t, next.msg.i, t.inputs[next.msg.i].(eofIn := true));
    assert forall k :: 0 <= k < |t.inputs| ==> h.t.inputs[k].known.Some?;
  }

  /** The other direction: a build refused with AVERROR_EOF leaves the thread running without
      a graph and without an input to ask for, so the next EOF on any other input trips the
      assertion, whatever the libraries answer from then on. */
  lemma EofRefusalTripsAssertion(t: Thread, e: Event, next: Event)
    requires Sound(t) && Builds(t, e) && RefusesWithEof(e.build)
    requires next.msg.EofIn? && Deliverable(t, next) && next.msg.i != e.msg.i
    ensures Deliverable(Turn(t, e), next)
    ensures Turn(Turn(t, e), next).status == AssertionFailed
  {
    RefusalSticks(t, e);
    EofTripsStuck(Turn(t, e), next);
  }

  /** An input from which something may still come. */
  predicate Open(x: Input) { !x.closed && (x.subtitle || !x.eofIn) }

  /** A stuck thread can still fail the assertion exactly if some input is open, or none was
      asked for. */
  lemma StuckTripsExactly(t: Thread)
    requires Stuck(t)
    ensures (exists e :: Deliverable(t, e) && Turn(t, e).status == AssertionFailed)
            <==> (exists k :: 0 <= k < |t.inputs| && Open(t.inputs[k])) || t.nextIn == |t.inputs|
  {
    if k :| 0 <= k < |t.inputs| && Open(t.inputs[k]) {
      var e := Event(if t.inputs[k].subtitle then SubtitleIn(k, None) else EofIn(k), Built, Ok, Ok, 0, {});
      if !t.inputs[k].subtitle {
        EofTripsStuck(t, e);
      }
      assert Deliverable(t, e) && Turn(t, e).status == AssertionFailed;
    } else if t.nextIn == |t.inputs| {
      var e := Event(Nothing, Built, Ok, Ok, 0, {});
      assert Deliverable(t, e) && Turn(t, e).status == AssertionFailed;
    } else {
      forall e | Deliverable(t, e)
        ensures Turn(t, e).status != AssertionFailed
      {
        assert Source(e).Some? ==> Open(t.inputs[Source(e).value]);
      }
    }
  }

  // ---- frames survive reconfiguration ----

  function DataOf(items: seq<Item>): seq<Frame> {
    if items == [] then []
    else
      var n := |items| - 1;
      DataOf(items[..n]) + if items[n].Data? then [items[n].frame] else []
  }

  lemma {:induction false} DataOfConcat(a: seq<Item>, b: seq<Item>)
    ensures DataOf(a + b) == DataOf(a) + DataOf(b)
  {
    if b == [] {
      assert a + b == a;
    } else {
      var n := |b| - 1;
      assert (a + b)[..|a + b| - 1] == a + b[..n];
      DataOfConcat(a, b[..n]);
    }
  }

  lemma {:induction false} DataOfAsData(frames: seq<Frame>)
    ensures DataOf(AsData(frames)) == frames
  {
    if frames != [] {
      var n := |frames| - 1;
      assert AsData(frames)[..n] == AsData(frames[..n]);
      DataOfAsData(frames[..n]);
    }
  }

  predicate NoEnd(items: seq<Item>) { forall k :: 0 <= k < |items| ==> items[k].Data? }

  /** Nothing follows an EOF but its repetition. */
  ghost predicate EndLast(items: seq<Item>) {
    forall j, k :: 0 <= j < k < |items| && items[j].End? ==> items[k].End?
  }

  /** The message carries a frame for input `i` that -drop_changed does not discard. */
  predicate Accepts(t: Thread, e: Event, i: nat) {
    && t.status.Running? && Deliverable(t, e)
    && ((e.msg.FrameIn? && e.msg.i == i && !Drops(t, i, e.msg.f.params))
        || (e.msg.SubtitleIn? && e.msg.i == i && e.msg.sub.Some?))
  }

  function Carried(e: Event): Frame
    requires e.msg.FrameIn? || (e.msg.SubtitleIn? && e.msg.sub.Some?)
  {
    if e.msg.FrameIn? then e.msg.f else e.msg.sub.value
  }

  /** The frames of input `i`, in order of arrival. */
  function Arrived(t: Thread, es: seq<Event>, i: nat): seq<Frame> {
    if es == [] then []
    else
      var e := es[|es| - 1];
      Arrived(t, es[..|es| - 1], i) +
      if Accepts(Run(t, es[..|es| - 1]), e, i) then [Carried(e)] else []
  }

  /** No foreign call fails, except that reading may end the thread. */
  predicate Clean(e: Event) {
    e.build == Built && e.add == Ok && (e.msg.FrameIn? ==> e.msg.drain.answer == Ok)
  }

  /** What holds of input `x` when `arrived` has come in for it. */
  ghost predicate Kept(configured: bool, x: Input, arrived: seq<Frame>) {
    && DataOf(x.fed) + x.queue == arrived
    && (configured ==> x.queue == [])
    && (!configured ==> x.fed == [])
    && (!x.subtitle ==>
      && EndLast(x.fed)
      && (!x.eofIn ==> NoEnd(x.fed))
      && (x.eofIn && configured ==> x.fed != [] && x.fed[|x.fed| - 1] == End))
  }

  lemma HandedKept(configured: bool, x: Input, arrived: seq<Frame>)
    requires Kept(configured, x, arrived)
    ensures Kept(true, Handed(x), arrived)
  {
    HandedData(x);
    assert configured ==> AsData(x.queue) == [];
    assert !configured ==> x.fed == [];
  }

  lemma HandedData(x: Input)
    ensures DataOf(Handed(x).fed) == DataOf(x.fed) + x.queue
  {
    var ends := if x.eofIn then [End] else [];
    var data := AsData(x.queue);
    DataOfConcat(x.fed + data, ends);
    DataOfConcat(x.fed, data);
    DataOfAsData(x.queue);
    assert DataOf(ends) == [];
    assert Handed(x).fed == x.fed + data + ends;
  }

  lemma FedKept(x: Input, arrived: seq<Frame>, item: Item)
    requires Kept(true, x, arrived)
    requires item.Data? ==> x.subtitle || !x.eofIn
    ensures item.Data? ==> Kept(true, x.(fed := x.fed + [item]), arrived + [item.frame])
    ensures item.End? ==> Kept(true, x.(fed := x.fed + [item], eofIn := x.eofIn || !x.subtitle), arrived)
  {
    DataOfMore(x.fed, item);
  }

  lemma DataOfMore(items: seq<Item>, item: Item)
    ensures DataOf(items + [item]) == DataOf(items) + if item.Data? then [item.frame] else []
  {
    assert (items + [item])[..|items|] == items;
  }

  /** How one message changes input `i`. */
  lemma HandleKept(t: Thread, e: Event, i: nat, arrived: seq<Frame>)
    requires t.status.Running? && Deliverable(t, e) && Clean(e) && Sound(t)
    requires i < |t.inputs| && Kept(t.configured, t.inputs[i], arrived)
    ensures var h := Handle(t, e);
      && |h.t.inputs| == |t.inputs|
      && Kept(h.t.configured, h.t.inputs[i], arrived + if Accepts(t, e, i) then [Carried(e)] else [])
  {
    var more := if Accepts(t, e, i) then [Carried(e)] else [];
    assert !Accepts(t, e, i) ==> arrived + more == arrived;
    match e.msg
    case FrameIn(j, f, force, drain) =>
      FrameKept(t, e, i, arrived);
    case EofIn(j) =>
      EofKept(t, e, i, arrived);
    case SubtitleIn(j, sub) =>
      if j == i && t.configured {
        FedKept(t.inputs[i], arrived, if sub.Some? then Data(sub.value) else End);
      }
    case _ =>
  }

  lemma FrameKept(t: Thread, e: Event, i: nat, arrived: seq<Frame>)
    requires t.status.Running? && Deliverable(t, e) && Clean(e) && Sound(t) && e.msg.FrameIn?
    requires i < |t.inputs| && Kept(t.configured, t.inputs[i], arrived)
    ensures var h := Handle(t, e);
      && |h.t.inputs| == |t.inputs|
      && Kept(h.t.configured, h.t.inputs[i], arrived + if Accepts(t, e, i) then [Carried(e)] else [])
  {
    var FrameIn(j, f, force, drain) := e.msg;
    var u := Noted(t, j, f.params);
    var none: seq<Frame> := [];
    assert arrived + none == arrived;
    if !Drops(t, j, f.params) {
      assert u.configured == t.configured && |u.inputs| == |t.inputs|;
      assert Kept(u.configured, u.inputs[i], arrived) && !u.inputs[j].subtitle && !u.inputs[j].eofIn;
      var rebuild := NeedsReinit(t, j, f.params) || force || !t.configured;
      assert rebuild && !HasAllFormats(u.inputs) ==> !u.configured;
      DeliverKept(u, j, f, rebuild, drain, i, arrived);
    }
  }

  /** Delivering a frame to input j, as input i sees it. */
  lemma DeliverKept(t: Thread, j: nat, f: Frame, rebuild: bool, drain: Read, i: nat, arrived: seq<Frame>)
    requires i < |t.inputs| && j < |t.inputs| && Kept(t.configured, t.inputs[i], arrived)
    requires !t.inputs[j].subtitle && !t.inputs[j].eofIn && drain.answer.Ok?
    requires !rebuild ==> t.configured
    requires rebuild && !HasAllFormats(t.inputs) ==> !t.configured
    ensures var o := Deliver(t, j, f, rebuild, drain, Built, Ok);
      |o.t.inputs| == |t.inputs| && Kept(o.t.configured, o.t.inputs[i], arrived + if i == j then [f] else [])
  {
    var none: seq<Frame> := [];
    assert arrived + none == arrived;
    if !rebuild {
      if i == j { FedKept(t.inputs[i], arrived, Data(f)); }
    } else if HasAllFormats(t.inputs) {
      HandedKept(t.configured, t.inputs[i], arrived);
      if i == j { FedKept(Handed(t.inputs[i]), arrived, Data(f)); }
    } else if i == j {
      assert DataOf(t.inputs[i].fed) + (t.inputs[i].queue + [f]) == arrived + [f];
    }
  }

  lemma EofKept(t: Thread, e: Event, i: nat, arrived: seq<Frame>)
    requires t.status.Running? && Deliverable(t, e) && Clean(e) && Sound(t) && e.msg.EofIn?
    requires i < |t.inputs| && Kept(t.configured, t.inputs[i], arrived)
    ensures var h := Handle(t, e);
      |h.t.inputs| == |t.inputs| && Kept(h.t.configured, h.t.inputs[i], arrived)
  {
    EndKept(t, e.msg.i, i, arrived);
  }

  /** The EOF of input j, as input i sees it. */
  lemma EndKept(t: Thread, j: nat, i: nat, arrived: seq<Frame>)
    requires i < |t.inputs| && j < |t.inputs| && Kept(t.configured, t.inputs[i], arrived)
    requires !t.inputs[j].subtitle && !t.inputs[j].eofIn
    ensures var o := SendEof(t, j, Built, Ok);
      |o.t.inputs| == |t.inputs| && Kept(o.t.configured, o.t.inputs[i], arrived)
  {
    var x := t.inputs[j];
    EndShape(t, j, i);
    if t.configured {
      if i == j {
        FedKept(x, arrived, End);
      }
    } else {
      var y := if i == j then Ended(x) else t.inputs[i];
      UnfedKept(t.inputs[i], y, arrived);
      HandedKept(false, y, arrived);
    }
  }

  /** An input at its EOF, before any graph. */
  function Ended(x: Input): Input {
    if x.known.Some? then x.(eofIn := true) else x.(eofIn := true, known := x.fallback)
  }

  /** What becomes of input i at the EOF of input j. */
  lemma EndShape(t: Thread, j: nat, i: nat)
    requires i < |t.inputs| && j < |t.inputs| && !t.inputs[j].eofIn
    ensures var o := SendEof(t, j, Built, Ok);
      var x := t.inputs[i];
      var y := if i == j then Ended(x) else x;
      && |o.t.inputs| == |t.inputs|
      && if t.configured then
           o.t.configured && o.t.inputs[i] == if i == j then x.(eofIn := true, fed := x.fed + [End]) else x
         else
           o.t.inputs[i] == if o.t.configured then Handed(y) else y
  {
  }

  /** Before anything was fed, an EOF and a format change nothing about the frames. */
  lemma UnfedKept(x: Input, y: Input, arrived: seq<Frame>)
    requires Kept(false, x, arrived) && y.fed == x.fed && y.queue == x.queue && y.subtitle == x.subtitle
    ensures Kept(false, y, arrived)
  {
  }

  /** Absent errors, what reached the source of an input and what is still queued for it are
      together the frames that arrived, each once and in order, whether queued, configured or
      reconfigured; and an EOF comes after all of them. */
  lemma {:induction false} FramesSurvive(t: Thread, build: Build, es: seq<Event>, i: nat)
    requires Fresh(t) && build == Built && i < |t.inputs|
    requires forall k :: 0 <= k < |es| ==> Clean(es[k])
    ensures var r := Run(Start(t, build), es);
      |r.inputs| == |t.inputs| && Sound(r) && Kept(r.configured, r.inputs[i], Arrived(Start(t, build), es, i))
  {
    if es == [] {
      StartSound(t, build);
      assert Kept(false, t.inputs[i], []);
      HandedKept(false, t.inputs[i], []);
    } else {
      var n := |es| - 1;
      FramesSurvive(t, build, es[..n], i);
      var before := Run(Start(t, build), es[..n]);
      if Deliverable(before, es[n]) {
        TurnKept(before, es[n], i, Arrived(Start(t, build), es[..n], i));
      } else {
        assert Arrived(Start(t, build), es, i) == Arrived(Start(t, build), es[..n], i);
      }
    }
  }

  lemma TurnKept(t: Thread, e: Event, i: nat, arrived: seq<Frame>)
    requires Deliverable(t, e) && Clean(e) && Sound(t)
    requires i < |t.inputs| && Kept(t.configured, t.inputs[i], arrived)
    ensures Sound(Turn(t, e)) && |Turn(t, e).inputs| == |t.inputs|
    ensures Kept(Turn(t, e).configured, Turn(t, e).inputs[i], arrived + if Accepts(t, e, i) then [Carried(e)] else [])
  {
    TurnSound(t, e);
    if t.status.Running? && !e.msg.Command? && !e.msg.Shutdown? {
      HandleKept(t, e, i, arrived);
      AfterHandling(t, e, i);
    } else {
      assert !Accepts(t, e, i);
      var none: seq<Frame> := [];
      assert arrived + none == arrived;
    }
  }

  /** Reading and closing touch neither the sources nor the queues. */
  lemma AfterHandling(t: Thread, e: Event, i: nat)
    requires Deliverable(t, e) && t.status.Running? && !e.msg.Command? && !e.msg.Shutdown?
    requires |Handle(t, e).t.inputs| == |t.inputs| && i < |t.inputs|
    ensures var h, r := Handle(t, e).t, Turn(t, e);
      && |r.inputs| == |t.inputs| && r.configured == h.configured
      && r.inputs[i] == h.inputs[i].(closed := r.inputs[i].closed)
  {
  }
}
