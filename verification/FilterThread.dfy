/** The filtering thread's configuration protocol (fftools/ffmpeg_filter.c: send_frame,
    send_eof, sub2video_frame, configure_filtergraph, read_frames, filter_thread).

    Everything libavfilter or the scheduler answers is part of the event that the thread
    handles; frames travel as values. */
module FilterThread {
  import opened Options

  /** The parameters a graph is built for; `picture` stands for size, colour and layout. */
  datatype Params = Params(format: nat, picture: int, matrix: Option<int>, downmix: Option<int>, hw: Option<int>)

  datatype Frame = Frame(id: nat, params: Params)

  /** What reaches a buffer source. */
  datatype Item = Data(frame: Frame) | End

  datatype Input = Input(
    subtitle: bool,
    dropChanged: bool,
    reinit: bool,
    fallback: Option<Params>,
    known: Option<Params>,
    eofIn: bool,
    closed: bool,
    queue: seq<Frame>,
    fed: seq<Item>,
    nbDropped: nat)

  datatype Status = Running | Finished | AssertionFailed

  datatype Thread = Thread(inputs: seq<Input>, configured: bool, nextIn: nat, status: Status)

  /** A library call's answer: success, AVERROR_EOF, any other error. */
  datatype Answer = Ok | Eof | Error

  /** configure_filtergraph: built; refused before any queued frame was touched; or failed
      while frames were being handed over, which a fresh source never does with AVERROR_EOF. */
  datatype Build = Built | Refused(why: Answer) | HandoverFailed

  /** What read_frames does on a built graph: its answer, and the input that choose_input names. */
  datatype Read = Read(answer: Answer, next: nat)

  /** What a call answers, and the state it leaves. */
  datatype Outcome = Outcome(t: Thread, answer: Answer)

  predicate HasAllFormats(inputs: seq<Input>) {
    forall i :: 0 <= i < |inputs| ==> inputs[i].known.Some?
  }

  function AsData(frames: seq<Frame>): (r: seq<Item>)
    ensures |r| == |frames| && forall k :: 0 <= k < |r| ==> r[k] == Data(frames[k])
  {
    seq(|frames|, k requires 0 <= k < |frames| => Data(frames[k]))
  }

  /** An input whose queue went into a new graph, followed by its EOF if it is over. */
  function Handed(i: Input): Input {
    i.(queue := [], fed := i.fed + AsData(i.queue) + if i.eofIn then [End] else [])
  }

  function AllHanded(inputs: seq<Input>): (r: seq<Input>)
    ensures |r| == |inputs| && forall k :: 0 <= k < |r| ==> r[k] == Handed(inputs[k])
  {
    seq(|inputs|, k requires 0 <= k < |inputs| => Handed(inputs[k]))
  }

  function Configure(t: Thread, build: Build): (o: Outcome)
    ensures |o.t.inputs| == |t.inputs|
  {
    match build
    case Built => Outcome(t.(inputs := AllHanded(t.inputs), configured := true), Ok)
    case Refused(why) => Outcome(t.(configured := false), why)
    case HandoverFailed => Outcome(t.(configured := false), Error)
  }

  /** A refusal is an error. */
  predicate Proper(build: Build) { build.Refused? ==> !build.why.Ok? }

  function SetInput(t: Thread, i: nat, x: Input): Thread
    requires i < |t.inputs|
  {
    t.(inputs := t.inputs[i := x])
  }

  function Feed(t: Thread, i: nat, item: Item): Thread
    requires i < |t.inputs|
  {
    SetInput(t, i, t.inputs[i].(fed := t.inputs[i].fed + [item]))
  }

  // ---- EOF ----

  function SendEof(t: Thread, i: nat, build: Build, close: Answer): Outcome
    requires i < |t.inputs|
  {
    if t.inputs[i].eofIn then Outcome(t, Ok)
    else
      var x := t.inputs[i].(eofIn := true);
      if t.configured then Outcome(Feed(SetInput(t, i, x), i, End), close)
      else if x.known.Some? then Outcome(SetInput(t, i, x), Ok)
      else
        var u := SetInput(t, i, x.(known := x.fallback));
        if x.fallback.None? then Outcome(u, Error)
        else if HasAllFormats(u.inputs) then Configure(u, build)
        else Outcome(u, Ok)
  }

  // ---- frames ----

  predicate MediaChanged(known: Option<Params>, p: Params) {
    known.None? || known.value.format != p.format || known.value.picture != p.picture
  }

  predicate SideDataChanged(known: Option<Params>, p: Params) {
    var k := if known.Some? then known.value else Params(0, 0, None, None, None);
    k.matrix != p.matrix || k.downmix != p.downmix
  }

  predicate HwChanged(known: Option<Params>, p: Params) {
    (if known.Some? then known.value.hw else None) != p.hw
  }

  /** -drop_changed keeps a running graph by discarding frames that do not fit it. */
  predicate Drops(t: Thread, i: nat, p: Params)
    requires i < |t.inputs|
  {
    var x := t.inputs[i];
    (MediaChanged(x.known, p) || SideDataChanged(x.known, p)) && t.configured && x.dropChanged
  }

  predicate NeedsReinit(t: Thread, i: nat, p: Params)
    requires i < |t.inputs|
  {
    var x := t.inputs[i];
    || ((MediaChanged(x.known, p) || SideDataChanged(x.known, p)) && (x.reinit || !t.configured))
    || HwChanged(x.known, p)
  }

  /** The parameters the graph is to be built for from now on. */
  function Noted(t: Thread, i: nat, p: Params): Thread
    requires i < |t.inputs|
  {
    if NeedsReinit(t, i, p) then SetInput(t, i, t.inputs[i].(known := Some(p))) else t
  }

  /** Buffer the frame while formats are missing, otherwise drain the outputs and (re)build. */
  function QueueOrBuild(t: Thread, i: nat, f: Frame, drain: Read, build: Build): (o: Outcome)
    requires i < |t.inputs|
    ensures |o.t.inputs| == |t.inputs|
  {
    if !HasAllFormats(t.inputs) then Outcome(SetInput(t, i, t.inputs[i].(queue := t.inputs[i].queue + [f])), Ok)
    else if t.configured && !drain.answer.Ok? then Outcome(t, drain.answer)
    else Configure(if t.configured then t.(nextIn := drain.next) else t, build)
  }

  function SendFrame(t: Thread, i: nat, f: Frame, force: bool, drain: Read, build: Build, add: Answer): Outcome
    requires i < |t.inputs|
  {
    if Drops(t, i, f.params) then
      Outcome(SetInput(t, i, t.inputs[i].(nbDropped := t.inputs[i].nbDropped + 1)), Ok)
    else
      var rebuild := NeedsReinit(t, i, f.params) || force || !t.configured;
      Deliver(Noted(t, i, f.params), i, f, rebuild, drain, build, add)
  }

  function Deliver(t: Thread, i: nat, f: Frame, rebuild: bool, drain: Read, build: Build, add: Answer): Outcome
    requires i < |t.inputs|
  {
    if !rebuild then Outcome(Feed(t, i, Data(f)), add)
    else
      var q := QueueOrBuild(t, i, f, drain, build);
      if !q.answer.Ok? || !HasAllFormats(t.inputs) then q else Outcome(Feed(q.t, i, Data(f)), add)
  }

  /** Subtitle inputs are drawn into video frames; their EOF is lost on an unbuilt graph. */
  function SendSubtitle(t: Thread, i: nat, f: Option<Frame>, close: Answer): Outcome
    requires i < |t.inputs|
  {
    var x := t.inputs[i];
    if f.Some? && !t.configured then Outcome(SetInput(t, i, x.(queue := x.queue + [f.value])), Ok)
    else if f.Some? then Outcome(Feed(t, i, Data(f.value)), Ok)
    else if t.configured then Outcome(Feed(t, i, End), close)
    else Outcome(t, Ok)
  }

  // ---- reading ----

  predicate Wanted(x: Input) { x.known.None? && !x.eofIn }

  /** The first input an unbuilt graph still needs a format from. */
  function FirstWanted(inputs: seq<Input>): (r: Option<nat>)
    ensures r.Some? ==> r.value < |inputs| && Wanted(inputs[r.value])
    ensures r.Some? ==> forall k :: 0 <= k < r.value ==> !Wanted(inputs[k])
    ensures r.None? ==> forall k :: 0 <= k < |inputs| ==> !Wanted(inputs[k])
  {
    if inputs == [] then None
    else if Wanted(inputs[0]) then Some(0)
    else
      var rest := FirstWanted(inputs[1..]);
      assert forall k :: 0 < k < |inputs| ==> inputs[k] == inputs[1..][k - 1];
      if rest.Some? then Some(rest.value + 1) else None
  }

  /** read_frames, `next` being the input that choose_input would name. */
  function ReadFrames(t: Thread, read: Answer, next: nat): Outcome {
    if !t.configured then
      var w := FirstWanted(t.inputs);
      if w.Some? then Outcome(t.(nextIn := w.value), Ok)
      else Outcome(t.(status := AssertionFailed), Error)
    else if read.Ok? then Outcome(t.(nextIn := next), Ok)
    else Outcome(t, read)
  }

  /** Close every input whose source accepts no more. */
  function CloseEnded(t: Thread, ended: set<nat>): Thread {
    if !t.configured then t
    else
      t.(inputs := seq(|t.inputs|, k requires 0 <= k < |t.inputs| =>
           t.inputs[k].(closed := t.inputs[k].closed || k in ended)))
  }

  // ---- one turn of the thread's loop ----

  datatype Message =
    | FrameIn(i: nat, f: Frame, force: bool, drain: Read)
    | EofIn(i: nat)
    | SubtitleIn(i: nat, sub: Option<Frame>)
    | Nothing
    | Command
    | Shutdown

  datatype Event = Event(msg: Message, build: Build, add: Answer, read: Answer, next: nat, ended: set<nat>)

  /** What the scheduler delivers: only open inputs, nothing behind an EOF, and an empty
      answer only when no input was asked for. */
  predicate Deliverable(t: Thread, e: Event) {
    && Proper(e.build)
    && match e.msg
       case FrameIn(i, _, _, _) => i < |t.inputs| && !t.inputs[i].subtitle && !t.inputs[i].closed && !t.inputs[i].eofIn
       case EofIn(i) => i < |t.inputs| && !t.inputs[i].subtitle && !t.inputs[i].closed && !t.inputs[i].eofIn
       case SubtitleIn(i, _) => i < |t.inputs| && t.inputs[i].subtitle && !t.inputs[i].closed
       case Nothing => t.nextIn == |t.inputs|
       case Command => true
       case Shutdown => true
  }

  function Handle(t: Thread, e: Event): Outcome
    requires Deliverable(t, e)
  {
    match e.msg
    case FrameIn(i, f, force, drain) => SendFrame(t, i, f, force, drain, e.build, e.add)
    case EofIn(i) => SendEof(t, i, e.build, e.add)
    case SubtitleIn(i, sub) => SendSubtitle(t, i, sub, e.add)
    case _ => Outcome(t, Ok)
  }

  function Source(e: Event): Option<nat> {
    match e.msg
    case FrameIn(i, _, _, _) => Some(i)
    case EofIn(i) => Some(i)
    case SubtitleIn(i, _) => Some(i)
    case _ => None
  }

  function Turn(t: Thread, e: Event): Thread
    requires Deliverable(t, e)
  {
    if !t.status.Running? || e.msg.Command? then t
    else if e.msg.Shutdown? then t.(status := Finished)
    else
      var h := Handle(t, e);
      if h.answer.Eof? && Source(e).Some? && Source(e).value < |h.t.inputs| then
        SetInput(h.t, Source(e).value, h.t.inputs[Source(e).value].(closed := true))
      else if !h.answer.Ok? then h.t.(status := Finished)
      else
        var r := ReadFrames(h.t, e.read, e.next);
        if r.t.status.AssertionFailed? then r.t
        else if !r.answer.Ok? then r.t.(status := Finished)
        else CloseEnded(r.t, e.ended)
  }

  /** The thread as it starts: built at once when every format is already known. */
  predicate Fresh(t: Thread) {
    && t.status.Running? && !t.configured && t.nextIn == 0
    && forall k :: 0 <= k < |t.inputs| ==>
         var x := t.inputs[k];
         !x.eofIn && !x.closed && x.queue == [] && x.fed == [] && x.nbDropped == 0 && (x.subtitle ==> x.known.Some?)
  }

  function Start(t: Thread, build: Build): Thread {
    if HasAllFormats(t.inputs) then
      var c := Configure(t, build);
      if c.answer.Ok? then c.t else c.t.(status := Finished)
    else t
  }

  // ---- the code ----

  class FilterGraphThread {
    var inputs: seq<Input>
    var configured: bool
    var nextIn: nat
    var status: Status

    ghost function View(): Thread
      reads this
    {
      Thread(inputs, configured, nextIn, status)
    }

    /** configure_filtergraph: tear down, build, drain the queues, repeat the EOFs. */
    method ConfigureFiltergraph(build: Build) returns (ret: Answer)
      modifies this`inputs, this`configured
      ensures var c := Configure(old(View()), build);
        inputs == c.t.inputs && configured == c.t.configured && ret == c.answer
    {
      configured := false;
      if build != Built {
        return if build.Refused? then build.why else Error;
      }
      configured := true;
      var n := |inputs|;
      var k := 0;
      while k < n
        invariant k <= n == |inputs| && configured
        invariant forall j :: 0 <= j < k ==>
          inputs[j] == old(inputs)[j].(queue := [], fed := old(inputs)[j].fed + AsData(old(inputs)[j].queue))
        invariant forall j :: k <= j < n ==> inputs[j] == old(inputs)[j]
      {
        DrainQueue(k);
        k := k + 1;
      }
      k := 0;
      while k < n
        invariant k <= n == |inputs| && configured
        invariant forall j :: 0 <= j < k ==> inputs[j] == Handed(old(inputs)[j])
        invariant forall j :: k <= j < n ==>
          inputs[j] == old(inputs)[j].(queue := [], fed := old(inputs)[j].fed + AsData(old(inputs)[j].queue))
      {
        if inputs[k].eofIn {
          inputs := inputs[k := inputs[k].(fed := inputs[k].fed + [End])];
        }
        assert inputs[k].fed == Handed(old(inputs)[k]).fed;
        k := k + 1;
      }
      assert inputs == AllHanded(old(inputs));
      ret := Ok;
    }

    /** Hand the frames buffered for input `k` to its source, oldest first. */
    method DrainQueue(k: nat)
      requires k < |inputs|
      modifies this`inputs
      ensures var x := old(inputs)[k];
        inputs == old(inputs)[k := x.(queue := [], fed := x.fed + AsData(x.queue))]
    {
      ghost var x := inputs[k];
      ghost var n := 0;
      assert x.queue[0..] == x.queue && x.fed + AsData(x.queue[..0]) == x.fed;
      assert x == x.(queue := x.queue[0..], fed := x.fed + AsData(x.queue[..0]));
      while inputs[k].queue != []
        invariant 0 <= n <= |x.queue| && |inputs| == |old(inputs)|
        invariant inputs == old(inputs)[k := x.(queue := x.queue[n..], fed := x.fed + AsData(x.queue[..n]))]
        decreases |inputs[k].queue|
      {
        var tmp := inputs[k].queue[0];
        assert x.queue[n..][1..] == x.queue[n + 1..];
        assert x.fed + AsData(x.queue[..n]) + [Data(tmp)] == x.fed + AsData(x.queue[..n + 1]);
        inputs := inputs[k := inputs[k].(queue := inputs[k].queue[1..], fed := inputs[k].fed + [Data(tmp)])];
        n := n + 1;
      }
      assert x.queue[..n] == x.queue;
    }

    method SendEofFrame(i: nat, build: Build, close: Answer) returns (ret: Answer)
      requires i < |inputs| && Proper(build)
      modifies this`inputs, this`configured
      ensures var o := SendEof(old(View()), i, build, close);
        inputs == o.t.inputs && configured == o.t.configured && ret == o.answer
    {
      if inputs[i].eofIn {
        return Ok;
      }
      var x := inputs[i].(eofIn := true);
      ghost var t := SetInput(View(), i, x);
      inputs := inputs[i := x];
      assert View() == t;
      if configured {
        inputs := inputs[i := x.(fed := x.fed + [End])];
        assert View() == Feed(t, i, End);
        ret := close;
      } else if x.known.None? {
        ret := UseFallback(i, build);
        assert t.inputs[i := x.(known := x.fallback)] == old(inputs)[i := x.(known := x.fallback)];
      } else {
        ret := Ok;
      }
    }

    /** An input that ended without a single frame takes its fallback parameters. */
    method UseFallback(i: nat, build: Build) returns (ret: Answer)
      requires i < |inputs| && Proper(build) && !configured
      modifies this`inputs, this`configured
      ensures var x := old(inputs)[i];
        var u := old(View()).(inputs := old(inputs)[i := x.(known := x.fallback)]);
        var o := if x.fallback.Some? && HasAllFormats(u.inputs) then Configure(u, build)
                 else Outcome(u, if x.fallback.None? then Error else Ok);
        inputs == o.t.inputs && configured == o.t.configured && ret == o.answer
    {
      inputs := inputs[i := inputs[i].(known := inputs[i].fallback)];
      var ready := IfilterHasAllInputFormats();
      if ready {
        assert inputs[i].known.Some?;
        ret := ConfigureFiltergraph(build);
        return;
      }
      ret := if inputs[i].known.None? then Error else Ok;
    }

    method IfilterHasAllInputFormats() returns (all: bool)
      ensures all == HasAllFormats(inputs)
    {
      var k := 0;
      while k < |inputs|
        invariant k <= |inputs| && forall j :: 0 <= j < k ==> inputs[j].known.Some?
      {
        if inputs[k].known.None? {
          return false;
        }
        k := k + 1;
      }
      all := true;
    }

    method SendInputFrame(i: nat, f: Frame, force: bool, drain: Read, build: Build, add: Answer) returns (ret: Answer)
      requires i < |inputs| && Proper(build)
      modifies this`inputs, this`configured, this`nextIn, this`status
      ensures var o := SendFrame(old(View()), i, f, force, drain, build, add);
        inputs == o.t.inputs && configured == o.t.configured && nextIn == o.t.nextIn && ret == o.answer
      ensures status == old(status)
    {
      var dropped, needReinit := CheckParameters(i, f);
      if dropped {
        return Ok;
      }
      ret := DeliverFrame(i, f, needReinit || force || !configured, drain, build, add);
    }

    method DeliverFrame(i: nat, f: Frame, rebuild: bool, drain: Read, build: Build, add: Answer) returns (ret: Answer)
      requires i < |inputs| && Proper(build)
      modifies this`inputs, this`configured, this`nextIn, this`status
      ensures var o := Deliver(old(View()), i, f, rebuild, drain, build, add);
        inputs == o.t.inputs && configured == o.t.configured && nextIn == o.t.nextIn && ret == o.answer
      ensures status == old(status)
    {
      if rebuild {
        var queued;
        ret, queued := QueueOrRebuild(i, f, drain, build);
        if ret != Ok || queued {
          return;
        }
      }
      inputs := inputs[i := inputs[i].(fed := inputs[i].fed + [Data(f)])];
      ret := add;
    }

    /** Compare the frame with the parameters its input was configured for. */
    method CheckParameters(i: nat, f: Frame) returns (dropped: bool, needReinit: bool)
      requires i < |inputs|
      modifies this`inputs
      ensures dropped == Drops(old(View()), i, f.params)
      ensures dropped ==> inputs == old(inputs)[i := old(inputs)[i].(nbDropped := old(inputs)[i].nbDropped + 1)]
      ensures !dropped ==>
        inputs == Noted(old(View()), i, f.params).inputs && needReinit == NeedsReinit(old(View()), i, f.params)
    {
      var x := inputs[i];
      dropped := false;
      needReinit := MediaChanged(x.known, f.params) || SideDataChanged(x.known, f.params);
      if needReinit && configured && x.dropChanged {
        inputs := inputs[i := x.(nbDropped := x.nbDropped + 1)];
        dropped := true;
        return;
      }
      if !x.reinit && configured {
        needReinit := false;
      }
      if HwChanged(x.known, f.params) {
        needReinit := true;
      }
      if needReinit {
        inputs := inputs[i := x.(known := Some(f.params))];
      }
    }

    method QueueOrRebuild(i: nat, f: Frame, drain: Read, build: Build) returns (ret: Answer, queued: bool)
      requires i < |inputs| && Proper(build)
      modifies this`inputs, this`configured, this`nextIn, this`status
      ensures var o := QueueOrBuild(old(View()), i, f, drain, build);
        inputs == o.t.inputs && configured == o.t.configured && nextIn == o.t.nextIn && ret == o.answer
      ensures status == old(status)
      ensures queued == !HasAllFormats(old(inputs))
    {
      var ready := IfilterHasAllInputFormats();
      queued := !ready;
      if !ready {
        inputs := inputs[i := inputs[i].(queue := inputs[i].queue + [f])];
        ret := Ok;
      } else {
        ret := Ok;
        if configured {
          ret := ReadAvailable(drain.answer, drain.next);
        }
        if ret == Ok {
          ret := ConfigureFiltergraph(build);
        }
      }
    }

    /** read_frames: an unbuilt graph asks for the first input whose format it lacks. */
    method ReadAvailable(read: Answer, next: nat) returns (ret: Answer)
      modifies this`nextIn, this`status
      ensures View() == ReadFrames(old(View()), read, next).t
      ensures ret == ReadFrames(old(View()), read, next).answer
    {
      if !configured {
        var k := 0;
        while k < |inputs|
          invariant k <= |inputs| && forall j :: 0 <= j < k ==> !Wanted(inputs[j])
          invariant nextIn == old(nextIn) && status == old(status)
        {
          if inputs[k].known.None? && !inputs[k].eofIn {
            nextIn := k;
            return Ok;
          }
          k := k + 1;
        }
        status := AssertionFailed;
        return Error;
      }
      if read == Ok {
        nextIn := next;
      }
      ret := read;
    }

    /** One turn of filter_thread's loop. */
    method Iterate(e: Event)
      requires Deliverable(View(), e)
      modifies this
      ensures View() == Turn(old(View()), e)
    {
      if status != Running || e.msg.Command? {
        return;
      }
      if e.msg.Shutdown? {
        status := Finished;
        return;
      }
      var ret := Dispatch(e);
      if ret == Eof && !e.msg.Nothing? {
        inputs := inputs[e.msg.i := inputs[e.msg.i].(closed := true)];
        return;
      }
      if ret != Ok {
        status := Finished;
        return;
      }
      ret := ReadAvailable(e.read, e.next);
      if status == AssertionFailed {
        return;
      }
      if ret != Ok {
        status := Finished;
        return;
      }
      if configured {
        inputs := seq(|inputs|, k requires 0 <= k < |inputs| reads this =>
          inputs[k].(closed := inputs[k].closed || k in e.ended));
      }
    }

    method Dispatch(e: Event) returns (ret: Answer)
      requires Deliverable(View(), e) && status == Running
      modifies this`inputs, this`configured, this`nextIn, this`status
      ensures View() == Handle(old(View()), e).t && ret == Handle(old(View()), e).answer
      ensures |inputs| == |old(inputs)|
    {
      match e.msg {
        case FrameIn(i, f, force, drain) => ret := SendInputFrame(i, f, force, drain, e.build, e.add);
        case EofIn(i) => ret := SendEofFrame(i, e.build, e.add);
        case SubtitleIn(i, sub) => ret := Sub2VideoFrame(i, sub, e.add);
        case _ => ret := Ok;
      }
    }

    method Sub2VideoFrame(i: nat, f: Option<Frame>, close: Answer) returns (ret: Answer)
      requires i < |inputs|
      modifies this`inputs
      ensures View() == SendSubtitle(old(View()), i, f, close).t
      ensures ret == SendSubtitle(old(View()), i, f, close).answer
    {
      ret := Ok;
      if !configured {
        if f.Some? {
          inputs := inputs[i := inputs[i].(queue := inputs[i].queue + [f.value])];
        }
      } else if f.Some? {
        inputs := inputs[i := inputs[i].(fed := inputs[i].fed + [Data(f.value)])];
      } else {
        inputs := inputs[i := inputs[i].(fed := inputs[i].fed + [End])];
        ret := close;
      }
    }
  }
}
