/** Frame-rate conversion at the video output of a filtergraph
    (fftools/ffmpeg_filter.c: video_sync_process, fg_output_frame, close_output).

    A frame enters with its start `syncIpts` and its length `span`, both measured in
    output ticks; each drop/dup decision compares them with the next output tick. */
module FrameSync {
  import opened Arithmetic
  import opened Options

  datatype VsyncMethod = Passthrough | Cfr | Vfr | Vscfr

  /** `dropThreshold` is -frame_drop_threshold (0 switches it off), `dupLimit` is thirty
      times -dts_error_threshold. */
  datatype Config = Config(vsync: VsyncMethod, dropThreshold: real, dupLimit: real)

  datatype Frame = Frame(id: nat, syncIpts: real, span: real, key: bool)

  /** A frame as the sync code keeps it: what av_frame_ref would copy. */
  datatype Image = Image(id: nat, duration: int, key: bool)

  /** A frame handed to sch_filter_send. */
  datatype Sent = Sent(id: nat, pts: int, duration: int, key: bool)

  datatype State = State(
    nextPts: int,
    frameNumber: nat,
    hist: seq<nat>,
    lastDropped: nat,
    droppedKeyframe: bool,
    last: Option<Image>,
    nbDrop: nat,
    nbDup: nat,
    sent: seq<Sent>,
    gotFrame: bool,
    eofOut: bool)

  const INITIAL := State(0, 0, [0, 0, 0], 0, false, None, 0, 0, [], false, false)

  // ---- the decision ----

  datatype Plan = Plan(nb: nat, nbPrev: nat, nextPts: int, duration: int)

  /** How often to send the frame, and how often the one before it. */
  function Decide(cfg: Config, nextPts: int, frameNumber: nat, f: Frame): Plan {
    var drift := f.syncIpts - nextPts as real;
    var delta := drift + f.span;
    var clip := drift < 0.0 < delta && cfg.vsync != Passthrough;
    var sync := if clip then nextPts as real else f.syncIpts;
    var span := if clip then f.span + drift else f.span;
    var delta0 := if clip then 0.0 else drift;
    match cfg.vsync
    case Vscfr =>
      if frameNumber == 0 && delta0 >= 0.5
      then ConstantRate(cfg, frameNumber, 0.0, span, RoundEven(sync))
      else ConstantRate(cfg, frameNumber, delta0, delta, nextPts)
    case Cfr => ConstantRate(cfg, frameNumber, delta0, delta, nextPts)
    case Vfr =>
      Plan(if delta <= -0.6 then 0 else 1, 0, if delta > 0.6 then RoundEven(sync) else nextPts, RoundEven(span))
    case Passthrough => Plan(1, 0, RoundEven(sync), RoundEven(span))
  }

  function ConstantRate(cfg: Config, frameNumber: nat, delta0: real, delta: real, nextPts: int): Plan {
    if cfg.dropThreshold != 0.0 && delta < cfg.dropThreshold && frameNumber != 0 then Plan(0, 0, nextPts, 1)
    else if delta < -1.1 then Plan(0, 0, nextPts, 1)
    else if delta > 1.1 then
      Plan(RoundEven(delta), if delta0 > 1.1 then RoundEven(delta0 - 0.6) else 0, nextPts, 1)
    else Plan(1, 0, nextPts, 1)
  }

  function Bit(b: bool): nat { if b then 1 else 0 }

  /** Copies owed anyway: the held-back previous frame once, the current one once. */
  function Owed(s: State, nb: nat, nbPrev: nat): nat {
    Bit(nbPrev != 0 && s.lastDropped != 0) + Bit(nb > nbPrev)
  }

  predicate OverLimit(cfg: Config, s: State, nb: nat, nbPrev: nat) {
    nb > Owed(s, nb, nbPrev) && nb as real > cfg.dupLimit
  }

  /** The counters and flags that follow a decision; `key` of the frame, None at EOF. */
  function Account(cfg: Config, s: State, nb: nat, nbPrev: nat, key: Option<bool>): State
    requires |s.hist| == 3
  {
    var counted := s.(hist := [nbPrev] + s.hist[..2],
                      nbDrop := s.nbDrop + Bit(nbPrev == 0 && s.lastDropped != 0));
    if OverLimit(cfg, s, nb, nbPrev) then counted.(nbDrop := counted.nbDrop + 1)
    else
      var held := nb == nbPrev && key.Some?;
      counted.(nbDup := s.nbDup + if nb > Owed(s, nb, nbPrev) then nb - Owed(s, nb, nbPrev) else 0,
               lastDropped := Bit(held),
               droppedKeyframe := s.droppedKeyframe || (held && key.value))
  }

  /** At EOF the median of the last three repeat counts stands in for the missing successor. */
  function AtEof(s: State): State
    requires |s.hist| == 3
  {
    if Median3(s.hist[0], s.hist[1], s.hist[2]) == 0 && s.lastDropped != 0
    then s.(nbDrop := s.nbDrop + 1, lastDropped := s.lastDropped + 1)
    else s
  }

  // ---- sending ----

  /** The image behind copy `i`: the previous frame first, then the current one, whose
      key flag only its first copy carries. */
  function Source(last: Option<Image>, cur: Option<Image>, nbPrev: nat, i: nat): Option<Image> {
    if i < nbPrev && last.Some? then last else Trimmed(cur, nbPrev, i)
  }

  function Trimmed(cur: Option<Image>, nbPrev: nat, i: nat): Option<Image> {
    if cur.Some? && nbPrev < i then Some(cur.value.(key := false)) else cur
  }

  /** How many copies the loop gets to before it runs out of images. */
  function Copies(last: Option<Image>, cur: Option<Image>, nb: nat, nbPrev: nat): nat {
    if cur.Some? then nb
    else if last.None? then 0
    else Min(nb, nbPrev)
  }

  /** The first `k` copies, stamped from `pts` on; `boost` makes the first a key frame. */
  function Burst(last: Option<Image>, cur: Option<Image>, pts: int, boost: bool, nbPrev: nat, k: nat): (r: seq<Sent>)
    requires k > 0 ==> cur.Some? || (last.Some? && k <= nbPrev)
    ensures |r| == k
  {
    if k == 0 then []
    else
      var m := Source(last, cur, nbPrev, k - 1).value;
      Burst(last, cur, pts, boost, nbPrev, k - 1) +
      [Sent(m.id, pts + k - 1, m.duration, m.key || (k == 1 && boost))]
  }

  /** The send loop, `accepts` being how many more frames the consumer takes. */
  function SendAll(s: State, cur: Option<Image>, nb: nat, nbPrev: nat, accepts: nat): State {
    var copies := Copies(s.last, cur, nb, nbPrev);
    var k := Min(copies, accepts);
    var t := s.(sent := s.sent + Burst(s.last, cur, s.nextPts, s.droppedKeyframe, nbPrev, k),
                nextPts := s.nextPts + k,
                frameNumber := s.frameNumber + k,
                droppedKeyframe := s.droppedKeyframe && copies == 0,
                gotFrame := s.gotFrame || k > 0,
                eofOut := s.eofOut || copies > accepts);
    if copies > accepts || cur.None? then t
    else t.(last := Trimmed(cur, nbPrev, copies))
  }

  function Synced(cfg: Config, s: State, f: Frame): State
    requires |s.hist| == 3
  {
    var p := Decide(cfg, s.nextPts, s.frameNumber, f);
    Account(cfg, s.(nextPts := p.nextPts), p.nb, p.nbPrev, Some(f.key))
  }

  predicate Burstful(cfg: Config, s: State, f: Frame) {
    var p := Decide(cfg, s.nextPts, s.frameNumber, f);
    OverLimit(cfg, s, p.nb, p.nbPrev)
  }

  /** fg_output_frame on a frame; an output already at EOF discards it (line 2917). */
  function Feed(cfg: Config, s: State, f: Frame, accepts: nat): State
    requires |s.hist| == 3
  {
    if s.eofOut then s
    else
      var p := Decide(cfg, s.nextPts, s.frameNumber, f);
      SendAll(Synced(cfg, s, f), Some(Image(f.id, p.duration, f.key)),
              if Burstful(cfg, s, f) then 0 else p.nb, p.nbPrev, accepts)
  }

  /** got_frame belongs to the whole filtergraph: `others` tells whether another output has
      sent a frame by now. */
  function Seen(s: State, others: bool): State {
    s.(gotFrame := s.gotFrame || others)
  }

  /** fg_output_frame at EOF, up to close_output. */
  function Flush(cfg: Config, s: State, accepts: nat): State
    requires |s.hist| == 3
  {
    if s.eofOut || !s.gotFrame then s
    else
      var m := Median3(s.hist[0], s.hist[1], s.hist[2]);
      var e := AtEof(s);
      SendAll(Account(cfg, e, m, m, None), None, if OverLimit(cfg, e, m, m) then 0 else m, m, accepts)
  }

  // ---- the code ----

  class VideoOutput {
    const cfg: Config
    var nextPts: int
    var frameNumber: nat
    var framesPrevHist: seq<nat>
    var lastDropped: nat
    var droppedKeyframe: bool
    var lastFrame: Option<Image>
    var nbFramesDrop: nat
    var nbFramesDup: nat
    var sent: seq<Sent>
    /** fgt->got_frame: some output of the filtergraph has sent a frame. */
    var gotFrame: bool
    var eofOut: bool
    var dummySent: bool
    var eofSent: bool

    ghost function View(): State
      reads this
    {
      State(nextPts, frameNumber, framesPrevHist, lastDropped, droppedKeyframe, lastFrame,
            nbFramesDrop, nbFramesDup, sent, gotFrame, eofOut)
    }

    constructor (cfg: Config)
      ensures this.cfg == cfg && View() == INITIAL && !dummySent && !eofSent
    {
      this.cfg := cfg;
      nextPts, frameNumber, framesPrevHist := 0, 0, [0, 0, 0];
      lastDropped, droppedKeyframe, lastFrame := 0, false, None;
      nbFramesDrop, nbFramesDup, sent := 0, 0, [];
      gotFrame, eofOut, dummySent, eofSent := false, false, false, false;
    }

    /** video_sync_process: what a frame calls for, then the counters. */
    method VideoSyncProcess(f: Frame) returns (nb: nat, nbPrev: nat, duration: int)
      requires |framesPrevHist| == 3
      modifies this
      ensures View() == Synced(cfg, old(View()), f)
      ensures var p := Decide(cfg, old(nextPts), old(frameNumber), f);
        && nbPrev == p.nbPrev && duration == p.duration
        && nb == if Burstful(cfg, old(View()), f) then 0 else p.nb
      ensures dummySent == old(dummySent) && eofSent == old(eofSent)
    {
      nb, nbPrev, duration := DecideFrame(f);
      nb := Finish(nb, nbPrev, Some(f.key));
    }

    method DecideFrame(f: Frame) returns (nb: nat, nbPrev: nat, frameDuration: int)
      modifies this`nextPts
      ensures Plan(nb, nbPrev, nextPts, frameDuration) == Decide(cfg, old(nextPts), frameNumber, f)
    {
      var duration := f.span;
      var syncIpts := f.syncIpts;
      var delta0 := syncIpts - nextPts as real;
      var delta := delta0 + duration;
      nbPrev := 0;
      nb := 1;
      if delta0 < 0.0 && delta > 0.0 && cfg.vsync != Passthrough {
        syncIpts := nextPts as real;
        duration := duration + delta0;
        delta0 := 0.0;
      }
      if cfg.vsync == Passthrough {
        nextPts := RoundEven(syncIpts);
        frameDuration := RoundEven(duration);
      } else if cfg.vsync == Vfr {
        if delta <= -0.6 {
          nb := 0;
        } else if delta > 0.6 {
          nextPts := RoundEven(syncIpts);
        }
        frameDuration := RoundEven(duration);
      } else {
        if cfg.vsync == Vscfr && frameNumber == 0 && delta0 >= 0.5 {
          delta := duration;
          delta0 := 0.0;
          nextPts := RoundEven(syncIpts);
        }
        if cfg.dropThreshold != 0.0 && delta < cfg.dropThreshold && frameNumber != 0 {
          nb := 0;
        } else if delta < -1.1 {
          nb := 0;
        } else if delta > 1.1 {
          nb := RoundEven(delta);
          if delta0 > 1.1 {
            nbPrev := RoundEven(delta0 - 0.6);
          }
        }
        frameDuration := 1;
      }
    }

    /** video_sync_process at EOF. */
    method VideoSyncEof() returns (nb: nat, nbPrev: nat)
      requires |framesPrevHist| == 3
      modifies this
      ensures nbPrev == Median3(old(framesPrevHist)[0], old(framesPrevHist)[1], old(framesPrevHist)[2])
      ensures View() == Account(cfg, AtEof(old(View())), nbPrev, nbPrev, None)
      ensures nb == if OverLimit(cfg, AtEof(old(View())), nbPrev, nbPrev) then 0 else nbPrev
      ensures dummySent == old(dummySent) && eofSent == old(eofSent)
    {
      nbPrev := Median3(framesPrevHist[0], framesPrevHist[1], framesPrevHist[2]);
      if nbPrev == 0 && lastDropped != 0 {
        nbFramesDrop := nbFramesDrop + 1;
        lastDropped := lastDropped + 1;
      }
      nb := Finish(nbPrev, nbPrev, None);
    }

    /** The tail of video_sync_process, from the label `finish` on. */
    method Finish(nb0: nat, nbPrev: nat, key: Option<bool>) returns (nb: nat)
      requires |framesPrevHist| == 3
      modifies this`framesPrevHist, this`nbFramesDrop, this`nbFramesDup, this`lastDropped, this`droppedKeyframe
      ensures var t := Account(cfg, old(View()), nb0, nbPrev, key);
        && framesPrevHist == t.hist && nbFramesDrop == t.nbDrop && nbFramesDup == t.nbDup
        && lastDropped == t.lastDropped && droppedKeyframe == t.droppedKeyframe
      ensures nb == if OverLimit(cfg, old(View()), nb0, nbPrev) then 0 else nb0
    {
      nb := nb0;
      framesPrevHist := [nbPrev] + framesPrevHist[..2];
      if nbPrev == 0 && lastDropped != 0 {
        nbFramesDrop := nbFramesDrop + 1;
      }
      nb := CountCopies(nb, nbPrev);
      if nb < nb0 {
        return;
      }
      lastDropped := Bit(nb == nbPrev && key.Some?);
      droppedKeyframe := droppedKeyframe || (lastDropped != 0 && key.value);
    }

    /** Copies beyond those owed are duplicates, or too many to send. */
    method CountCopies(nb0: nat, nbPrev: nat) returns (nb: nat)
      modifies this`nbFramesDrop, this`nbFramesDup
      ensures var over := OverLimit(cfg, old(View()), nb0, nbPrev);
        var owed := Owed(old(View()), nb0, nbPrev);
        && nb == (if over then 0 else nb0)
        && nbFramesDrop == old(nbFramesDrop) + Bit(over)
        && nbFramesDup == old(nbFramesDup) + (if !over && nb0 > owed then nb0 - owed else 0)
    {
      nb := nb0;
      var owed := Bit(nbPrev != 0 && lastDropped != 0) + Bit(nb > nbPrev);
      if nb > owed {
        if nb as real > cfg.dupLimit {
          nbFramesDrop := nbFramesDrop + 1;
          nb := 0;
          return;
        }
        nbFramesDup := nbFramesDup + (nb - owed);
      }
    }

    /** fg_output_frame on a video frame; `accepts` counts the sends the consumer will take. */
    method OutputFrame(f: Frame, accepts: nat)
      requires |framesPrevHist| == 3 && !eofOut
      modifies this
      ensures View() == Feed(cfg, old(View()), f, accepts)
      ensures dummySent == old(dummySent) && eofSent == old(eofSent)
    {
      var nb, nbPrev, duration := VideoSyncProcess(f);
      var _ := SendLoop(Some(Image(f.id, duration, f.key)), nb, nbPrev, accepts);
    }

    /** fg_output_frame at EOF: flush, then close the output unless a send was refused.
        `others` tells whether another output of the graph has sent a frame. */
    method OutputEof(others: bool, accepts: nat)
      requires |framesPrevHist| == 3 && !eofOut
      modifies this
      ensures View() == Flush(cfg, Seen(old(View()), others), accepts).(eofOut := eofOut)
      ensures var some := old(gotFrame) || others;
              if some then
                && eofOut && dummySent == old(dummySent)
                && eofSent == (old(eofSent) || !Flush(cfg, Seen(old(View()), others), accepts).eofOut)
              else
                && eofOut == (accepts > 0) && dummySent == (old(dummySent) || accepts > 0)
                && eofSent == (old(eofSent) || accepts > 0)
    {
      gotFrame := gotFrame || others;
      var left := accepts;
      if gotFrame {
        left := FlushFrames(accepts);
      }
      if !eofOut {
        CloseOutput(left);
      }
    }

    /** The frames that the flush repeats. */
    method FlushFrames(accepts: nat) returns (left: nat)
      requires |framesPrevHist| == 3 && !eofOut && gotFrame
      modifies this
      ensures View() == Flush(cfg, old(View()), accepts)
      ensures dummySent == old(dummySent) && eofSent == old(eofSent)
    {
      var nb, nbPrev := VideoSyncEof();
      left := SendLoop(None, nb, nbPrev, accepts);
    }

    /** The loop of fg_output_frame; `left` is what the consumer would still take. */
    method SendLoop(frame: Option<Image>, nb: nat, nbPrev: nat, accepts: nat) returns (left: nat)
      modifies this`sent, this`nextPts, this`frameNumber, this`droppedKeyframe, this`gotFrame, this`eofOut,
          this`lastFrame
      ensures var copies := Copies(old(lastFrame), frame, nb, nbPrev);
        var k := Min(copies, accepts);
        && sent == old(sent) + Burst(old(lastFrame), frame, old(nextPts), old(droppedKeyframe), nbPrev, k)
        && nextPts == old(nextPts) + k && frameNumber == old(frameNumber) + k
        && droppedKeyframe == (old(droppedKeyframe) && copies == 0)
        && gotFrame == (old(gotFrame) || k > 0)
        && eofOut == (old(eofOut) || copies > accepts)
        && lastFrame == if copies > accepts || frame.None? then old(lastFrame) else Trimmed(frame, nbPrev, copies)
    {
      left := accepts;
      var cur := frame;
      var i: nat := 0;
      while i < nb
        invariant i <= Copies(old(lastFrame), frame, nb, nbPrev) && left == accepts - i
        invariant cur == Trimmed(frame, nbPrev, i)
        invariant sent == old(sent) + Burst(old(lastFrame), frame, old(nextPts), old(droppedKeyframe), nbPrev, i)
        invariant nextPts == old(nextPts) + i && frameNumber == old(frameNumber) + i
        invariant droppedKeyframe == (old(droppedKeyframe) && i == 0)
        invariant gotFrame == (old(gotFrame) || i > 0)
        invariant eofOut == old(eofOut) && lastFrame == old(lastFrame)
      {
        var image := if i < nbPrev && lastFrame.Some? then lastFrame else cur;
        if image.None? {
          break;
        }
        assert image == Source(old(lastFrame), frame, nbPrev, i);
        var accepted := SendCopy(image.value, left > 0);
        if !accepted {
          return;
        }
        left := left - 1;
        if i == nbPrev && cur.Some? {
          cur := Some(cur.value.(key := false));
        }
        i := i + 1;
      }
      if cur.Some? {
        lastFrame := cur;
      }
    }

    /** One round of that loop: stamp a copy and send it. */
    method SendCopy(image: Image, accepts: bool) returns (accepted: bool)
      modifies this`sent, this`nextPts, this`frameNumber, this`droppedKeyframe, this`gotFrame, this`eofOut
      ensures accepted == accepts && !droppedKeyframe
      ensures accepted ==>
        && sent == old(sent) + [Sent(image.id, old(nextPts), image.duration, image.key || old(droppedKeyframe))]
        && nextPts == old(nextPts) + 1 && frameNumber == old(frameNumber) + 1
        && gotFrame && eofOut == old(eofOut)
      ensures !accepted ==>
        && eofOut && sent == old(sent) && nextPts == old(nextPts)
        && frameNumber == old(frameNumber) && gotFrame == old(gotFrame)
    {
      accepted := accepts;
      var out := Sent(image.id, nextPts, image.duration, image.key || droppedKeyframe);
      droppedKeyframe := false;
      if !accepted {
        eofOut := true;
        return;
      }
      sent := sent + [out];
      frameNumber := frameNumber + 1;
      nextPts := nextPts + 1;
      gotFrame := true;
    }

    /** close_output: a dummy frame initialises an encoder that never saw one. */
    method CloseOutput(accepts: nat)
      modifies this
      ensures View() == old(View()).(eofOut := eofOut)
      ensures eofOut == (old(eofOut) || gotFrame || accepts > 0)
      ensures eofSent == (old(eofSent) || gotFrame || accepts > 0)
      ensures dummySent == (old(dummySent) || (!gotFrame && accepts > 0))
    {
      if !gotFrame {
        if accepts == 0 {
          return;
        }
        dummySent := true;
      }
      eofOut := true;
      eofSent := true;
    }
  }
}
