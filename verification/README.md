# Timestamp, frame and option bookkeeping of the transcoder

This project models the parts of the `fftools` transcoder that keep books while codecs, filters
and containers do the work, together with two small state machines from `compat/`. Each
imperative piece of the program is a method on a class (or on an array) with the program's own
fields and branches, proved against a specification function. What the program promises is then
proved about those functions, over every input and every run.

| part | files | what it is about |
|---|---|---|
| frame-rate conversion | `FrameSync`, `FrameSyncRuns`, `FrameConservation`, `FrameClock` | how often each video frame is sent, the drift between input and output clocks, what the drop and dup counters mean |
| filter thread | `FilterThread`, `FilterThreadRuns` | queueing, first configuration, reconfiguration and EOF of a filtergraph |
| condition variables | `CondVar`, `CondVarRuns`, `CondVarOverlap` | `pthread_cond_*` built from two event semaphores, as interleaved atomic steps |
| muxer | `MuxTimestamps` | repair of timestamps before writing, and where a stream copy starts and stops |
| demuxer | `DemuxTimestamps`, `DemuxRuns`, `DemuxLoops`, `DemuxLoopStreams`, `DemuxWraps` | correction of discontinuities, the predicted clock of a stream, `-stream_loop` |
| decoder | `AudioTime`, `Subtitles`, `Multiview`, `MultiviewRuns` | the growing audio time base, subtitle durations, routing of views to outputs |
| forced keyframes | `ForcedKeyframes`, `ForcedKeyframesRuns` | the parser of the list of times and the encoder that spends them |
| command line | `CommandLine`, `CommandLineRuns`, `CommandLineCuts`, `StreamSpecifier`, `Getopt` | splitting into option groups, matching stream specifiers, the `getopt` fallback |
| arithmetic | `Arithmetic`, `Options` | `av_rescale`, `av_rescale_q`, `av_rescale_delta`, rounding to even; values that may be missing |

## Conventions

- Doubles are reals, and `llrint`, `llrintf` round half to even. 64-bit timestamps are integers;
  `AV_NOPTS_VALUE` is `None`, except where the code computes with the sentinel.
- What a library call or the scheduler answers is a parameter or part of an event. What is sent
  is appended to a trace.
- Thresholds of the command line are configuration fields. `dropThreshold`, `dupLimit`,
  `deltaThreshold` and `errorThreshold` are the derived limits, in the units of the comparison.
- A stretch of calls is a sequence, and a run is the fold of one step over it, so that a lemma
  about runs quantifies over all sequences of calls with all answers.

## Where the code does not do what one would expect

Each of these is proved: a family of inputs that fails, and the exact condition under which the
code does what is expected.

- The state that `read_frames` declares unreachable (fftools/ffmpeg_filter.c:2990-2993) can follow
  a configuration that fails with `AVERROR_EOF`: the thread only closes that input and goes on
  (3517-3521). If no configuration fails that way it is unreachable (`AssertionUnreachable`). After
  one that does, the assertion can fail exactly if some input is still open or none was asked for
  (`RefusalSticks`, `StuckTripsExactly`).
- A first frame that calls only for the previous one, which does not exist, is sent in its place
  and yet held back, for example at 157287/131072 ticks (`FirstFrameMiscounted`). The drop counter
  is exact if and only if that does not happen, or the second frame repeats the first
  (`DropCounterExact`).
- A key frame that asks for more copies than the duplication limit is not sent, and its mark is
  lost with it (`KeyframeLost`). Its mark is carried on exactly if it is within the limit or an
  earlier mark is still pending (`KeyframeCarriedExactly`).
- The flush at EOF counts a held-back frame in two places, and so does an over-limit burst
  (`FlushCountsTwice`, `BurstCountsTwice`; the exact conditions are in `FlushBalance` and
  `Conservation`).
- IEEE Std 1003.1 allows `pthread_cond_signal` without the mutex. A thread that calls it while
  another is signalling can be left waiting for an acknowledgement that nobody owes, exactly if
  somebody waits or is about to (`OverlapFatalExactly`). With at most one signaller at a time,
  which the mutex guarantees, this cannot happen.
- Where equal dts are allowed, the muxer's guess can land one tick above the least possible. Over
  a run the written dts are the least possible exactly if no packet's stamps straddle the dts
  before it (`LenientLeastExactly`).
- The output loop of the decoder re-counts the bits it is clearing. A frame requested by k outputs
  is given to the lowest ceil(k/2) only, and outputs beyond the 32nd never get one
  (`DeliveredExactly`).
- The gap between two subtitles in milliseconds is kept in an int. A subtitle is dropped exactly
  if the gap, modulo 2^32, is less than one or at least 2^31 (`PositiveGap`); a gap just beyond
  2^32 ms cuts it to the remainder (`LongerGapCutsSubtitle`).
- After the 28224000 fallback, sums of samples stay exact exactly if the new time base counts the
  old ticks and the new samples (`LossyExactly`, `FallbackLosesSamples`).
- An index into a program that lists a stream twice can match no stream (`IndexSelectsSome`).
- The encoder serves as many forced keyframes as possible, for every list of times, exactly if no
  frame is due earlier than a frame before it, counted in whole microseconds
  (`ForcedIsMaximalExactly`).
- A command line cut in two and split one half after the other means the same exactly if nothing
  before the cut reaches over it, be it a token or the refusal of the first half (`CutExactly`); a
  cut between `-i` and its file does not (`CutBeforeArgument`).

## Model

| member | source | states |
|---|---|---|
| Arithmetic.RoundEvenMonotone | fftools/ffmpeg_filter.c:2685-2687 | rounding to even never reverses an order |
| Arithmetic.Median3 | fftools/ffmpeg_filter.c:2601-2615 | the middle one of three numbers, in every order, and their sum less the extremes |
| Arithmetic.RescaleError | libavutil/mathematics.c:129-145 | a rescaled timestamp is off by at most half a target tick |
| Arithmetic.RescaleMonotone | libavutil/mathematics.c:129-145 | rescaling never reverses an order |
| Arithmetic.RescaleStrict | libavutil/mathematics.c:129-145 | stamps a whole target tick apart stay apart |
| Arithmetic.RescaleQIdentity | libavutil/mathematics.c:142-145 | rescaling between equal time bases changes nothing |
| Arithmetic.RescaleQRefines | libavutil/mathematics.c:142-145 | rescaling into a time base whose tick divides the old one is exact |
| Arithmetic.RescaleDeltaIdentity | libavutil/mathematics.c:168-189 | the delta clock passes stamps through unchanged within one time base |
| FrameSync.VideoOutput.DecideFrame | fftools/ffmpeg_filter.c:2642-2704 | how often to send the frame and its predecessor, the next output tick and the duration, for each vsync method |
| FrameSync.VideoOutput.VideoSyncProcess | fftools/ffmpeg_filter.c:2622-2737 | the decision followed by the counters, with an over-limit burst sent zero times |
| FrameSync.VideoOutput.VideoSyncEof | fftools/ffmpeg_filter.c:2629-2640 | at EOF the median of the last three repeat counts decides; a zero median drops the held-back frame |
| FrameSync.VideoOutput.Finish | fftools/ffmpeg_filter.c:2706-2737 | the history, the held-back flag and the pending key frame after a decision |
| FrameSync.VideoOutput.CountCopies | fftools/ffmpeg_filter.c:2718-2733 | copies beyond those owed are counted as duplicates, or are too many and sent zero times |
| FrameSync.VideoOutput.OutputFrame | fftools/ffmpeg_filter.c:2805-2886 | the whole new state after a frame, for any number of sends the consumer accepts |
| FrameSync.VideoOutput.OutputEof | fftools/ffmpeg_filter.c:2805-2886 | the flush, and when the output is closed, initialised by a dummy frame and sent an EOF, in a graph of any number of outputs |
| FrameSync.VideoOutput.FlushFrames | fftools/ffmpeg_filter.c:2814-2875 | the frames the flush repeats, once any output of the graph has sent one |
| FrameSync.VideoOutput.SendLoop | fftools/ffmpeg_filter.c:2817-2880 | exactly which copies are sent, in which order, with which stamps and key flags, up to a refused send |
| FrameSync.VideoOutput.SendCopy | fftools/ffmpeg_filter.c:2827-2874 | one copy takes the next tick and the pending key flag; a refusal ends the output |
| FrameSync.VideoOutput.CloseOutput | fftools/ffmpeg_filter.c:2749-2803 | if no output of the graph has sent a frame a dummy goes first; EOF is sent unless that was refused |
| FrameSyncRuns.BurstAt | fftools/ffmpeg_filter.c:2817-2872 | the j-th copy of a burst: the previous frame first, consecutive ticks, the pending key flag on the first copy only |
| FrameSyncRuns.DriftStep | fftools/ffmpeg_filter.c:2642-2690 | one frame brings the drift back between -2.1 and the rounding bound |
| FrameSyncRuns.DriftBound | fftools/ffmpeg_filter.c:2642-2690 | over any run at a constant output rate, the end of the last input stays within -2.1 and 0.5 ticks (1 for VSCFR, the drop threshold if larger) of the output clock |
| FrameSyncRuns.CfrFrameCount | fftools/ffmpeg_filter.c:2817-2868 | the number of frames a CFR run sent is the end of its last input up to the drift bound |
| FrameSyncRuns.ConstantRateStamps | fftools/ffmpeg_filter.c:2832-2868 | at a constant rate all frames, flush included, carry consecutive pts and duration 1 |
| FrameSyncRuns.VfrClockAdvances | fftools/ffmpeg_filter.c:2691-2697 | in VFR the output tick never goes back, whatever comes in |
| FrameSyncRuns.VfrStamps | fftools/ffmpeg_filter.c:2691-2697 | in VFR the pts of a run are strictly increasing for any input stamps and durations |
| FrameConservation.PrevWithinTotal | fftools/ffmpeg_filter.c:2684-2688 | the previous frame is never repeated more often than there are copies in all |
| FrameConservation.FeedBalance | fftools/ffmpeg_filter.c:2706-2736 | one frame changes sent + dropped + held back - received - duplicated only in the over-limit case |
| FrameConservation.BalanceKept | fftools/ffmpeg_filter.c:2653-2736 | from any state a run changes sent + dropped + held back - received - duplicated by exactly the frames it counts twice |
| FrameConservation.Conservation | fftools/ffmpeg_filter.c:2653-2736 | for every vsync method sent + dropped + held back equals received + duplicated plus the frames counted twice, which are none without an over-limit burst |
| FrameConservation.FlushBalance | fftools/ffmpeg_filter.c:2630-2640 | the flush keeps the law if and only if it does not close over a held-back frame with median zero, or over a median beyond the limit |
| FrameConservation.SentInOrder | fftools/ffmpeg_filter.c:2817-2880 | copies leave in the order their frames arrived |
| FrameConservation.SentIdsAfter | fftools/ffmpeg_filter.c:2817-2830 | a burst adds the previous frame exactly when repeated, the current one exactly when more copies than that are due |
| FrameConservation.DropCounterExact | fftools/ffmpeg_filter.c:2706-2736 | without an over-limit burst the drop counter and the held-back flag count exactly the frames never sent, if and only if the first frame does not call only for a previous one, or the second repeats the first |
| FrameConservation.DropCounterOff | fftools/ffmpeg_filter.c:2706-2736 | by how much the counter is off after any run, and that the flag always tells whether the last frame was sent |
| FrameConservation.FirstFrameMiscounted | fftools/ffmpeg_filter.c:2684-2735 | at a constant rate a first frame of at most 0.2 ticks at 157287/131072 ticks is sent, held back, and counted as not sent |
| FrameConservation.AFifthLate | fftools/ffmpeg_filter.c:2562-2582 | a stamp of which the sync code makes that position |
| FrameConservation.KeyframesSurvive | fftools/ffmpeg_filter.c:2718-2872 | over any run a key frame that is not itself over the limit passes its mark to a frame sent no earlier, or it is still pending, whatever bursts follow |
| FrameConservation.BurstKeys | fftools/ffmpeg_filter.c:2834-2872 | a burst holds a key frame if and only if a mark was pending, or it repeats a previous key frame, or sends the current one and that is one |
| FrameConservation.MarkStep | fftools/ffmpeg_filter.c:2718-2872 | after one frame a mark is on a copy or pending if and only if it was before, or the frame is within the limit and is a key frame or repeats one |
| FrameConservation.KeyFromExactly | fftools/ffmpeg_filter.c:2718-2872 | over any run there is a mark behind frame k if and only if one was pending before it or some frame from it on puts one |
| FrameConservation.KeyframeCarriedExactly | fftools/ffmpeg_filter.c:2718-2736 | the mark of a key frame is carried on if and only if the frame is within the limit or a mark was pending |
| FrameConservation.KeyframeLost | fftools/ffmpeg_filter.c:2718-2736 | a key frame that asks for more copies than the limit, followed by an ordinary frame, leaves no mark |
| FrameConservation.LateFrameHeldBack | fftools/ffmpeg_filter.c:2682-2683 | a frame that ends more than 1.1 ticks before the output clock is held back |
| FrameConservation.FlushCountsTwice | fftools/ffmpeg_filter.c:2634-2637 | closing over a held-back frame with median zero counts it in two places |
| FrameConservation.LateEndCountsTwice | fftools/ffmpeg_filter.c:2634-2637 | so does any run whose last frame is that late, after two that repeated nothing |
| FrameConservation.BurstCountsTwice | fftools/ffmpeg_filter.c:2718-2725 | a frame beyond the limit, right on the output clock, counts a frame held back before it without clearing the flag |
| FrameClock.NudgedAvoidsMidpoints | fftools/ffmpeg_filter.c:2578-2582 | a nudged stamp is never halfway between two ticks |
| FrameClock.NudgedMonotone | fftools/ffmpeg_filter.c:2578-2582 | the nudge never reorders two stamps |
| FrameClock.SyncIptsUnambiguous | fftools/ffmpeg_filter.c:2562-2582 | no frame position of any time base is halfway between two output ticks |
| FrameClock.SyncIptsMonotone | fftools/ffmpeg_filter.c:2562-2582 | later stamps never get earlier positions |
| FilterThread.FilterGraphThread.ConfigureFiltergraph | fftools/ffmpeg_filter.c:2288-2329 | a built graph gets every queue in order, then the EOFs of finished inputs; a failure leaves no graph |
| FilterThread.FilterGraphThread.DrainQueue | fftools/ffmpeg_filter.c:2292-2305 | one queue is moved to its source in order and emptied |
| FilterThread.FilterGraphThread.SendEofFrame | fftools/ffmpeg_filter.c:3104-3165 | the first EOF of an input reaches the source, or applies the fallback format and may configure; later ones do nothing |
| FilterThread.FilterGraphThread.UseFallback | fftools/ffmpeg_filter.c:3123-3162 | without a fallback format an EOF is an error; with the last missing format the graph is built |
| FilterThread.FilterGraphThread.IfilterHasAllInputFormats | fftools/ffmpeg_filter.c:628-636 | true exactly if every input has a format |
| FilterThread.FilterGraphThread.SendInputFrame | fftools/ffmpeg_filter.c:3180-3345 | a frame is dropped, queued, or delivered, with a rebuild first where parameters changed |
| FilterThread.FilterGraphThread.CheckParameters | fftools/ffmpeg_filter.c:3190-3255 | when a frame is dropped by -drop_changed and when it calls for a rebuild with new parameters |
| FilterThread.FilterGraphThread.DeliverFrame | fftools/ffmpeg_filter.c:3258-3344 | delivery through an optional rebuild |
| FilterThread.FilterGraphThread.QueueOrRebuild | fftools/ffmpeg_filter.c:3258-3321 | frames queue while formats are missing, otherwise the old graph is read once more, which also names the next input, and a new one is built |
| FilterThread.FilterGraphThread.Sub2VideoFrame | fftools/ffmpeg_filter.c:3055-3102 | subtitle frames queue without a graph, are fed with one, and their EOF is lost without one |
| FilterThread.FilterGraphThread.ReadAvailable | fftools/ffmpeg_filter.c:2975-3010 | without a graph the first input lacking a format and EOF is requested, and if there is none the assertion fails; a built graph answers for itself |
| FilterThread.FilterGraphThread.Iterate | fftools/ffmpeg_filter.c:3467-3546 | one round of the thread's loop, with every way it can end |
| FilterThread.FilterGraphThread.Dispatch | fftools/ffmpeg_filter.c:3500-3515 | which handler takes a message |
| FilterThreadRuns.TurnSound | fftools/ffmpeg_filter.c:3467-3546 | one round keeps: a thread without a graph has an input it still needs a format from |
| FilterThreadRuns.AssertionUnreachable | fftools/ffmpeg_filter.c:2980-2995 | unless a configuration fails with AVERROR_EOF, no run reaches the assertion |
| FilterThreadRuns.RefusalSticks | fftools/ffmpeg_filter.c:3517-3521 | a configuration refused with AVERROR_EOF leaves the thread running without a graph and with nothing to ask for |
| FilterThreadRuns.StuckTripsExactly | fftools/ffmpeg_filter.c:2980-2995 | such a thread can fail the assertion exactly if some input is still open or none was asked for |
| FilterThreadRuns.EofRefusalTripsAssertion | fftools/ffmpeg_filter.c:3517-3521 | after such a refusal the next EOF on another input fails the assertion, whatever the libraries answer |
| FilterThreadRuns.HandedKept | fftools/ffmpeg_filter.c:2288-2317 | configuration moves queued frames to the source without losing, repeating or reordering any |
| FilterThreadRuns.FramesSurvive | fftools/ffmpeg_filter.c:3258-3335 | absent errors, what a source received and what is still queued are together the frames that arrived, each once and in order, less those dropped by -drop_changed; an EOF follows all of them |
| CondVar.InitialInv | compat/os2threads.h:134-142 | the invariant holds of a fresh condition variable |
| CondVar.Effects | compat/os2threads.h:152-208 | what each atomic step does to the mutex, the count and the threads |
| CondVar.CountStep | compat/os2threads.h:192-201 | wait_count is the number of threads between increment and decrement |
| CondVar.InvStep | compat/os2threads.h:152-208 | every step of every thread keeps the invariant, provided no signal starts while another is under way |
| CondVar.WakeStep | compat/os2threads.h:199-201 | a thread that takes the event keeps the handshake: exactly one token is under way while a signaller waits |
| CondVar.AckStep | compat/os2threads.h:155-156 | a signaller that takes the acknowledgement keeps the handshake: no token is under way when nobody waits for one |
| CondVar.SignallerFindsQuiet | compat/os2threads.h:152-156 | a signaller about to post finds neither semaphore posted |
| CondVarRuns.ReachableInv | compat/os2threads.h:152-208 | the invariant holds after any run |
| CondVarRuns.MutexExcludesSignallers | compat/os2threads.h:152-168 | a caller holding the mutex finds no other signaller that holds it |
| CondVarRuns.SignalReleasesOne | compat/os2threads.h:152-160 | under any interleaving a signal with the mutex releases exactly one of the threads blocked at its start, none if there were none, and leaves both semaphores reset |
| CondVarRuns.BroadcastReleasesAll | compat/os2threads.h:162-168 | a broadcast with the mutex releases exactly the threads blocked at its start |
| CondVarRuns.RoundLowersCount | compat/os2threads.h:164-165 | under any interleaving each round of a broadcast lowers wait_count by exactly one |
| CondVarRuns.BroadcastCanReturn | compat/os2threads.h:162-168 | from every reachable state a broadcast can run to its end, in as many rounds as threads are blocked and at most eight steps a round |
| CondVarRuns.TokenNeverRetreats | compat/os2threads.h:154-157 | while a signaller waits no step of any thread sets back the way to its acknowledgement |
| CondVarRuns.TokenCanAdvance | compat/os2threads.h:154-157 | while the acknowledgement is missing some thread can move closer to it |
| CondVarRuns.SignallerCanReturn | compat/os2threads.h:154-157 | from every reachable state a waiting signaller can return within five steps |
| CondVarRuns.SomebodyCanMove | compat/os2threads.h:152-208 | the system never locks up while a thread is not blocked for want of a signal |
| CondVarOverlap.OverlapFatalExactly | compat/os2threads.h:152-160 | in every reachable state where one thread signals, a second call of pthread_cond_signal can be left waiting for good, without anybody waiting anew, if and only if somebody waits or is about to |
| CondVarOverlap.OverlapLoses | compat/os2threads.h:152-160 | the run that does it, from any such state, whatever the first signaller is doing |
| CondVarOverlap.DrainToDoom | compat/os2threads.h:162-168 | a broadcast that shares its event with another signaller takes every acknowledgement itself |
| CondVarOverlap.DoomedForever | compat/os2threads.h:154-157 | a signaller whose token is gone waits until somebody signals anew, whatever the others do |
| CondVarOverlap.StrandedForever | compat/os2threads.h:154-157 | a signaller whose event nobody is left to take waits until somebody waits anew, whatever the others do |
| CondVarOverlap.OverlapStrands | compat/os2threads.h:152-160 | the smallest case: two signals without the mutex and one waiter |
| MuxTimestamps.MuxStream.RepairTs | fftools/ffmpeg_mux.c:161-196 | the guess, the clamp, the error exit and what is remembered |
| MuxTimestamps.MuxStream.MuxFixupTs | fftools/ffmpeg_mux.c:137-202 | rescaling, through the delta clock for copied audio and otherwise leaving a duration that is not positive alone, then the repair |
| MuxTimestamps.MuxStream.WritePacket | fftools/ffmpeg_mux.c:204-243 | what is written and counted, for a full file, a refused repair and a refused write |
| MuxTimestamps.StrictRepair | fftools/ffmpeg_mux.c:161-196 | guess and clamp together are max(min(pts, dts), last + 1), and pts becomes max(pts, dts) |
| MuxTimestamps.NonStrictRepair | fftools/ffmpeg_mux.c:167-193 | with equal dts allowed, the result is the least possible if and only if the packet does not straddle the last dts, and never more than one above |
| MuxTimestamps.ExitOnErrorRefuses | fftools/ffmpeg_mux.c:178-185 | the error exit refuses exactly the packets the clamp would change, and changes no others |
| MuxTimestamps.WrittenAcceptable | fftools/ffmpeg_mux.c:161-196 | over a run the written dts increase strictly and stay at or above min(pts, dts) |
| MuxTimestamps.WrittenIsLeast | fftools/ffmpeg_mux.c:161-196 | no other acceptable sequence of dts is below the written one anywhere |
| MuxTimestamps.LenientlyWritten | fftools/ffmpeg_mux.c:161-196 | with equal dts allowed the dts written over a run never decrease and stay at or above min(pts, dts) |
| MuxTimestamps.LenientLeastExactly | fftools/ffmpeg_mux.c:167-193 | and they are the pointwise least such sequence if and only if no packet straddles the dts before it |
| MuxTimestamps.RescalingKeepsOrder | fftools/ffmpeg_mux.c:158 | rescaling keeps the order of pts and dts, and strictly so when pts trails dts by a tick of the stream or more |
| MuxTimestamps.StreamCopier.OfStreamcopy | fftools/ffmpeg_mux.c:455-498 | when a packet is copied, skipped, or ends the copy, and with which stamps |
| MuxTimestamps.StreamCopier.CopyAll | fftools/ffmpeg_mux.c:455-498 | a stream copy is one contiguous stretch from the first packet allowed to open it to the end of the recording |
| DemuxTimestamps.Demuxer.SeekToStart | fftools/ffmpeg_demux.c:215-240 | the new duration of the passes so far and the loops left, or nothing changed when the seek fails |
| DemuxTimestamps.Demuxer.LoopPacket | fftools/ffmpeg_demux.c:442-466 | a packet is moved behind the passes before it and recorded in the extent |
| DemuxTimestamps.Demuxer.TsFixup | fftools/ffmpeg_demux.c:390-479 | everything that happens to one packet, with the whole new state |
| DemuxTimestamps.Demuxer.PreparePacket | fftools/ffmpeg_demux.c:414-440 | wrap correction, input offset and scale of one packet |
| DemuxTimestamps.Demuxer.CorrectWrap | fftools/ffmpeg_demux.c:414-430 | stamps more than half a wrap after the start go back by a wrap, and whether wraps are still looked for |
| DemuxTimestamps.Demuxer.TsDiscontinuityProcess | fftools/ffmpeg_demux.c:310-328 | the known offset is applied to every stream; audio and video are checked for a new one |
| DemuxTimestamps.Demuxer.TsDiscontinuityDetect | fftools/ffmpeg_demux.c:242-308 | when the offset changes and by how much, within a stream, between streams, and under copy_ts after a wrap |
| DemuxTimestamps.Demuxer.DropFarStamps | fftools/ffmpeg_demux.c:275-291 | which stamps are discarded in a format without discontinuities |
| DemuxTimestamps.Demuxer.IstDtsUpdate | fftools/ffmpeg_demux.c:330-388 | the stream's dts and its prediction for the next one |
| DemuxRuns.StartsEarly | fftools/ffmpeg_demux.c:335-343 | a stream whose decoder delays frames starts its clock that many frames early, to the microsecond |
| DemuxRuns.ForcedRateAdvances | fftools/ffmpeg_demux.c:363-367 | rounding to a forced frame rate and back never predicts the past |
| DemuxRuns.ClockAdvances | fftools/ffmpeg_demux.c:351-383 | for every kind of stream the prediction is not before the packet |
| DemuxRuns.RunLooksForward | fftools/ffmpeg_demux.c:330-388 | over any run with non-negative durations every stream's prediction is at or after its dts |
| DemuxRuns.DiscontinuityCorrected | fftools/ffmpeg_demux.c:261-328 | in microseconds an audio or video packet of a discontinuous format leaves with its own dts plus the accumulated offset, within the threshold of the prediction (of the last stamp of any stream, if it is the first) and at most 0.1 s behind its stream |
| DemuxRuns.DiscontinuityCorrectedAnyBase | fftools/ffmpeg_demux.c:261-328 | in any time base a packet that changes the offset lands on the prediction up to half a tick and a microsecond, and one that does not was in agreement |
| DemuxRuns.JumpLands | fftools/ffmpeg_demux.c:271-273 | subtracting the rescaled difference lands within half a tick and half a microsecond of the target |
| DemuxRuns.DelayKept | fftools/ffmpeg_demux.c:271-273 | correction moves pts and dts by the same amount |
| DemuxRuns.NeighboursAgree | fftools/ffmpeg_demux.c:310-388 | after any run, two neighbouring packets of a stream agree with the stream's pace up to the threshold, whatever other streams sent in between |
| DemuxRuns.ContinuousOnlyCensors | fftools/ffmpeg_demux.c:275-291 | a format without discontinuities has no stamp moved in any run, and loses exactly those beyond the error threshold |
| DemuxRuns.CopyTsKeepsStamps | fftools/ffmpeg_demux.c:242-261 | with copy_ts, and no stream narrow enough to wrap, every packet of every run passes unchanged |
| DemuxWraps.UnwrappedNearStart | fftools/ffmpeg_demux.c:418-429 | a stamp within a wrap and a half of the start ends up within half a wrap of it, moved by nothing or one wrap |
| DemuxWraps.WrapsEndOnce | fftools/ffmpeg_demux.c:414-430 | over any packets of a stream, exactly those before the first one without a wrapped stamp are corrected |
| DemuxWraps.ScalingKeepsOrder | fftools/ffmpeg_demux.c:437-440 | scaling by a non-negative factor keeps the order of stamps |
| DemuxLoops.PassRecords | fftools/ffmpeg_demux.c:442-463 | a pass records the least shifted pts and the greatest shifted end of its packets |
| DemuxLoops.PassExtent | fftools/ffmpeg_demux.c:442-463 | a later pass over the same content ends exactly its shift later and keeps the first start |
| DemuxLoops.PassesFollowOn | fftools/ffmpeg_demux.c:225-234 | in one time base, for any audio end stamps, each pass is moved to start exactly where the previous one, or its audio, ended |
| DemuxLoops.LoopShiftsByLength | fftools/ffmpeg_demux.c:225-234 | without audio ends a packet of pass k leaves k times the length of the content later |
| DemuxLoops.PassesDoNotOverlap | fftools/ffmpeg_demux.c:225-234 | no packet of a pass starts before a packet of the previous pass ended |
| DemuxLoopStreams.RescaleTime | libavutil/mathematics.c:142-145 | in seconds a rescaled stamp is off by at most half a target tick |
| DemuxLoopStreams.CompareIsTime | fftools/ffmpeg_demux.c:449-461 | comparing stamps of different time bases compares their times |
| DemuxLoopStreams.PassSpans | fftools/ffmpeg_demux.c:442-463 | with streams in any time bases the recorded extent takes in every packet of the pass and all it held before |
| DemuxLoopStreams.StartsBehind | fftools/ffmpeg_demux.c:225-234 | a packet of the next pass starts no earlier than the recorded end, but for half a tick of either time base |
| DemuxLoopStreams.PassesBarelyOverlap | fftools/ffmpeg_demux.c:225-234 | with streams in any time bases and any audio end stamps, no packet of a pass starts before a packet or the audio of the pass before ended, but for half a tick of its own time base and half a tick of that end |
| AudioTime.GcdDivides | fftools/ffmpeg_dec.c:217 | the divisor divides both numbers |
| AudioTime.CommonMultiple | fftools/ffmpeg_dec.c:227 | prev / gcd * rate is a multiple of both |
| AudioTime.FallbackExactly | fftools/ffmpeg_dec.c:219-225 | the fallback is taken if and only if the common multiple plus one rate exceeds an int |
| AudioTime.AudioDecoder.AudioSamplerateUpdate | fftools/ffmpeg_dec.c:205-246 | the new time base and everything rescaled into it |
| AudioTime.AudioDecoder.AudioTsProcess | fftools/ffmpeg_dec.c:248-282 | the new clock and the stamps of the outgoing frame |
| AudioTime.RetuneGrows | fftools/ffmpeg_dec.c:217-233 | without the fallback the new denominator is a multiple of the old one and of the new rate |
| AudioTime.RetuneExact | fftools/ffmpeg_dec.c:235-239 | a rate change that is not lossy loses nothing of the last pts and duration |
| AudioTime.EveryRateDivides | fftools/ffmpeg_dec.c:205-246 | over any run without loss, and so without a fallback, the denominator is a multiple of every rate seen and fits an int |
| AudioTime.LossNeedsFallback | fftools/ffmpeg_dec.c:205-246 | a run in which no frame takes the fallback loses nothing |
| AudioTime.LossyExactly | fftools/ffmpeg_dec.c:235-239 | a rate change is lossy if and only if some number of old ticks or of new samples is no longer exact |
| AudioTime.UnstampedStep | fftools/ffmpeg_dec.c:256-276 | a frame without a stamp is placed at the predicted time and advances it by exactly its samples |
| AudioTime.UnstampedStretchExact | fftools/ffmpeg_dec.c:256-276 | after any frames, a lossy fallback included, a stretch without stamps that is itself without loss is timed by the exact sum of its sample durations across rate changes |
| AudioTime.LosslessIsTimely | fftools/ffmpeg_dec.c:205-246 | which is so for every stretch while nothing has been lost since the start |
| AudioTime.UnstampedOutput | fftools/ffmpeg_dec.c:279-281 | from any clock that loses nothing, the stamp such a frame leaves with is the sample nearest to that sum |
| AudioTime.StampKept | fftools/ffmpeg_dec.c:262-272 | a given stamp is moved by at most half an input tick and one internal tick |
| AudioTime.SampleExactIff | fftools/ffmpeg_dec.c:275-276 | a time base counts the samples of a rate exactly if and only if the rate divides it |
| AudioTime.FallbackKeepsCommonRates | fftools/ffmpeg_dec.c:224-225 | after the fallback every rate dividing 28224000 is still exact |
| AudioTime.FallbackLosesSamples | fftools/ffmpeg_dec.c:219-225 | any frames of 44100 Hz, the first of which brings no finer time base to adopt, followed by a sample of 191999 Hz fall back, and the sum is not exact |
| Subtitles.SubtitleDecoder.ProcessSubtitle | fftools/ffmpeg_dec.c:569-610 | the pending subtitle is cut by its successor and sent unless nothing is left of it; the result of the send |
| Subtitles.SubtitleDecoder.FixSubDurationHeartbeat | fftools/ffmpeg_dec.c:612-634 | a heartbeat replaces a visible pending subtitle by a later copy and sends it off |
| Subtitles.SubtitleDecoder.Replay | fftools/ffmpeg_dec.c:569-634 | over any run, what was sent is the reference list of cut subtitles, one behind |
| Subtitles.EnteredInOrder | fftools/ffmpeg_dec.c:612-634 | in a chronological run heartbeat copies keep the order |
| Subtitles.ShownInOrder | fftools/ffmpeg_dec.c:590-600 | subtitles are sent in order, each at most once |
| Subtitles.ShownExactly | fftools/ffmpeg_dec.c:598-599 | a subtitle with a successor is sent if and only if the gap to it is positive |
| Subtitles.PositiveGap | fftools/ffmpeg_dec.c:579-580 | any gap is positive if and only if its milliseconds modulo 2^32 are between 1 and 2^31 - 1 |
| Subtitles.PositiveGapExactly | fftools/ffmpeg_dec.c:579-580 | the same in microseconds for subtitles in order: half a millisecond or more, wrapping around |
| Subtitles.LongGapDropsSubtitle | fftools/ffmpeg_dec.c:577-580 | so any subtitle 25 days before the next one is dropped |
| Subtitles.LongerGapCutsSubtitle | fftools/ffmpeg_dec.c:577-586 | and any subtitle 2^32 ms and a second before the next one is cut to that second |
| Subtitles.CutEndsInTime | fftools/ffmpeg_dec.c:579-587 | a cut subtitle is not longer than before and ends at most half a millisecond into its successor |
| Subtitles.NoOverlap | fftools/ffmpeg_dec.c:569-634 | in a chronological run no sent subtitle outlasts the start of any later one by more than half a millisecond |
| Subtitles.HeartbeatsOnlySplit | fftools/ffmpeg_dec.c:617-633 | every decoded subtitle enters once, and a heartbeat only adds a later copy of the one before |
| Multiview.MultiviewDecoder.DecRequestView | fftools/ffmpeg_dec.c:1024-1085 | repeated specifiers share an output, new ones get the next, the 65th is refused, manual selection excludes specifiers |
| Multiview.MultiviewDecoder.Locate | fftools/ffmpeg_dec.c:1178-1247 | the single view a request by index, ID or position selects, or none |
| Multiview.MultiviewDecoder.RouteViews | fftools/ffmpeg_dec.c:1171-1255 | the nested loops set bit i of a mask exactly if request i selects the view, collect the wanted views, and stop at the first unavailable request when errors are fatal |
| Multiview.MultiviewDecoder.CollectIds | fftools/ffmpeg_dec.c:1262-1279 | the ids of the wanted views by ascending position |
| Multiview.MultiviewDecoder.MultiviewSetup | fftools/ffmpeg_dec.c:1087-1302 | every outcome of a setup: skipped, refused, the views unreadable, or the table and the ids sent to the decoder |
| Multiview.MultiviewDecoder.GetBuffer | fftools/ffmpeg_dec.c:1383-1393 | the mask a frame is tagged with |
| Multiview.ServeOutputs | fftools/ffmpeg_dec.c:803-825 | the loop serves the lowest half of the mask, in ascending order, up to a refused send |
| MultiviewRuns.RequestsOwnOutputs | fftools/ffmpeg_dec.c:1047-1084 | after any requests, request i owns output i, no specifier is kept twice, and none is refused before 64 differ |
| MultiviewRuns.SharedExactly | fftools/ffmpeg_dec.c:1047-1084 | two requests share an output if and only if they ask for the same thing |
| MultiviewRuns.SelectsOne | fftools/ffmpeg_dec.c:1178-1247 | a request other than for all views selects at most one |
| MultiviewRuns.RoutingExact | fftools/ffmpeg_dec.c:1164-1278 | after a setup the table RouteViews built has some view wanted, and with fatal errors no request is left unrouted |
| MultiviewRuns.NothingWanted | fftools/ffmpeg_dec.c:1256-1260 | no view is wanted if and only if every request misses |
| MultiviewRuns.IdsInPosition | fftools/ffmpeg_dec.c:1262-1279 | the id list has one entry per wanted view, in ascending position |
| MultiviewRuns.DeliveredExactly | fftools/ffmpeg_dec.c:803-825 | a frame reaches exactly the outputs requesting its view if and only if there is one such output and it is among the first 32 |
| ForcedKeyframes.KeyframeForce.CountTokens | fftools/ffmpeg_mux_init.c:3353-3356 | one more than the commas is the number of tokens |
| ForcedKeyframes.KeyframeForce.ParseToken | fftools/ffmpeg_mux_init.c:3366-3414 | a token's times are written inside the buffer, which keeps room for one time of each token left; the range and time errors |
| ForcedKeyframes.KeyframeForce.ParseTokens | fftools/ffmpeg_mux_init.c:3365-3419 | the buffer ends up full with all times in order, or the first error is returned |
| ForcedKeyframes.KeyframeForce.ParseForcedKeyFrames | fftools/ffmpeg_mux_init.c:3347-3427 | on success the stored times are the sorted list, on an error nothing is stored |
| ForcedKeyframes.SortSorts | fftools/ffmpeg_mux_init.c:3420 | the stored times ascend and are the parsed ones with their repetitions |
| ForcedKeyframes.KeyframeForce.ForcedKfApply | fftools/ffmpeg_enc.c:829-878 | a due time is spent and forces the frame; otherwise the expression decides and its constants are updated; otherwise the source or scene-change mark |
| ForcedKeyframesRuns.NoAssignmentServesMore | fftools/ffmpeg_enc.c:838-841 | with frames in order, in microseconds, no one-to-one assignment of times to frames not before them serves more times than were spent |
| ForcedKeyframesRuns.ServedIsAssignment | fftools/ffmpeg_enc.c:838-841 | what the encoder spends is such an assignment |
| ForcedKeyframesRuns.ForcedIsMaximalExactly | fftools/ffmpeg_enc.c:838-841 | for every list of times a maximum is served after every frame, if and only if no frame is due earlier, in whole microseconds, than one before it |
| ForcedKeyframesRuns.DescentLoses | fftools/ffmpeg_enc.c:838-841 | the times of which a frame due before its predecessor loses one |
| ForcedKeyframesRuns.LaterIsDueLater | fftools/ffmpeg_enc.c:838-841 | frames in order of time are due in order, whatever their time bases |
| ForcedKeyframesRuns.ForcedIsMaximal | fftools/ffmpeg_enc.c:838-841 | with frames in order of time the encoder serves a maximum of the parsed times after every frame |
| ForcedKeyframesRuns.AllServedInTheEnd | fftools/ffmpeg_enc.c:838-841 | every late enough frame serves one more time until all are served |
| ForcedKeyframesRuns.DisorderCostsATime | fftools/ffmpeg_enc.c:838-841 | two frames out of order where one of two servable times is lost |
| ForcedKeyframesRuns.DisorderWithinAMicrosecond | fftools/ffmpeg_enc.c:838-841 | two frames out of order within one microsecond that lose nothing |
| ForcedKeyframesRuns.ConstsTellHistory | fftools/ffmpeg_enc.c:842-863 | over any run the constants an expression sees count its evaluations and approvals and hold number and time of the last approval since the first frame |
| CommandLine.OptionParseContext.Find | fftools/cmdutils.c:153-166 | the first definition whose name is the option's up to a colon, a leading slash aside |
| CommandLine.OptionParseContext.MatchGroupSeparator | fftools/cmdutils.c:671-683 | the first group with that separator |
| CommandLine.OptionParseContext.FinishGroup | fftools/cmdutils.c:691-720 | pending options move into a new group of the list, and nothing else changes |
| CommandLine.OptionParseContext.AddOpt | fftools/cmdutils.c:725-741 | an option goes to the pending group if it is per file, to the globals if not |
| CommandLine.OptionParseContext.SplitOption | fftools/cmdutils.c:838-867 | how a dash word and perhaps its successor are read: separator, exit option, option with or without argument |
| CommandLine.OptionParseContext.SplitUnknown | fftools/cmdutils.c:872-901 | a library option, then the -no form, then an error |
| CommandLine.OptionParseContext.SetOption | fftools/cmdutils.c:599-664 | a library option replaces its value in each dictionary it belongs to, or is appended to it |
| CommandLine.OptionParseContext.SplitCommandline | fftools/cmdutils.c:790-902 | the context after a whole line, or up to its first error, is the fold of the line's tokens |
| CommandLineRuns.SplittingKeepsWords | fftools/cmdutils.c:807-902 | the tokens of an accepted line spell out all its words, those of a refused one a prefix |
| CommandLineRuns.OptionsLand | fftools/cmdutils.c:691-741 | each option lands exactly once and in order: in the globals, in the group its next separator closes, or in the trailing rest; and library options in the dictionaries of the same group |
| CommandLineRuns.DivideKeepsTokens | fftools/cmdutils.c:807-902 | dividing a line into sections forgets only the separators |
| CommandLineRuns.CutBehindSeparator | fftools/cmdutils.c:807-902 | a line cut behind a separator splits into the tokens of the halves |
| CommandLineRuns.GroupsMerge | fftools/cmdutils.c:691-741 | tokens joined behind a separator give the same groups, list by list |
| CommandLineRuns.CutLineMerges | fftools/cmdutils.c:691-902 | altogether, a line cut behind a separator gives what its halves give one after the other |
| CommandLineCuts.CutExactly | fftools/cmdutils.c:807-902 | a line cut anywhere splits as its halves do one after the other, refusals included, if and only if nothing before the cut reaches over it |
| CommandLineCuts.CutBeforeArgument | fftools/cmdutils.c:841-851 | a line cut between a separator and its argument is refused in its first half, though it splits as a whole |
| CommandLineRuns.CutBehindDashDash | fftools/cmdutils.c:814-827 | a line cut behind "--" need not |
| StreamSpecifier.Satisfies | fftools/cmdutils.c:1292-1327 | a stream meets the type, metadata, usability and disposition constraints |
| StreamSpecifier.Range | fftools/cmdutils.c:1235-1286 | which list the loop runs over and where it starts, or that nothing can match |
| StreamSpecifier.Scan | fftools/cmdutils.c:1288-1335 | the counting loop finds the stream exactly if it is selected in the filtered list |
| StreamSpecifier.StreamSpecifierMatch | fftools/cmdutils.c:1226-1336 | the result is true if and only if the stream is in the filtered list, and its first place there is the index when there is one |
| StreamSpecifier.RangeEnough | fftools/cmdutils.c:1242-1248 | over all streams it is enough to look no further than the stream itself |
| StreamSpecifier.IndexSelectsNth | fftools/cmdutils.c:1329-1332 | in a list without repetitions the match is exactly the n-th stream meeting the other constraints |
| StreamSpecifier.IndexSelectsSome | fftools/cmdutils.c:1329-1332 | in any list an index matches something if and only if the stream at that place was not counted before |
| StreamSpecifier.NoIndexSelectsAll | fftools/cmdutils.c:1329-1330 | without an index matching is membership plus the constraints |
| Getopt.Parser.Next | compat/getopt.c:41-84 | one call returns the next item of the recursive parse and leaves the rest, advancing strictly |
| Getopt.Parser.TakeArgument | compat/getopt.c:65-74 | an argument is the rest of the word or the next word; without either the option is refused |
| Getopt.Parser.SkipChar | compat/getopt.c:76-79 | moving on within a word or to the next one |
| Getopt.Parser.All | tools/graph2dot.c:120-150 | calls until EOF terminate and return the items and operands of the recursive parse |
| Getopt.ClusterSplits | compat/getopt.c:65-81 | splitting -xrest into -x and -rest changes nothing if and only if x takes no argument and neither half reads as -- |
| Getopt.ItemsPlain | compat/getopt.c:57-81 | what is accepted are known options, with an argument exactly if they take one |
| Getopt.RenderRoundTrip | compat/getopt.c:47-84 | parsing gives back any list of options written out one word each, and the operands behind -- |
| Getopt.Normalizes | compat/getopt.c:47-84 | an accepted line means the same in its separated form |

## Left out

- The audio branch of `fg_output_frame`, `choose_out_timebase`, side data and latency probes: no
  state beyond what is modelled.
- Doubles: rounding errors of `double` and of `float` in `llrintf` are not modelled, nor is the
  overflow of 64-bit timestamps. In `adjust_frame_pts_to_encoder_tb` the position is exact.
- FilterThread.FilterGraphThread.SendInputFrame: the rescaling of frame stamps, the options that
  `check_reinit` applies, and copies of parameters that fail for want of memory; frames are values
  with an identity and parameters, and whether a rebuild is forced is an input.
- FilterThread.FilterGraphThread.ReadAvailable: which frames a built graph holds, and whether
  reading it before a rebuild gets all of them; its answer and its choice of an input are inputs.
- FilterThread.FilterGraphThread.ConfigureFiltergraph: errors after the first frame was handed to
  a source are one outcome; the graph is gone, and what was handed over is not tracked.
- FilterThread.FilterGraphThread.Sub2VideoFrame: the pixels and times behind `sub2video_update`.
- `pthread_cond_timedwait`: a timed-out waiter still posts an acknowledgement, which the invariant
  does not cover. Spurious wake-ups and destruction of a condition variable.
- `fg_output_step`: which frames a sink holds is the input of a run; a frame for an output that
  is already at EOF is discarded there.
- DemuxLoops.PassesFollowOn: exact for content in one time base; with several the stamps are
  rounded, and `DemuxLoopStreams.PassesBarelyOverlap` says by how much at most.
- FrameSyncRuns.DriftBound: over-limit bursts, after which the output clock stands still while the
  input goes on.
- `video_duration_estimate` and the video branch of the decoder's clock: a single case
  distinction.
- The last subtitle of a stream is only sent once another one arrives; decoding and copying of
  subtitles is not modelled.
- Multiview.MultiviewDecoder.DecRequestView: a failing allocation, which aborts the program.
- ForcedKeyframes.KeyframeForce.ParseForcedKeyFrames: `av_parse_time` is a function parameter and
  `qsort` a sorting function; more commas than an int can count.
- ForcedKeyframes.KeyframeForce.ForcedKfApply: the expression itself is a function parameter.
- CommandLine.OptionParseContext.SplitCommandline: which library options exist, and which
  dictionaries they belong to, is a function parameter; keys of dictionaries differ by case there.
  Platform-specific conversion of arguments.
- StreamSpecifier.StreamSpecifierMatch: parsing of specifiers, and case-insensitive lookup of
  metadata keys.
- `getopt` returns the character '?' both for an error and for an option of that name; the model
  keeps them apart.
- Memory allocation, logging, statistics files, terminal handling, wall-clock pacing, file
  opening, hardware devices.
