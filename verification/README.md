# stream-audio, verified

A Dafny 4.11 model of the audio pipeline of `stream-audio`: ring buffer, capture bridge, format
conversion, bounded channel, router, time-window merger, WAV sink, and the session that shuts them down.

The parts of the code that work step by step are methods and classes with the same loops, branches and
fields; each is proved against a specification function, and the laws of the system are lemmas about
those functions, about whole runs, and about every interleaving.

| file | models |
|---|---|
| `Arith.dfy`, `Audio.dfy` | truncating division, wrap-around, samples, chunks, durations |
| `Resample.dfy`, `Chunkwise.dfy`, `Convert.dfy`, `Streaming.dfy` | linear resampling, channel conversion, the converter applied chunk by chunk |
| `RingBuffer.dfy`, `Capture.dfy`, `Clock.dfy` | ring buffer and reader, capture bridge, its two clocks and the merge windows they select |
| `Merger.dfy`, `MergeValue.dfy`, `MergerRuns.dfy`, `Timeouts.dfy`, `Barrier.dfy` | the time-window merger, what it computes, its runs, when its windows time out, and when it pairs chunks up |
| `Routing.dfy`, `Retry.dfy`, `Router.dfy`, `RouteHonoured.dfy`, `StopFinalizes.dfy`, `Incomplete.dfy` | routing table, retries, the router and its run loop, whether merged routes are honoured, what a stop leaves in the merger, and what is reported of incomplete windows |
| `Pipeline.dfy`, `Delivery.dfy` | bridges, channel, router and session as a step system; shutdown; the runs that do deliver |
| `Wav.dfy` | the WAV sink and an independent reader of the format |
| `EndToEnd.dfy` | the theorems put together, from captured samples to a file and to merged output |

`dafny verify dfyconfig.toml` checks everything.

## What the proofs settle

* **Chunk-by-chunk conversion.** Cutting a stream into chunks of so many frames and converting each on its
  own gives the conversion of the stream, for all samples and any number of chunks, if and only if the
  rates are equal or such a chunk down-samples to a whole number of frames (`Streaming.ChunkByChunkIffExact`).
  Under that condition the bridge's output is the conversion of everything the ring had accepted when the
  bridge last looked at it, with the callback free to run between any two operations on the ring, those of
  the final drain included (`Capture.CaptureBridge.Run`). What the callback adds later is lost
  (`Capture.CaptureBridge.CallbackAfterRun`).
* **The merger.** Every run conserves chunks (`MergerRuns.RunConserves`). Windows are emitted at most once,
  and none that was emitted is open again, if and only if no chunk comes for a window already gone
  (`MergerRuns.EmittedOnceIffNoLateFeed`); a late chunk reopens its window, and can have it emitted twice
  (`MergerRuns.LateChunkEmitsTwice`). With aligned sources and no timeouts, every window comes out complete
  if and only if no source is ever more than `max_pending` chunks ahead (`Barrier.CompleteIffWithinSkew`),
  and then window j holds precisely the j-th chunk of every source (`Barrier.BarrierPairsChunks`).
* **Timeouts and incomplete windows.** A check leaves a window open if and only if the chunk that opened it was
  added less than the timeout before (`Timeouts.CheckKeepsIff`), and what it takes away it emits
  (`Timeouts.CheckEmitsTheRest`). At all times the router has reported precisely the windows that left
  incomplete, each with exactly the expected sources absent from it (`Incomplete.RouterReportsTheIncomplete`).
* **The clocks.** Every chunk of a bridge falls in the merge window of its own number if and only if a
  converted chunk lasts precisely as many milliseconds as the merger counts in a window
  (`Clock.BridgeAlignedIff`). This is about the frames a chunk really has: at 11025 Hz a chunk of 100 ms is
  cut to 1102 frames, and chunks 0 and 1 share window 0 (`Clock.TruncatedChunks`).
* **Shutdown.** It terminates in every interleaving if and only if no source has a chunk size of zero
  (`Pipeline.ShutdownTerminatesIff`). From the call of `stop` on, every way of going on delivers all of a
  source if and only if its bridge has then already made and sent everything (`Pipeline.StopDeliversAllIff`);
  otherwise audio can be lost, all of it even (`Pipeline.StopOvertakesEverything`). It can also all be
  delivered, by every set-up without zero chunk sizes, though `stop` is the first step and the router has
  already taken the command (`Delivery.StopCanDeliverAll`). "Everything" is all the
  bridge will ever make: as the callback still runs, a caller of `stop` cannot know that nothing more is to
  come, so `stop` promises delivery of nothing that is not yet sent. With aligned sources within the skew
  bound, the merger has finalized every window if and only if the router consumed equally many chunks of
  every source (`StopFinalizes.StopFinalizesAllIff`).
* **Merged routes.** A merged sink is written the average of the sources its route names if and only if
  the route names all sources, or no window is ever complete (`RouteHonoured.MergedRouteHonouredIff`).
* **Files.** A finished WAV file reads back as what was written if and only if no size field overflowed
  (`WavFile.RecordingReadsBackIff`).
* **End to end.** With the streams of the step system being what the bridges produced, and the router
  running through its turns: from the ring to the file in `EndToEnd.RecordCapture`, and from the rings to a
  merged sink's calls in `EndToEnd.MergedSinkGetsTheAverage`.

## Where the code and its documentation differ

The model follows the code.

* `Session::stop` is documented to stop the audio stream first (src/session.rs:131-134), but the stream is
  dropped only with the session (src/session.rs:84-86), after everything else: the callback runs during
  every drain. So the last chunk can be longer than a chunk (`RingBuffer.RestCanExceedAChunk`); when a
  drain finds something left, no size bounds its last chunk over all that callbacks can do, since only a
  ring of capacity zero has a bound (`RingBuffer.RestIsBoundedIff`). And what the callback adds after the
  bridge's last look is never delivered (`Capture.CaptureBridge.CallbackAfterRun`).
* It is documented to drain remaining audio to the sinks, but the stop command is sent before the bridges
  have drained (src/session.rs:152-167): with one source, one chunk and one sink the chunk can be lost
  (`Pipeline.ShutdownCanLoseAudio`); the exact condition is `Pipeline.StopDeliversAllIff`.
* `drain_and_finalize` is documented to finalize merge windows (src/pipeline/router.rs:311), but it emits only
  those that have timed out, and before the queue is routed (src/pipeline/router.rs:312-317). With two sources
  and one chunk the window is dropped (`StopFinalizes.StopDropsAWindow`); the exact condition is
  `StopFinalizes.StopFinalizesAllIff`. As the queue comes last, a window can also be emitted without a chunk
  that had arrived, and its source reported missing (`Incomplete.StopSplitsAWindow`).
* A merged sink is documented to get the audio of its specified sources (src/builder.rs:203-206), but the
  merger is given all sources (src/pipeline/router.rs:76-84) and the table keeps no source sets
  (src/pipeline/routing.rs:139-143): `RouteHonoured.MergedRouteHonouredIff`.
* A full ring buffer is documented to drop the oldest audio (src/config.rs:67-68); it drops the newest
  (src/source/device.rs:173-174). The newest audio is kept if and only if everything fits
  (`RingBuffer.KeepsNewestIff`); a ring of two that holds 1, 2 and is pushed 3 keeps 1, 2
  (`RingBuffer.FullRingDropsTheNewest`).
* Chunks of different lengths are said to be merged "using the minimum" (src/pipeline/merger.rs:257); the
  result is as long as whichever chunk the map yields first (`MergeValue.MergeLengthFollowsMapOrder`). All
  merges of a window have the shortest length if and only if all its chunks do
  (`MergeValue.MergesUseTheMinimumIff`).
* A `FileSink` used again after a stop keeps its sample counter (src/sink/file.rs:186-204), so its second
  file claims more than it holds (`WavFile.RestartedSinkOverstates`); it reads back if and only if the
  32-bit size field cannot show what was counted before (`WavFile.RestartedSinkReadsBackIff`).
* `drain` is documented to return chunks until the buffer is empty (src/pipeline/ring_buffer.rs:85-88). Its
  loop ends if and only if the device has channels and a chunk lasts for at least one frame
  (`RingBuffer.DrainEndsIff`); with a shorter chunk duration the chunk size is zero, there is always "a
  chunk", and reading it yields nothing (`RingBuffer.AudioBuffer.DrainPass`).

## Model

| member | source | states |
|---|---|---|
| Resampling.Resample | src/format/resample.rs:20-51 | the loop, in exact reals with a saturating cast, computes the integer interpolation `Resampled`, for all samples and rates |
| Resampling.InterpolationIsExact | src/format/resample.rs:34-38 | the float expression truncated and cast equals the integer interpolation; the cast never saturates |
| Resampling.SourceIndexInRange | src/format/resample.rs:29-45 | the source index is always inside the input, so the "beyond input" branch is dead |
| Resampling.OutputBetweenNeighbours | src/format/resample.rs:34-42 | each output lies between the two inputs around its source position |
| Resampling.ResampleKeepsOrder | src/format/resample.rs:20-51 | a non-decreasing input gives a non-decreasing output, truncation included |
| Resampling.ResampledIsLinear | src/format/resample.rs:28-48 | output i is the point, truncated, of the straight line through the two samples around position i / ratio; past the last sample it is that sample |
| Chunkwise.ResampleConcat | src/format/resample.rs:20-51 | resampling a concatenation is the concatenation of the resampled parts when the first part is exact |
| Chunkwise.ChunkwiseIffExact | src/format/resample.rs:20-51 | the exact condition on rates and chunk length for resampling a chunk and what follows it apart to equal resampling them together |
| Chunkwise.UpsampleKeepsInputs | src/format/resample.rs:20-51 | up-sampling by k puts input j at output j·k |
| Chunkwise.DownsampleDecimates | src/format/resample.rs:20-51 | down-sampling by k keeps every k-th input |
| Chunkwise.UpsampleThenDownsample | src/format/resample.rs:20-51 | up- then down-sampling by k is the identity |
| Convert.Deinterleave | src/format/resample.rs:61-68 | the pushes split a stereo signal into its two channels |
| Convert.Interleave | src/format/resample.rs:74-79 | the zip puts two channels back alternately |
| Convert.ResampleStereo | src/format/resample.rs:56-82 | each channel is resampled on its own and the results interleaved |
| Convert.FormatConverter.Convert | src/format/mod.rs:51-76 | remix, then resample, as `Converted`; the passthrough shortcut changes nothing. What `Converted` makes of every channel is in the next six rows |
| Convert.MonoOfStereo | src/format/mod.rs:58-60 | 2→1 at one rate: sample i is (x[2i] + x[2i+1]) / 2, truncated |
| Convert.MonoOfStereoResampled | src/format/mod.rs:58-73 | 2→1 at any rates: those means, resampled |
| Convert.StereoKeepsChannels | src/format/mod.rs:65-73 | 2→2: positions 2i and 2i+1 hold the resampled even and odd input positions |
| Convert.MonoInBothChannels | src/format/mod.rs:61-73 | 1→2: both positions hold the resampled mono sample |
| Convert.OtherChannelsPass | src/format/mod.rs:58-73 | no other pair of channel counts is remixed |
| Convert.TwoFramesToMono | src/format/mod.rs:94-103 | [100, 200, 300, 400] from stereo to mono is [150, 350] |
| Convert.UpmixCommutesWithResampling | src/format/mod.rs:58-73 | duplicating the channel before or after resampling gives the same samples |
| Convert.DownmixBeforeOrAfterResampling | src/format/mod.rs:47-76 | the two orders of downmix and resampling give equally many samples, at most one apart |
| Convert.DownmixOrderMatters | src/format/mod.rs:47-76 | a stereo signal on which the two orders do differ by one |
| Streaming.ConvertConcat | src/format/mod.rs:51-76 | the whole converter respects concatenation after an exact first part |
| Streaming.ConvertedLength | src/format/mod.rs:51-76 | whole frames in give the computed number of whole frames out |
| Streaming.StreamingEqualsWhole | src/pipeline/capture.rs:121-174 | converted chunks, all but the last exact, put end to end are the converted stream |
| Streaming.ChunkByChunkIffExact | src/pipeline/capture.rs:139-165 | converting a stream in chunks of n frames equals converting it whole, for all samples and any number of chunks, iff the rates are equal or n frames down-sample to whole frames |
| RingBuffer.Ring.PushSlice | src/source/device.rs:170-175 | a push takes in the prefix that fits and drops the rest |
| RingBuffer.KeepsNewestIff | src/config.rs:67-68 | a push keeps the newest samples, whatever they are, iff everything fits |
| RingBuffer.FullRingDropsTheNewest | src/source/device.rs:173-174 | a full ring of two, pushed a third sample, keeps the first two |
| RingBuffer.Ring.TryPop | src/pipeline/ring_buffer.rs:51 | a pop yields the oldest sample there after the callback has had its turn, or nothing when empty |
| RingBuffer.AudioBuffer.TryReadChunk | src/pipeline/ring_buffer.rs:44-73 | a whole non-empty chunk of the oldest samples under the device time, or nothing when fewer are found, the callback pushing in between |
| RingBuffer.AudioBuffer.Drain | src/pipeline/ring_buffer.rs:89-123 | terminates with the callback still pushing; all chunks but the last are full; when the ring is found empty everything accepted has been delivered; with the callback quiet the last chunk is no longer than a chunk |
| RingBuffer.RestIsBoundedIff | src/pipeline/ring_buffer.rs:100-106 | over all callback schedules, a size bounds the last chunk of a drain iff the ring's capacity is zero |
| RingBuffer.RestCanExceedAChunk | src/pipeline/ring_buffer.rs:100-106 | one callback during the final pops is enough to make the last chunk longer than a chunk |
| RingBuffer.AudioBuffer.DrainPass | src/pipeline/ring_buffer.rs:93-97 | one pass of the loop: with chunk size zero the check always succeeds and nothing is read, otherwise a whole chunk is |
| RingBuffer.ChunkSizeIsZeroIff | src/pipeline/ring_buffer.rs:29-30 | the chunk size is zero iff there are no channels or the duration is shorter than a frame |
| RingBuffer.DrainEndsIff | src/pipeline/ring_buffer.rs:93-97 | with the callback quiet, the loop finds less than a chunk after some number of passes iff there are channels and a chunk lasts a frame |
| Capture.CaptureBridge.ConvertChunk | src/pipeline/capture.rs:139-165 | the next bridged chunk is produced and the output timestamp advances by its duration |
| Capture.CaptureBridge.ProcessNextChunk | src/pipeline/capture.rs:121-136 | one chunk is read and converted exactly when a whole one is buffered |
| Capture.CaptureBridge.DrainRemaining | src/pipeline/capture.rs:168-174 | everything accepted by the last look at the ring is converted, the callback still running; failed sends are skipped |
| Capture.CaptureBridge.Run | src/pipeline/capture.rs:100-118 | for every interleaving with the callback, final drain included: what is sent is the bridged stream in order, everything accepted by the last look at the ring was read, and with exact chunks the output is the conversion of that whole stream; each tick of the capture loop reads until less than a chunk is left; a send that fails there ends it undrained, one that fails later does not |
| Capture.CaptureBridge.CallbackAfterRun | src/session.rs:84-86 | what a callback pushes after the drain is accepted by the ring and delivered to no one |
| Capture.BridgedSamples | src/pipeline/capture.rs:139-165 | the bridged chunks carry the chunk-wise converted samples |
| Capture.OutputIsContiguous | src/pipeline/capture.rs:149-164 | each output chunk starts where the one before it ends, the first at zero |
| Clock.OutputClock | src/pipeline/capture.rs:149-164 | the output timestamp of chunk k counts the frames converted from k full chunks |
| Clock.ClockDrift | src/pipeline/capture.rs:139-165 | the output clock is never behind the device clock, leads by less than one target frame per chunk, and agrees exactly when chunks convert to whole frames |
| Clock.AlignedIffChunkFillsWindow | src/pipeline/merger.rs:184-186 | every chunk of every length of run falls in the window of its own number iff a converted chunk lasts precisely a window |
| Clock.BridgeAlignedIff | src/pipeline/merger.rs:117-128 | whatever a bridge reads, chunk k of its output, the odd last one included, falls in merge window k, iff a converted full chunk lasts the window's milliseconds |
| Clock.SameDurationAlignedIff | src/pipeline/ring_buffer.rs:29-30 | for chunks and windows of the same milliseconds: aligned iff the frames converted from the truncated chunk are those of the window; for whole frames that is exactness |
| Clock.TruncatedChunks | src/pipeline/ring_buffer.rs:29-30 | at 11025 Hz and 100 ms two chunks share window 0; converted to 16 kHz all are aligned although the conversion is inexact |
| Clock.SampleCountInMillis | src/pipeline/ring_buffer.rs:29-30 | the reader's chunk size for a whole number of milliseconds, a fraction of a frame dropped |
| Clock.SilenceFillsTheWindow | src/pipeline/merger.rs:238-249 | the chunk `merge_chunks` makes for an empty window is as long as the window, all zeros, in the configured format |
| Merger.FedEmitsAtMostOne | src/pipeline/merger.rs:113-163 | adding a chunk emits nothing, or the window it completed, or the oldest window of a full map |
| Merger.FedKeepsInvariant | src/pipeline/merger.rs:113-145 | adding a chunk keeps: at most `max_pending` windows, each non-empty, incomplete, and holding only its own |
| Merger.TimedOutKeepsInvariant | src/pipeline/merger.rs:168-181 | a timeout check keeps the invariant and emits only windows that satisfied it |
| Merger.SumAtAdd | src/pipeline/merger.rs:256-263 | the sum over a map's chunks is the same whichever is visited first |
| Merger.TimeWindowMerger.AddChunk | src/pipeline/merger.rs:113-145 | the new map and the results are those of storing the chunk, emitting if complete, then evicting |
| Merger.TimeWindowMerger.EvictExcessWindows | src/pipeline/merger.rs:148-163 | windows leave oldest first until the map is within its limit |
| Merger.TimeWindowMerger.CheckTimeouts | src/pipeline/merger.rs:168-181 | precisely the timed-out windows leave, each once, in some order; which these are, over a run, is `Timeouts.CheckKeepsIff` |
| Timeouts.CheckKeepsIff | src/pipeline/merger.rs:168-181 | over every run: after a check at `now` a window is open iff the chunk that opened it was added at a time less than the timeout before `now`, the difference saturating at zero |
| Timeouts.OpenSince | src/pipeline/merger.rs:119-128 | every open window was opened by one operation of the run, and its creation time is the time of that operation |
| Timeouts.CheckEmitsTheRest | src/pipeline/merger.rs:168-181 | a check emits a window, as it was, iff the window was open before and is not after |
| Merger.TimeWindowMerger.EmitWindow | src/pipeline/merger.rs:198-217 | one window leaves, with its missing sources and its merge |
| Incomplete.ResultNamesTheMissing | src/pipeline/merger.rs:202-217 | a source is named missing iff it is expected and has no chunk in the window, as often as it is expected and in that order; none is named iff the window was complete |
| Incomplete.MissingAreAbsent | src/pipeline/merger.rs:202-207 | the filtered list holds the absent sources with their multiplicity and in the expected order |
| Merger.TimeWindowMerger.MergeChunks | src/pipeline/merger.rs:233-285 | the merge of a window, its length and format from an arbitrary chunk, wrapped `i32` sums divided toward zero |
| Merger.Accumulate | src/pipeline/merger.rs:252-263 | the nested loops compute the wrapped sum at every position, in any map order |
| MergeValue.MergeIgnoresMapOrder | src/pipeline/merger.rs:233-285 | with chunks of one length the merged samples do not depend on map order |
| MergeValue.MergeLengthFollowsMapOrder | src/pipeline/merger.rs:238-250 | with different lengths they do: either length can result |
| MergeValue.MergesUseTheMinimumIff | src/pipeline/merger.rs:257 | every merge of a window has the shortest chunk's length iff all chunks have it |
| MergeValue.MixNeverOverflows | src/pipeline/merger.rs:66-74 | for up to 65536 sources no sum wraps and the clamp changes nothing |
| MergeValue.SumsFitIff | src/pipeline/merger.rs:252-261 | the accumulator never wraps, whatever n sources deliver, iff n is at most 65536 |
| MergeValue.MergeIsTheAverage | src/pipeline/merger.rs:265-276 | merged samples are the truncated average over all expected sources, missing ones counting as silence |
| MergeValue.IncompleteEqualsSilentlyFilled | src/config.rs:94-99 | an incomplete window merges to the same samples as its completion with silent chunks |
| MergeValue.MergeKeepsFormat | src/pipeline/merger.rs:278-284 | a merge of chunks of one format has that format, starts with its window, and is of no single source |
| MergeValue.MergeOfEqualChunks | src/pipeline/merger.rs:233-285 | all expected sources delivering the same samples are merged to those samples |
| MergeValue.UnevenMergeIsPadded | src/pipeline/merger.rs:256-263 | with different lengths the merge is that of the chunks cut or filled up with silence to the length of the first |
| MergeValue.ClampChangesNothing | src/pipeline/merger.rs:265-276 | the clamp is dead for any number of sources, even when the sum has wrapped |
| RouteHonoured.RouterCallsMergedSinks | src/pipeline/router.rs:203-207 | a valid router has called each merged sink with the reports of its merger's windows, in order |
| RouteHonoured.MergedRouteHonouredIff | src/builder.rs:203-206 | what a merged sink is called with for complete windows is the average of the sources its route names iff it names all, or no window is ever complete |
| RouteHonoured.NoneComplete | src/pipeline/merger.rs:148-163 | with `max_pending` zero and several sources no emitted window is complete |
| MergerRuns.InsertConserves | src/pipeline/merger.rs:119-130 | storing a chunk adds it and removes only the chunk it replaces |
| MergerRuns.MovesConserve | src/pipeline/merger.rs:198-199 | windows that leave take exactly their chunks with them |
| MergerRuns.RunConserves | src/pipeline/merger.rs:113-217 | over every run, each added chunk is in exactly one emitted window, or superseded, or pending |
| MergerRuns.ReplacedSharesSlot | src/pipeline/merger.rs:130 | a superseded chunk gave way to a later one of its source in the same open window |
| MergerRuns.EmittedOnceIffNoLateFeed | src/pipeline/merger.rs:119-128 | windows are emitted at most once and none of them is open again, iff no chunk comes for a window already gone |
| MergerRuns.LateChunkEmitsTwice | src/pipeline/merger.rs:119-128 | a run in which a late chunk has its window emitted twice |
| MergerRuns.EmittedWindowsHoldTheirOwn | src/pipeline/merger.rs:238-249 | every emitted window is non-empty, so `merge_chunks` never makes silence |
| Barrier.BarrierPairsChunks | src/pipeline/merger.rs:113-163 | within the skew bound, windows 0..m-1 come out once each, complete, in order, window j holding the j-th chunk of every source |
| Barrier.CompleteIffWithinSkew | src/config.rs:103-110 | every emitted window is complete iff no source is ever more than `max_pending` chunks ahead |
| Barrier.NothingPendingIffLevel | src/pipeline/merger.rs:113-163 | within the skew bound no window is open iff all sources have delivered equally many chunks |
| StopFinalizes.StopFinalizesAllIff | src/pipeline/router.rs:311-317 | the same of a router, after a stop in particular: nothing is dropped iff it consumed equally many chunks of all sources |
| StopFinalizes.StopDropsAWindow | src/pipeline/router.rs:311-317 | two sources, one chunk, a stop: the router exits with the window still in the merger and the merged sink never called |
| Incomplete.StopSplitsAWindow | src/pipeline/router.rs:311-317 | two sources, the second chunk of a window in the queue when the stop comes at its timeout: the window is emitted without it, its source reported missing, and the chunk dropped |
| Incomplete.RouterReportsTheIncomplete | src/pipeline/router.rs:188-197 | at all times the events of a router are one per window its merger emitted incomplete, in order, each with exactly the absent sources |
| Routing.NewTable | src/pipeline/routing.rs:98-150 | fails iff a route names an unknown source, and names one of the first such route; otherwise the lists are those of the routes |
| Routing.DirectTargets | src/pipeline/routing.rs:152-160 | broadcast and direct lists hold, once, precisely the unmerged sinks that want a source |
| Routing.MergedTargets | src/pipeline/routing.rs:139-143 | the merge groups hold, once, precisely the merged sinks |
| Routing.GroupsAreClasses | src/pipeline/routing.rs:133-143 | two merged sinks share a group iff their source sets are equal |
| Routing.TableHasMergeRoutesIff | src/pipeline/routing.rs:167-170 | there are merge groups iff some sink is merged |
| Retry.AttemptsLaw | src/pipeline/router.rs:112-137 | the number of calls is the unique one where all but the last fail and the last succeeds or is the limit |
| Retry.ReliableSinkGetsEachOnce | src/pipeline/router.rs:112-137 | a sink that never fails is called once per chunk, in order |
| Routers.Router.WithRouting | src/pipeline/router.rs:63-96 | refuses iff the table does; otherwise a valid router, with a merger expecting all sources iff some route is merged |
| Routers.Router.WriteToSink | src/pipeline/router.rs:112-137 | calls, errors and the total wait d·(2^r − 1) of one write, against any sink |
| Routers.Router.WriteToIndices | src/pipeline/router.rs:140-148 | the listed sinks, and no others, are written to |
| Routers.DirectDelivers | src/pipeline/router.rs:168-180 | writing to the direct list serves every sink that wants the chunk |
| Routers.MergedDelivers | src/pipeline/router.rs:203-207 | writing to all groups serves every merged sink once |
| Routers.Router.WriteMergedChunk | src/pipeline/router.rs:203-207 | every merged sink, and no other, is written to once |
| Routers.Router.EmitResults | src/pipeline/router.rs:188-197 | results are delivered in order and exactly the incomplete ones reported |
| Routers.Router.RouteChunk | src/pipeline/router.rs:168-200 | after a chunk every sink's call log is again what its route alone prescribes |
| Routers.Router.CheckMergeTimeouts | src/pipeline/router.rs:210-229 | the timed-out windows leave the merger and are delivered |
| Routers.Router.StopSinks | src/pipeline/router.rs:247-256 | every sink is stopped once, in order, with one error event for each that fails |
| Routers.StopLogSpec | src/pipeline/router.rs:247-256 | the stops are one per sink, in order, each after everything consumed |
| Routers.FailedStopsSpec | src/pipeline/router.rs:247-256 | the error events are those of precisely the sinks whose `on_stop` fails, each once, in order |
| Routers.Router.DrainAndFinalize | src/pipeline/router.rs:312-317 | timeouts are checked, then everything queued is routed |
| Routers.Router.Run | src/pipeline/router.rs:261-287 | ends iff a stop comes; all taken chunks are routed before any sink is stopped; what the merger keeps is incomplete and within the limit |
| Pipeline.StepKeepsInv | src/pipeline/capture.rs:100-118 | every step of bridges, channel, router and session keeps the conservation invariant |
| Pipeline.BehaviorKeepsInv | src/pipeline/router.rs:261-287 | in every reachable state consumed, queued and held chunks of a source are its stream so far, in order, and the channel is within its capacity |
| Pipeline.BehaviorKeepsKnown | src/pipeline/capture.rs:139-165 | only chunks of the configured sources are ever queued or consumed |
| Pipeline.ConsumedIsPrefix | src/pipeline/router.rs:261-287 | what the router has consumed of a source is the beginning of what its bridge makes |
| Pipeline.ConsumedIsFrozen | src/pipeline/router.rs:312-317 | once the drain has ended nothing more is consumed |
| Pipeline.RouterLeavesOnlyOnStop | src/pipeline/router.rs:273-286 | the router leaves its loop only after the session's flag was cleared and the command sent |
| Pipeline.StopDeliversAllIff | src/session.rs:131-167 | from any moment before the drain has ended, the call of stop above all, every continuation delivers all of a source iff its bridge has by then made and sent everything |
| Pipeline.DrainedToSinksIff | src/pipeline/router.rs:312-317 | one run delivers all of a source iff its bridge had sent everything when the drain ended |
| Pipeline.StopOvertakesEverything | src/session.rs:152-167 | for every set-up, a complete shutdown that delivers nothing |
| Pipeline.ShutdownCanLoseAudio | src/session.rs:152-167 | the same for one source with one chunk and one sink |
| Pipeline.StepDecreasesRank | src/session.rs:146-177 | every step leaves less to do, but for going round in a drain loop at chunk size zero |
| Pipeline.StoppedNeverStuck | src/session.rs:146-177 | some step is possible until router and bridges are done |
| Pipeline.ShutdownTerminatesIff | src/session.rs:146-177 | behaviors are bounded iff no source has chunk size zero, and one that cannot continue has the router exited and every bridge finished |
| Delivery.AllCanBeReceived | src/pipeline/router.rs:268-272 | for every set-up, a behavior in which the serving router has received all of every source before any stop |
| Delivery.StopCanDeliverAll | src/session.rs:146-177 | for every set-up without zero chunk sizes, a complete shutdown whose first step is the call of `stop` and that delivers all of every source, by the router serving on or, after it took the command, by its drain |
| Delivery.BridgeEndsBeforeStop | src/pipeline/capture.rs:116-118 | a bridge drains and ends on its own once the flag is cleared, the stop command not yet sent |
| Delivery.ChannelCanFill | src/builder.rs:17 | any number of chunks of a source up to a hundred can be queued |
| Delivery.FullChannelBlocks | src/pipeline/capture.rs:109 | with a hundred queued the bridge holds the next until the router has received one |
| Delivery.SentButNotDelivered | src/pipeline/router.rs:286 | a complete shutdown in which a chunk is sent with success, while sinks are being stopped, and never consumed |
| Delivery.FailedSendEndsCapture | src/pipeline/capture.rs:108-113 | once a send has failed in the capture loop the bridge makes nothing more |
| Delivery.DrainMakesAll | src/pipeline/capture.rs:168-174 | a bridge that has begun its drain makes all of its stream, whatever becomes of the sends |
| Delivery.RouterStopsEverySink | src/pipeline/router.rs:247-256 | at its exit the router has stopped as many sinks as there are |
| WavFile.FileSink.WriteWavHeader | src/sink/file.rs:104-136 | the thirteen writes make the header |
| WavFile.FileSink.UpdateWavHeader | src/sink/file.rs:141-155 | seeking and patching two fields gives the header with the final size, samples untouched |
| WavFile.FileSink.WriteSamples | src/sink/file.rs:158-190 | the first write creates the file in its format; every write appends its samples |
| WavFile.FileSink.Finalize | src/sink/file.rs:193-205 | an open file ends as the final header and all samples |
| WavFile.FileSink.Record | src/sink/file.rs:219-248 | a write per chunk and one stop leave the header of the first chunk's format with the final size, and all samples, the four tags given by their bytes; without chunks no file |
| WavFile.FileIsTagged | src/sink/file.rs:111-131 | bytes 0, 8, 12 and 36 on are the codes of RIFF, WAVE, fmt and data |
| WavFile.OneFrameFile | src/sink/file.rs:104-190 | the 48 bytes of the file of one stereo frame at 16 kHz, literally |
| WavFile.PatchGivesFinalHeader | src/sink/file.rs:141-155 | the patched placeholder is the header written once |
| WavFile.RiffSizeIff | src/sink/file.rs:112 | the RIFF size is the file length less eight iff it fits in 32 bits |
| WavFile.RecordingReadsBackIff | src/sink/file.rs:104-205 | an independent reader recovers rate, channels and samples iff no field overflowed |
| WavFile.RestartedSinkOverstates | src/sink/file.rs:186-204 | a sink reused after a stop writes sizes larger than the file, which a reader rejects |
| WavFile.RestartedSinkReadsBackIff | src/sink/file.rs:186-204 | its file still reads back iff the earlier count vanishes in the 32-bit size field and no field overflowed |
| EndToEnd.SingleSinkGetsItsSource | src/pipeline/router.rs:168-180 | a reliable single-source sink gets that source's chunks, each once |
| EndToEnd.BroadcastSinkGetsEverything | src/pipeline/router.rs:168-173 | a reliable broadcast sink gets every chunk consumed, once, in order |
| EndToEnd.FileOfADrainedSource | src/pipeline/capture.rs:138-175 | a completely drained source, converted in exact chunks into a reliable file sink, reads back as the conversion of all samples read |
| EndToEnd.SetupOfIsValid | src/builder.rs:261-281 | the step system whose streams are what the bridges produced is one the builder accepts |
| EndToEnd.RunRouter | src/pipeline/router.rs:261-287 | the router, run through its turns of the step system with ticks anywhere between, has consumed what the step system says and stopped every sink |
| EndToEnd.CalledWithAllProduced | src/pipeline/router.rs:261-287 | it has called a reliable single-source sink with all the source's bridge produced, if the bridge had sent everything at some moment before the drain ended |
| EndToEnd.RecordCapture | src/pipeline/capture.rs:100-174 | bridges, router and file sink as objects, the router run to its exit: the file reads back as the conversion of all the ring accepted but for what is still in it, iff the recording fits the format |
| EndToEnd.AlignedMergeIsTheAverage | src/pipeline/merger.rs:219-285 | over an aligned run within the skew bound, result j is complete and is the average of the j-th chunks of all sources |
| EndToEnd.FedFromPipeline | src/pipeline/router.rs:182-186 | the merger has been fed, per source, the beginning of what its bridge produced |
| EndToEnd.MergedSinkGetsTheAverage | src/pipeline/merger.rs:219-285 | bridges and router as objects: call j to a merged sink starts with window j, has the common format, lasts the window and is, sample by sample, the average of the converted j-th device chunks of all sources |

## Left out

- Rounding of `f64`, `f32` and of `Duration` to nanoseconds: positions, ratios and times are exact reals;
  rates are positive, as those of an open device are.
- `f32_to_i16` and `i16_to_f32` (src/format/convert.rs): float rounding only.
- Overflow of `u64` and `usize` counters, and of the divisor's cast to `i32`: these numbers are unbounded.
- Panics of debug builds: `u32`, `u16` and `i32` arithmetic wraps as in release builds, and the
  `debug_assert!` of `merge_chunks` is not modelled.
- Pipeline.ShutdownTerminatesIff: a callback that outpaces a drain for ever; what each source's bridge makes is
  finite. That a drain at chunk size zero spins is `RingBuffer.AudioBuffer.DrainPass`.
- Pipeline.StopDeliversAllIff: names all the bridge will ever make, which a caller of `stop` cannot know.
- Routers.Router.RouteChunk: a merge window shorter than a millisecond, which `with_routing` accepts and on which
  the first chunk panics (src/pipeline/merger.rs:185); such a router is built but is not `Valid`.
- Interleaving of `join_all` across different sinks: sinks are written one after the other; each sink's
  own calls are in the same order either way.
- Polling intervals, backpressure on time, shutdown timeouts and the `Drop` clean-up: the step system
  leaves timing to the scheduler; a timeout tick changes none of its state.
- The `else` branch of the router's `select!`: the tick branch matches everything, so it is never taken.
- The table-less single-source router, `RoutingTable` and merger helpers built for unit tests only.
- File-system errors, partial writes and buffering: a write always reaches the file.
- Device enumeration, the builder's setters, session statistics, event texts, `ChannelSink`, `start_sinks`.
- Streaming.StreamingEqualsWhole: mono and stereo only, because `convert` remixes no other channel counts.
