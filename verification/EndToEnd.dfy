/**
 The parts together: from the samples a device delivered to what a sink ends up with.
 */
module EndToEnd {

  import opened Arith
  import opened Audio
  import opened Convert
  import opened Streaming
  import opened Capture
  import opened Clock
  import opened Merger
  import opened MergeValue
  import opened MergerRuns
  import opened Barrier
  import opened Routing
  import opened Retry
  import opened Routers
  import opened RouteHonoured
  import opened StopFinalizes
  import opened RingBuffer
  import opened Pipeline
  import opened WavFile

  // ---------- one source, one file ----------

  /** A reliable sink routed from one source has been written that source's consumed chunks, each once. */
  lemma SingleSinkGetsItsSource(cfg: RouterConfig, calls: seq<seq<Chunk>>, consumed: seq<Chunk>, merged: seq<Chunk>,
                                k: nat, s: SourceId)
    requires Delivered(cfg, calls, consumed, merged) && k < |calls| && cfg.routes[k] == Single(s)
    requires forall n: nat :: cfg.outcome(k, n)
    ensures calls[k] == FromSource(consumed, s)
  {
    ReliableSinkGetsEachOnce(cfg.outcome, k, cfg.retryAttempts, FromSource(consumed, s));
  }

  /** A reliable broadcast sink has been written everything the router consumed, each chunk once, in that order. */
  lemma BroadcastSinkGetsEverything(cfg: RouterConfig, calls: seq<seq<Chunk>>, consumed: seq<Chunk>,
                                    merged: seq<Chunk>, k: nat)
    requires Delivered(cfg, calls, consumed, merged) && k < |calls| && cfg.routes[k] == Broadcast
    requires forall n: nat :: cfg.outcome(k, n)
    ensures calls[k] == consumed
  {
    ReliableSinkGetsEachOnce(cfg.outcome, k, cfg.retryAttempts, consumed);
  }

  /**
   A source that was drained completely, converted in exact chunks, into a reliable file sink of its own:
   the sink's samples are the conversion of all the samples read, and the finished file reads back so.
   */
  lemma FileOfADrainedSource(cfg: RouterConfig, calls: seq<seq<Chunk>>, consumed: seq<Chunk>, merged: seq<Chunk>,
                             k: nat, s: SourceId, conv: FormatConverter, chunks: seq<Chunk>)
    requires FromSource(consumed, s) == Bridged(conv, Some(s), chunks)
    requires MonoOrStereo(conv) && AllButLastExact(conv, chunks)
    requires Delivered(cfg, calls, consumed, merged) && k < |calls| && cfg.routes[k] == Single(s)
    requires forall n: nat :: cfg.outcome(k, n)
    ensures SamplesOf(calls[k]) == conv.Converted(SamplesOf(chunks))
    ensures var samples := SamplesOf(calls[k]);
            36 + 2 * |samples| < 0x1_0000_0000 && conv.targetRate * conv.targetChannels * 2 < 0x1_0000_0000 ==>
              Decode(Header(conv.targetRate, conv.targetChannels, DataSize(|samples|)) + SampleBytes(samples))
              == Some(Recording(conv.targetRate, conv.targetChannels, conv.Converted(SamplesOf(chunks))))
  {
    hide *;
    SingleSinkGetsItsSource(cfg, calls, consumed, merged, k, s);
    BridgedSamples(conv, Some(s), chunks);
    StreamingEqualsWhole(conv, chunks);
    RecordingReadsBackIff(conv.targetRate, conv.targetChannels, SamplesOf(calls[k]));
    TargetChannelsAreFew(conv);
  }

  /** What is in a list of bridged chunks of one source, and in what format. */
  lemma BridgedFormat(conv: FormatConverter, s: SourceId, chunks: seq<Chunk>)
    requires chunks != []
    ensures Bridged(conv, Some(s), chunks)[0].sampleRate == conv.targetRate
    ensures Bridged(conv, Some(s), chunks)[0].channels == conv.targetChannels
  {
    hide FormatConverter.Converted, Bridged;
    BridgedAt(conv, Some(s), chunks, 0);
  }

  // ---------- the objects in the step system ----------

  /** A bridge for every source, each under its source's name. */
  ghost predicate BridgesFor(sources: seq<SourceId>, bridges: map<SourceId, CaptureBridge>)
    reads bridges.Values, set s | s in bridges :: bridges[s].buffer, set s | s in bridges :: bridges[s].buffer.ring
  {
    forall s :: s in sources ==> s in bridges && bridges[s].Valid() && bridges[s].sourceId == Some(s)
  }

  /** The step system of these bridges: the stream of a source is what its bridge produced over the whole run. */
  ghost function SetupOf(sources: seq<SourceId>, bridges: map<SourceId, CaptureBridge>, sinks: nat): Setup
    requires forall s :: s in sources ==> s in bridges
    reads bridges.Values
  {
    Setup(sources, map s | s in sources :: bridges[s].produced,
          map s | s in sources :: bridges[s].buffer.chunkSize, sinks)
  }

  /** It is one the builder accepts, if the sources are. */
  lemma SetupOfIsValid(sources: seq<SourceId>, bridges: map<SourceId, CaptureBridge>, sinks: nat)
    requires BridgesFor(sources, bridges) && sources != [] && Distinct(sources) && 0 < sinks
    ensures SetupOf(sources, bridges, sinks).Valid()
  {
    hide Bridged, AudioBuffer.Valid, TotalLength;
    forall s | s in sources
      ensures forall i :: 0 <= i < |bridges[s].produced| ==> bridges[s].produced[i].source == Some(s)
      ensures bridges[s].buffer.chunkSize == 0 ==> bridges[s].produced == []
    {
      assert bridges[s].Valid();
      BridgedSources(bridges[s].converter, s, bridges[s].buffer.delivered);
    }
  }

  lemma BridgedSources(conv: FormatConverter, s: SourceId, chunks: seq<Chunk>)
    ensures forall i :: 0 <= i < |chunks| ==> Bridged(conv, Some(s), chunks)[i].source == Some(s)
    ensures |Bridged(conv, Some(s), chunks)| == |chunks|
  {
    hide FormatConverter.Converted, Bridged;
    forall i | 0 <= i < |chunks|
      ensures Bridged(conv, Some(s), chunks)[i].source == Some(s)
    {
      BridgedAt(conv, Some(s), chunks, i);
    }
  }

  /**
   The router's turns in a run that ends in a stop: it takes `received` one by one, timeout ticks in between as they
   come, then the stop command, and finds `drained` in the queue.
   */
  predicate IsSchedule(branches: seq<Branch>, received: seq<Chunk>, drained: seq<Chunk>)
  {
    branches != [] &&
    match branches[0]
    case Recv(c, _) => received != [] && c == received[0] && IsSchedule(branches[1..], received[1..], drained)
    case Tick(_) => IsSchedule(branches[1..], received, drained)
    case Stop(_, queued) => received == [] && ChunksIn(queued) == drained
  }

  lemma {:induction false} ScheduleTakes(branches: seq<Branch>, received: seq<Chunk>, drained: seq<Chunk>)
    requires IsSchedule(branches, received, drained)
    ensures Taken(branches) == received + drained && Stops(branches)
  {
    hide *;
    ScheduleUnfolds(branches, received, drained);
    match branches[0]
    case Recv(c, _) =>
      ScheduleTakes(branches[1..], received[1..], drained);
      OneMoreTurn(branches, received[1..] + drained);
      HeadFirst(c, received, drained);
    case Tick(_) =>
      ScheduleTakes(branches[1..], received, drained);
      OneMoreTurn(branches, received + drained);
      NoneFirst(received + drained);
    case Stop(_, _) =>
      LastTurn(branches);
      NoneFirst(drained);
  }

  lemma OneMoreTurn(branches: seq<Branch>, rest: seq<Chunk>)
    requires branches != [] && !branches[0].Stop? && Taken(branches[1..]) == rest && Stops(branches[1..])
    ensures Taken(branches) == (if branches[0].Recv? then [branches[0].chunk] else []) + rest && Stops(branches)
  {
    hide Stops;
    StopsLater(branches);
  }

  lemma LastTurn(branches: seq<Branch>)
    requires branches != [] && branches[0].Stop?
    ensures Taken(branches) == ChunksIn(branches[0].queued) && Stops(branches)
  {
    hide ChunksIn;
    NoneFirst(ChunksIn(branches[0].queued));
  }

  lemma ScheduleUnfolds(branches: seq<Branch>, received: seq<Chunk>, drained: seq<Chunk>)
    requires IsSchedule(branches, received, drained)
    ensures branches != []
    ensures match branches[0]
            case Recv(c, _) =>
              received != [] && c == received[0] && IsSchedule(branches[1..], received[1..], drained)
            case Tick(_) => IsSchedule(branches[1..], received, drained)
            case Stop(_, queued) => received == [] && ChunksIn(queued) == drained
  {
  }

  lemma HeadFirst(c: Chunk, received: seq<Chunk>, drained: seq<Chunk>)
    requires received != [] && received[0] == c
    ensures [c] + (received[1..] + drained) == received + drained
  {
  }

  lemma NoneFirst(chunks: seq<Chunk>)
    ensures [] + chunks == chunks && chunks + [] == chunks
  {
  }

  lemma StopsLater(branches: seq<Branch>)
    requires branches != [] && Stops(branches[1..])
    ensures Stops(branches)
  {
    var i :| 0 <= i < |branches[1..]| && branches[1..][i].Stop?;
    assert branches[i + 1].Stop?;
  }

  /** The turns of this run of the step system: the stop command was taken at step `p`. */
  ghost predicate TurnsOf(branches: seq<Branch>, states: seq<State>, steps: seq<Step>, p: nat)
    requires |states| == |steps| + 1 && p < |steps|
  {
    && steps[p] == TakeStop && states[p].consumed <= states[|steps|].consumed
    && IsSchedule(branches, states[p].consumed, states[|steps|].consumed[|states[p].consumed|..])
  }

  /** The router runs through its turns of the step system: it has consumed what the step system says. */
  method RunRouter(router: Router, branches: seq<Branch>, ghost states: seq<State>, ghost steps: seq<Step>,
                   ghost p: nat)
    requires router.Valid() && router.consumed == [] && router.stopped == []
    requires |states| == |steps| + 1 && p < |steps| && TurnsOf(branches, states, steps, p)
    modifies router, router.merger
    ensures router.Valid() && router.consumed == states[|steps|].consumed
    ensures router.stopped == StopLog(|router.cfg.routes|, router.consumed)
  {
    hide *;
    ScheduleOfTurns(branches, states, steps, p);
    var exited := router.Run(branches);
    assert [] + router.consumed == router.consumed;
    assert [] + StopLog(|router.cfg.routes|, router.consumed) == StopLog(|router.cfg.routes|, router.consumed);
  }

  lemma ScheduleOfTurns(branches: seq<Branch>, states: seq<State>, steps: seq<Step>, p: nat)
    requires |states| == |steps| + 1 && p < |steps| && TurnsOf(branches, states, steps, p)
    ensures [] + Taken(branches) == states[|steps|].consumed && Stops(branches)
  {
    hide IsSchedule, Taken, Stops;
    var first, all := states[p].consumed, states[|steps|].consumed;
    ScheduleTakes(branches, first, all[|first|..]);
    assert first + all[|first|..] == all;
  }

  /**
   A run of the step system to the end of the router's drain, at some moment before which, the call of `stop` for one,
   the bridge of `s` had made and sent everything.
   */
  ghost predicate SentInTime(setup: Setup, states: seq<State>, steps: seq<Step>, i: nat, s: SourceId)
  {
    && Behavior(setup, states, steps) && RouterDone(states[|steps|])
    && i < |states| && !RouterDone(states[i])
    && s in states[i].bridges && s in setup.streams && AllSent(setup, states[i], s)
  }

  /** What reached the sink's call log: all the bridge produced, if it had sent everything in time. */
  lemma CalledWithAllProduced(sources: seq<SourceId>, bridges: map<SourceId, CaptureBridge>, states: seq<State>,
                              steps: seq<Step>, i: nat, router: Router, s: SourceId, k: nat)
    requires BridgesFor(sources, bridges) && s in sources && router.Valid()
    requires SentInTime(SetupOf(sources, bridges, |router.cfg.routes|), states, steps, i, s)
    requires |states| == |steps| + 1 && router.consumed == states[|steps|].consumed
    requires k < |router.cfg.routes| && router.cfg.routes[k] == Single(s) && Reliable(router.cfg, k)
    ensures k < |router.calls| && router.calls[k] == bridges[s].produced
  {
    hide CaptureBridge.Valid, Router.Valid, Delivered, SetupOf, SentInTime, FromSource, ChunksOf;
    var setup := SetupOf(sources, bridges, |router.cfg.routes|);
    StreamOf(sources, bridges, |router.cfg.routes|, s);
    AllConsumed(setup, states, steps, i, s);
    RouterLogIs(router);
    SingleSinkGetsItsSource(router.cfg, router.calls, router.consumed, ChunksOf(router.results), k, s);
  }

  lemma RouterLogIs(router: Router)
    requires router.Valid()
    ensures Delivered(router.cfg, router.calls, router.consumed, ChunksOf(router.results))
    ensures |router.calls| == |router.cfg.routes|
  {
    hide IsTable, IncompleteOf, WithSource, IsRun, ReportsAll, CallsFor, ChunksOf;
  }

  lemma StreamOf(sources: seq<SourceId>, bridges: map<SourceId, CaptureBridge>, sinks: nat, s: SourceId)
    requires BridgesFor(sources, bridges) && s in sources
    ensures var setup := SetupOf(sources, bridges, sinks);
            setup.sources == sources && s in setup.streams && setup.streams[s] == bridges[s].produced
    ensures bridges[s].Valid() && bridges[s].sourceId == Some(s)
  {
    hide CaptureBridge.Valid;
  }

  lemma AllConsumed(setup: Setup, states: seq<State>, steps: seq<Step>, i: nat, s: SourceId)
    requires SentInTime(setup, states, steps, i, s) && s in setup.sources
    ensures |states| == |steps| + 1 && s in setup.streams
    ensures FromSource(states[|steps|].consumed, s) == setup.streams[s]
  {
    hide FromSource, Enabled, After, Init, RouterDone, AllSent;
    StopDeliversAllIff(setup, states, steps, i, s);
    if i < |steps| {
      PathBetween(setup, states, steps, i, |steps|);
    }
  }

  lemma PathBetween(setup: Setup, states: seq<State>, steps: seq<Step>, i: nat, j: nat)
    requires Behavior(setup, states, steps) && i <= j < |states|
    ensures Path(setup, states[i..j + 1], steps[i..j])
    ensures states[i..j + 1][0] == states[i] && states[i..j + 1][j - i] == states[j]
  {
    hide Enabled, After, Init;
  }

  /**
   The file reads back as the conversion of every sample the ring accepted, but for those still in it, exactly when
   the recording fits the format.
   */
  ghost predicate ReadsBack(file: seq<byte>, conv: FormatConverter, ring: Ring)
    requires |ring.contents| <= |ring.accepted|
    reads ring
  {
    var samples := conv.Converted(ring.accepted[..|ring.accepted| - |ring.contents|]);
    Decode(file) == Some(Recording(conv.targetRate, conv.targetChannels, samples)) <==>
    36 + 2 * |samples| < 0x1_0000_0000 && conv.targetRate * conv.targetChannels * 2 < 0x1_0000_0000
  }

  /**
   From microphone to file, on the objects of the code: the bridges, the router that runs through its turns, and the
   file sink of a route that names one source alone, written what the router called it with and then stopped. If that
   source's bridge had sent everything at some moment before the router's drain ended, the call of `stop` for one, the
   file is the recording of all the ring accepted, but for what a callback added after the bridge's last look and no one
   will read.
   */
  method RecordCapture(ghost sources: seq<SourceId>, ghost bridges: map<SourceId, CaptureBridge>,
                       ghost states: seq<State>, ghost steps: seq<Step>, ghost i: nat, ghost p: nat, router: Router,
                       branches: seq<Branch>, sink: FileSink, s: SourceId, k: nat)
    requires BridgesFor(sources, bridges) && s in sources
    requires MonoOrStereo(bridges[s].converter) && ExactSamples(bridges[s].converter, bridges[s].buffer.chunkSize)
    requires router.Valid() && router.consumed == [] && router.stopped == []
    requires k < |router.cfg.routes| && router.cfg.routes[k] == Single(s) && Reliable(router.cfg, k)
    requires SentInTime(SetupOf(sources, bridges, |router.cfg.routes|), states, steps, i, s)
    requires |states| == |steps| + 1 && p < |steps| && TurnsOf(branches, states, steps, p)
    requires sink.Valid() && !sink.open && sink.samplesWritten == 0
    modifies router, router.merger, sink
    ensures bridges[s].produced == [] ==> sink.file == old(sink.file)
    ensures bridges[s].produced != [] ==> ReadsBack(sink.file, bridges[s].converter, bridges[s].buffer.ring)
  {
    hide CaptureBridge.Valid, Router.Valid, FileSink.Valid, SetupOf, SentInTime, TurnsOf, Reliable,
         ReadsBack, FileOf, MonoOrStereo, ExactSamples, SamplesOf, StopLog;
    StreamOf(sources, bridges, |router.cfg.routes|, s);
    if bridges[s].produced != [] {
      CaptureReadsBack(bridges[s], s);
    }
    RunRouter(router, branches, states, steps, p);
    CalledWithAllProduced(sources, bridges, states, steps, i, router, s, k);
    sink.Record(router.calls[k]);
  }

  /** A recording of all a bridge produced, in a sink that has counted nothing yet. */
  lemma CaptureReadsBack(bridge: CaptureBridge, s: SourceId)
    requires bridge.Valid() && bridge.sourceId == Some(s) && bridge.produced != []
    requires MonoOrStereo(bridge.converter) && ExactSamples(bridge.converter, bridge.buffer.chunkSize)
    ensures |bridge.buffer.ring.contents| <= |bridge.buffer.ring.accepted|
    ensures ReadsBack(FileOf(bridge.produced, 0), bridge.converter, bridge.buffer.ring)
  {
    hide CaptureBridge.Valid, Bridged, SamplesOf, FormatConverter.Converted, Decode, Header, DataSize, SampleBytes,
         ExactSamples, FileOf;
    var conv := bridge.converter;
    BridgeHolds(bridge);
    BridgedFormat(conv, s, bridge.buffer.delivered);
    FileOfChunks(bridge.produced);
    RecordingReadsBackIff(conv.targetRate, conv.targetChannels, SamplesOf(bridge.produced));
  }

  lemma BridgeHolds(bridge: CaptureBridge)
    requires bridge.Valid() && MonoOrStereo(bridge.converter)
    requires ExactSamples(bridge.converter, bridge.buffer.chunkSize)
    ensures bridge.produced == Bridged(bridge.converter, bridge.sourceId, bridge.buffer.delivered)
    ensures bridge.produced != [] <==> bridge.buffer.delivered != []
    ensures var ring := bridge.buffer.ring;
            |ring.contents| <= |ring.accepted| &&
            SamplesOf(bridge.produced) == bridge.converter.Converted(ring.accepted[..|ring.accepted| - |ring.contents|])
  {
    hide Bridged, TotalLength, Stamped, SamplesOf, ExactSamples, FormatConverter.Converted;
    bridge.ConvertedDelivered();
    var ring := bridge.buffer.ring;
    assert ring.accepted[..|ring.accepted| - |ring.contents|] == ring.popped;
  }

  lemma FileOfChunks(chunks: seq<Chunk>)
    requires chunks != []
    ensures var samples := SamplesOf(chunks);
            FileOf(chunks, 0)
            == Header(chunks[0].sampleRate, chunks[0].channels, DataSize(|samples|)) + SampleBytes(samples)
  {
    hide Header, SampleBytes, SamplesOf, DataSize;
  }

  lemma TargetChannelsAreFew(conv: FormatConverter)
    requires MonoOrStereo(conv)
    ensures conv.targetChannels * 2 < 0x1_0000
  {
  }

  // ---------- several sources, merged ----------

  /** A source as the merger sees it: its converter, the device chunks its bridge read, and the frames of a full one. */
  datatype Captured = Captured(conv: FormatConverter, chunks: seq<Chunk>, frames: nat)

  /** Converted, a chunk lasts as many milliseconds as the merger counts in a window: see `Clock.BridgeAlignedIff`. */
  ghost predicate CutToWindow(cfg: MergerConfig, cap: Captured)
  {
    && MonoOrStereo(cap.conv)
    && FramesOut(cap.conv, cap.frames) * 1000 == AsMillis(cfg.windowDuration) * cap.conv.targetRate
    && (cap.chunks != [] ==> FullBefore(cap.conv, cap.chunks, cap.frames, |cap.chunks| - 1))
  }

  /** Everything the merger was fed came from the bridges, per source in order. */
  ghost predicate FedFromBridges(cfg: MergerConfig, captures: map<SourceId, Captured>, fed: seq<Chunk>)
  {
    forall s :: s in cfg.expected ==>
      && s in captures && CutToWindow(cfg, captures[s])
      && FromSource(fed, s) <= Bridged(captures[s].conv, Some(s), captures[s].chunks)
  }

  lemma NextChunkIsAligned(cfg: MergerConfig, captures: map<SourceId, Captured>, fed: seq<Chunk>, c: Chunk, s: SourceId)
    requires cfg.Valid() && s in cfg.expected && c.source == Some(s) && FedFromBridges(cfg, captures, fed + [c])
    ensures cfg.WindowId(c.timestamp) == Count(fed, s)
  {
    hide FromSource, Bridged, FullBefore, AsMillis, MergerConfig.WindowId, MergerConfig.Valid, FramesOut;
    FromSourceAppend(fed, c, s);
    var k, cap := Count(fed, s), captures[s];
    var out := Bridged(cap.conv, Some(s), cap.chunks);
    assert FromSource(fed + [c], s)[k] == c;
    assert out[k] == c;
    BridgeIsAligned(cfg, cap.conv, Some(s), cap.chunks, cap.frames, k);
  }

  lemma {:induction false} FromSourcePrefix(a: seq<Chunk>, b: seq<Chunk>, s: SourceId)
    requires a <= b
    ensures FromSource(a, s) <= FromSource(b, s)
  {
    FromSourceConcat(a, b[|a|..], s);
    assert a + b[|a|..] == b;
  }

  lemma FedFromBridgesPrefix(cfg: MergerConfig, captures: map<SourceId, Captured>, a: seq<Chunk>,
                             b: seq<Chunk>)
    requires FedFromBridges(cfg, captures, b) && a <= b
    ensures FedFromBridges(cfg, captures, a)
  {
    hide FromSource, Bridged, CutToWindow;
    forall s | s in cfg.expected
      ensures FromSource(a, s) <= Bridged(captures[s].conv, Some(s), captures[s].chunks)
    {
      FromSourcePrefix(a, b, s);
    }
  }

  lemma {:induction false} FedGrows(cfg: MergerConfig, hs: seq<History>, ops: seq<Op>, i: nat, j: nat)
    requires cfg.Valid() && IsRun(cfg, hs, ops) && i <= j < |hs|
    ensures hs[i].fed <= hs[j].fed
  {
    hide Fed, TimedOutStep, MergerConfig.WindowId, HasId, Replaced;
    if i < j {
      FedGrows(cfg, hs, ops, i, j - 1);
      assert Next(cfg, hs[j - 1], ops[j - 1], hs[j]);
    }
  }

  lemma FeedGrowsByOne(cfg: MergerConfig, hs: seq<History>, ops: seq<Op>, i: nat)
    requires cfg.Valid() && IsRun(cfg, hs, ops) && i < |ops| && ops[i].Feed? && ops[i].chunk.source.Some?
    ensures hs[i + 1].fed == hs[i].fed + [ops[i].chunk]
  {
    hide Fed, TimedOutStep, MergerConfig.WindowId, HasId, Replaced;
    assert Next(cfg, hs[i], ops[i], hs[i + 1]);
  }

  /** The premise of the barrier holds for the pipeline: bridges cut to the window feed the merger aligned. */
  lemma BridgesFeedAligned(cfg: MergerConfig, captures: map<SourceId, Captured>, hs: seq<History>, ops: seq<Op>)
    requires cfg.Valid() && IsRun(cfg, hs, ops) && FedFromBridges(cfg, captures, hs[|ops|].fed)
    requires forall i :: 0 <= i < |ops| && ops[i].Feed? ==>
               ops[i].chunk.source.Some? && ops[i].chunk.source.value in cfg.expected
    requires forall i :: 0 <= i < |ops| && ops[i].Tick? ==> TimedOut(cfg, hs[i].pending, ops[i].now) == {}
    ensures AlignedRun(cfg, hs, ops)
  {
    hide FedFromBridges, IsRun, MergerConfig.WindowId, MergerConfig.Valid, Count, TimedOut;
    RunLength(cfg, hs, ops);
    forall i | 0 <= i < |ops|
      ensures AlignedOp(cfg, hs[i], ops[i])
    {
      if ops[i].Feed? {
        var c := ops[i].chunk;
        FeedGrowsByOne(cfg, hs, ops, i);
        FedGrows(cfg, hs, ops, i + 1, |ops|);
        FedFromBridgesPrefix(cfg, captures, hs[i + 1].fed, hs[|ops|].fed);
        NextChunkIsAligned(cfg, captures, hs[i].fed, c, c.source.value);
      }
    }
  }

  lemma RunLength(cfg: MergerConfig, hs: seq<History>, ops: seq<Op>)
    requires cfg.Valid() && IsRun(cfg, hs, ops)
    ensures |hs| == |ops| + 1
  {
  }

  /** Sample `x` of chunk `j`, summed over sources. */
  function StreamSum(sources: seq<SourceId>, fed: seq<Chunk>, j: nat, x: nat): int
    requires forall s :: s in sources ==> j < Count(fed, s)
  {
    if sources == [] then 0
    else
      var s := sources[|sources| - 1];
      assert j < Count(fed, s);
      StreamSum(sources[..|sources| - 1], fed, j, x) + Contribution(FromSource(fed, s)[j], x)
  }

  lemma {:induction false} WindowSumIsStreamSum(sources: seq<SourceId>, chunks: map<SourceId, Chunk>,
                                                fed: seq<Chunk>, j: nat, x: nat)
    requires forall s :: s in sources ==> j < Count(fed, s) && s in chunks && chunks[s] == FromSource(fed, s)[j]
    ensures ListSum(sources, chunks, x) == StreamSum(sources, fed, j, x)
  {
    hide FromSource, Contribution;
    if sources != [] {
      WindowSumIsStreamSum(sources[..|sources| - 1], chunks, fed, j, x);
    }
  }

  /**
   Over an aligned run within the skew bound, result number `j` is that of window `j`, is complete, and is,
   sample by sample, the average of the j-th chunks of all sources, rounded toward zero.
   */
  lemma AlignedMergeIsTheAverage(cfg: MergerConfig, hs: seq<History>, ops: seq<Op>, m: nat, j: nat, len: nat,
                                 r: MergeResult)
    requires cfg.Valid() && AlignedRun(cfg, hs, ops) && forall i :: 0 <= i < |hs| ==> WithinSkew(cfg, hs[i].fed)
    requires Distinct(cfg.expected) && 0 < |cfg.expected| <= 65536
    requires IsFewest(cfg, hs[|ops|].fed, m) && j < m
    requires forall s :: s in cfg.expected ==>
               j < Count(hs[|ops|].fed, s) && |FromSource(hs[|ops|].fed, s)[j].samples| == len
    requires j < |hs[|ops|].emitted| && Reports(cfg, hs[|ops|].emitted[j], r)
    ensures r.windowId == j && r.missing == [] && |r.chunk.samples| == len
    ensures forall x :: 0 <= x < len ==>
              r.chunk.samples[x] as int == TruncDiv(StreamSum(cfg.expected, hs[|ops|].fed, j, x), |cfg.expected|)
  {
    hide IsRun, AlignedOp, MergerConfig.Valid, WithinSkew, IsFewest, IsMergeOf, FromSource, ListSum, StreamSum,
         TruncDiv, Count, Distinct;
    RunLength(cfg, hs, ops);
    BarrierPairsChunks(cfg, hs, ops, |ops|, m);
    var w, fed := hs[|ops|].emitted[j].window, hs[|ops|].fed;
    WindowIsEven(cfg, w, fed, j, len);
    NothingMissing(cfg.expected, w.chunks);
    MergeIsTheAverage(cfg, w, len, r.chunk);
    forall x | 0 <= x < len
      ensures ListSum(cfg.expected, w.chunks, x) == StreamSum(cfg.expected, fed, j, x)
    {
      WindowSumIsStreamSum(cfg.expected, w.chunks, fed, j, x);
    }
  }

  /** Every source converts to this format, and its chunk `j` is a full one. */
  ghost predicate FullRow(cfg: MergerConfig, captures: map<SourceId, Captured>, rate: Rate, channels: u16, j: nat)
  {
    forall s :: s in cfg.expected ==>
      && s in captures && captures[s].conv.targetRate == rate && captures[s].conv.targetChannels == channels
      && j < |captures[s].chunks|
      && |captures[s].chunks[j].samples| == captures[s].frames * captures[s].conv.sourceChannels
  }

  /** The samples of a window's worth of audio. */
  function WindowLength(cfg: MergerConfig, rate: Rate, channels: u16): nat
  {
    AsMillis(cfg.windowDuration) * rate / 1000 * channels
  }

  /** Sample `x` of the converted j-th device chunk, silence where there is none; and the sum of these over sources. */
  function ConvertedAt(cap: Captured, j: nat, x: nat): int
  {
    if j < |cap.chunks| && x < |cap.conv.Converted(cap.chunks[j].samples)| then
      cap.conv.Converted(cap.chunks[j].samples)[x]
    else 0
  }

  function CapturedSum(sources: seq<SourceId>, captures: map<SourceId, Captured>, j: nat, x: nat): int
    requires forall s :: s in sources ==> s in captures
  {
    if sources == [] then 0
    else
      CapturedSum(sources[..|sources| - 1], captures, j, x) + ConvertedAt(captures[sources[|sources| - 1]], j, x)
  }

  /** What the merger was fed as a source's chunk `j`, and how long it is. */
  lemma FedChunk(cfg: MergerConfig, captures: map<SourceId, Captured>, rate: Rate, channels: u16, fed: seq<Chunk>,
                 j: nat, s: SourceId)
    requires FedFromBridges(cfg, captures, fed) && FullRow(cfg, captures, rate, channels, j)
    requires s in cfg.expected && j < Count(fed, s)
    ensures FromSource(fed, s)[j].samples == captures[s].conv.Converted(captures[s].chunks[j].samples)
    ensures |FromSource(fed, s)[j].samples| == WindowLength(cfg, rate, channels)
    ensures FromSource(fed, s)[j].sampleRate == rate && FromSource(fed, s)[j].channels == channels
  {
    hide FromSource, Bridged, FramesOut, FullBefore, AsMillis, FormatConverter.Converted;
    var cap := captures[s];
    BridgedAt(cap.conv, Some(s), cap.chunks, j);
    WholeFrames(cap.frames, cap.conv.sourceChannels);
    ConvertedLength(cap.conv, cap.chunks[j].samples);
    DivIsUnique(AsMillis(cfg.windowDuration) * rate, 1000, FramesOut(cap.conv, cap.frames));
  }

  lemma {:induction false} StreamSumIsCapturedSum(cfg: MergerConfig, captures: map<SourceId, Captured>, rate: Rate,
                                                  channels: u16, sources: seq<SourceId>, fed: seq<Chunk>, j: nat,
                                                  x: nat)
    requires FedFromBridges(cfg, captures, fed) && FullRow(cfg, captures, rate, channels, j)
    requires forall s :: s in sources ==> s in cfg.expected && j < Count(fed, s)
    ensures StreamSum(sources, fed, j, x) == CapturedSum(sources, captures, j, x)
  {
    hide FromSource, FedFromBridges, FormatConverter.Converted, WindowLength;
    assert forall s :: s in sources ==> s in captures;
    if sources != [] {
      var init, s := sources[..|sources| - 1], sources[|sources| - 1];
      assert sources == init + [s];
      StreamSumIsCapturedSum(cfg, captures, rate, channels, init, fed, j, x);
      FedChunk(cfg, captures, rate, channels, fed, j, s);
    }
  }

  /**
   From microphones to merged output. A merger fed by bridges cut to its window, while no window times out and within
   the skew bound: result `j` is complete, lasts the window, and each of its samples is the average, rounded toward
   zero, of that sample of the converted j-th device chunks of all sources.
   */
  lemma MergedChunkIsTheAverageOfStreams(cfg: MergerConfig, captures: map<SourceId, Captured>, rate: Rate,
                                         channels: u16, hs: seq<History>, ops: seq<Op>, m: nat, j: nat,
                                         r: MergeResult)
    requires cfg.Valid() && IsRun(cfg, hs, ops) && FedFromBridges(cfg, captures, hs[|ops|].fed)
    requires FullRow(cfg, captures, rate, channels, j)
    requires forall i :: 0 <= i < |ops| && ops[i].Feed? ==>
               ops[i].chunk.source.Some? && ops[i].chunk.source.value in cfg.expected
    requires forall i :: 0 <= i < |ops| && ops[i].Tick? ==> TimedOut(cfg, hs[i].pending, ops[i].now) == {}
    requires forall i :: 0 <= i < |hs| ==> WithinSkew(cfg, hs[i].fed)
    requires Distinct(cfg.expected) && 0 < |cfg.expected| <= 65536
    requires IsFewest(cfg, hs[|ops|].fed, m) && j < m
    requires j < |hs[|ops|].emitted| && Reports(cfg, hs[|ops|].emitted[j], r)
    ensures r.windowId == j && r.missing == [] && |r.chunk.samples| == WindowLength(cfg, rate, channels)
    ensures forall s :: s in cfg.expected ==>
              |captures[s].conv.Converted(captures[s].chunks[j].samples)| == |r.chunk.samples|
    ensures forall x :: 0 <= x < |r.chunk.samples| ==>
              r.chunk.samples[x] as int == TruncDiv(CapturedSum(cfg.expected, captures, j, x), |cfg.expected|)
  {
    hide FromSource, IsRun, WithinSkew, FedFromBridges, FormatConverter.Converted, WindowLength, Reports, TimedOut,
         MergerConfig.Valid, Distinct, CapturedSum, StreamSum, TruncDiv;
    RunLength(cfg, hs, ops);
    var fed, len := hs[|ops|].fed, WindowLength(cfg, rate, channels);
    BridgesFeedAligned(cfg, captures, hs, ops);
    forall s | s in cfg.expected
      ensures j < Count(fed, s) && |FromSource(fed, s)[j].samples| == len
      ensures |captures[s].conv.Converted(captures[s].chunks[j].samples)| == len
    {
      FedChunk(cfg, captures, rate, channels, fed, j, s);
    }
    AlignedMergeIsTheAverage(cfg, hs, ops, m, j, len, r);
    forall x | 0 <= x < len
      ensures StreamSum(cfg.expected, fed, j, x) == CapturedSum(cfg.expected, captures, j, x)
    {
      StreamSumIsCapturedSum(cfg, captures, rate, channels, cfg.expected, fed, j, x);
    }
  }

  // ---------- the merger, fed by the pipeline ----------

  /** What the bridges have read, `frames[s]` device frames to a full chunk. */
  ghost function CapturesOf(sources: seq<SourceId>, bridges: map<SourceId, CaptureBridge>, frames: map<SourceId, nat>):
    map<SourceId, Captured>
    requires forall s :: s in sources ==> s in bridges && s in frames
    reads bridges.Values, set s | s in bridges :: bridges[s].buffer
  {
    map s | s in sources :: Captured(bridges[s].converter, bridges[s].buffer.delivered, frames[s])
  }

  /** Each reader's chunks hold that many frames, which last a merge window once converted. */
  ghost predicate CutBridges(cfg: MergerConfig, sources: seq<SourceId>, bridges: map<SourceId, CaptureBridge>,
                             frames: map<SourceId, nat>)
    requires forall s :: s in sources ==> s in bridges
  {
    forall s :: s in sources ==>
      && s in frames && MonoOrStereo(bridges[s].converter)
      && bridges[s].buffer.chunkSize == frames[s] * bridges[s].converter.sourceChannels
      && FramesOut(bridges[s].converter, frames[s]) * 1000
         == AsMillis(cfg.windowDuration) * bridges[s].converter.targetRate
  }

  /** What the merger was fed is what the pipeline brought it: per source, the beginning of its bridge's output. */
  lemma FedFromPipeline(cfg: MergerConfig, sources: seq<SourceId>, bridges: map<SourceId, CaptureBridge>,
                        frames: map<SourceId, nat>, sinks: nat, states: seq<State>, steps: seq<Step>, n: nat)
    requires BridgesFor(sources, bridges) && cfg.expected == sources && CutBridges(cfg, sources, bridges, frames)
    requires Behavior(SetupOf(sources, bridges, sinks), states, steps) && n < |states|
    ensures FedFromBridges(cfg, CapturesOf(sources, bridges, frames), WithSource(states[n].consumed))
  {
    hide CaptureBridge.Valid, SetupOf, FromSource, WithSource, Bridged, Behavior, FramesOut, AsMillis, FullBefore;
    forall s | s in sources
      ensures var cap := CapturesOf(sources, bridges, frames)[s];
              CutToWindow(cfg, cap) &&
              FromSource(WithSource(states[n].consumed), s) <= Bridged(cap.conv, Some(s), cap.chunks)
    {
      StreamOf(sources, bridges, sinks, s);
      ConsumedIsPrefix(SetupOf(sources, bridges, sinks), states, steps, n, s);
      FromSourceOfSourced(states[n].consumed, s);
      BridgeIsFull(bridges[s], frames[s]);
    }
  }

  lemma BridgeIsFull(bridge: CaptureBridge, frames: nat)
    requires bridge.Valid() && bridge.buffer.chunkSize == frames * bridge.converter.sourceChannels
    ensures bridge.produced == Bridged(bridge.converter, bridge.sourceId, bridge.buffer.delivered)
    ensures bridge.buffer.delivered != [] ==>
              FullBefore(bridge.converter, bridge.buffer.delivered, frames, |bridge.buffer.delivered| - 1)
  {
    hide Bridged, TotalLength, Stamped, SamplesOf;
  }

  /** Everything the merger was ever fed is of an expected source. */
  lemma {:induction false} FeedsAreExpected(cfg: MergerConfig, hs: seq<History>, ops: seq<Op>, consumed: seq<Chunk>)
    requires cfg.Valid() && IsRun(cfg, hs, ops) && OnlySourced(ops)
    requires hs[|ops|].fed == WithSource(consumed) && OnlyFrom(consumed, cfg.expected)
    ensures forall i :: 0 <= i < |ops| && ops[i].Feed? ==>
              ops[i].chunk.source.Some? && ops[i].chunk.source.value in cfg.expected
  {
    hide IsRun, WithSource;
    RunLength(cfg, hs, ops);
    SourcedIsFrom(consumed, cfg.expected);
    forall i | 0 <= i < |ops| && ops[i].Feed?
      ensures ops[i].chunk.source.Some? && ops[i].chunk.source.value in cfg.expected
    {
      FeedGrowsByOne(cfg, hs, ops, i);
      FedGrows(cfg, hs, ops, i + 1, |ops|);
      var k := |hs[i].fed|;
      assert hs[i + 1].fed[k] == ops[i].chunk;
      assert hs[|ops|].fed[k] == ops[i].chunk;
    }
  }

  lemma {:induction false} SourcedIsFrom(chunks: seq<Chunk>, sources: seq<SourceId>)
    requires OnlyFrom(chunks, sources)
    ensures OnlyFrom(WithSource(chunks), sources)
  {
    if chunks != [] {
      SourcedIsFrom(chunks[..|chunks| - 1], sources);
    }
  }

  /**
   From microphones to a merged sink, on the objects of the code. The router has consumed what a run of the step
   system brought it from these bridges, whose converted chunks last a merge window; no window timed out, and no source
   ran ahead by more than `max_pending` chunks. Then call `j` to a reliable merged sink holds, sample by sample, the
   average of the converted j-th device chunks of all sources, rounded toward zero, whenever these are full ones.
   */
  lemma MergedSinkGetsTheAverage(sources: seq<SourceId>, bridges: map<SourceId, CaptureBridge>,
                                 frames: map<SourceId, nat>, states: seq<State>, steps: seq<Step>, n: nat,
                                 router: Router, k: nat, rate: Rate, channels: u16, j: nat)
    requires BridgesFor(sources, bridges) && |sources| <= 65536
    requires router.Valid() && router.merger != null && router.merger.cfg.expected == sources
    requires CutBridges(router.merger.cfg, sources, bridges, frames)
    requires Behavior(SetupOf(sources, bridges, |router.cfg.routes|), states, steps) && n < |states|
    requires router.consumed == states[n].consumed
    requires NoneTimedOutSoFar(router) && AlwaysWithinSkew(router)
    requires k < |router.cfg.routes| && router.cfg.routes[k].Merged? && Reliable(router.cfg, k)
    requires k < |router.calls| && j < |router.calls[k]|
    requires FullRow(router.merger.cfg, CapturesOf(sources, bridges, frames), rate, channels, j)
    ensures var captures := CapturesOf(sources, bridges, frames);
            IsAverageOfRow(sources, captures, router.calls[k][j], j, WindowLength(router.merger.cfg, rate, channels))
    ensures router.merger.cfg.Valid() && StartsWindow(router.merger.cfg, router.calls[k][j], j, rate, channels)
  {
    hide CaptureBridge.Valid, Router.Valid, SetupOf, Behavior, FramesOut, AsMillis, MonoOrStereo, Reliable, FullRow,
         FedFromBridges, IsAverageOfRow, StartsWindow, WindowLength, WithSource, IsRun, ReportsAll, TimedOut,
         WithinSkew, Delivered, NoneTimedOutSoFar, AlwaysWithinSkew, OnlyFrom, OnlySourced, MergerConfig.Valid;
    var mcfg, captures := router.merger.cfg, CapturesOf(sources, bridges, frames);
    RouterRunIs(router);
    KnownSources(sources, bridges, |router.cfg.routes|, states, steps, n);
    FeedsAreExpected(mcfg, router.hs, router.ops, router.consumed);
    FedFromPipeline(mcfg, sources, bridges, frames, |router.cfg.routes|, states, steps, n);
    SoFarIs(router);
    MergedCalls(router, k);
    MergedRow(mcfg, captures, rate, channels, router.hs, router.ops, router.results, j);
  }

  lemma SoFarIs(router: Router)
    requires router.Valid() && router.merger != null && NoneTimedOutSoFar(router) && AlwaysWithinSkew(router)
    requires |router.hs| == |router.ops| + 1
    ensures forall i :: 0 <= i < |router.ops| && router.ops[i].Tick? ==>
              TimedOut(router.merger.cfg, router.hs[i].pending, router.ops[i].now) == {}
    ensures forall i :: 0 <= i < |router.hs| ==> WithinSkew(router.merger.cfg, router.hs[i].fed)
  {
    hide Router.Valid, TimedOut, WithinSkew;
  }

  lemma KnownSources(sources: seq<SourceId>, bridges: map<SourceId, CaptureBridge>, sinks: nat, states: seq<State>,
                     steps: seq<Step>, n: nat)
    requires BridgesFor(sources, bridges) && Behavior(SetupOf(sources, bridges, sinks), states, steps) && n < |states|
    ensures OnlyFrom(states[n].consumed, sources) && sources != [] && Distinct(sources)
  {
    hide CaptureBridge.Valid, Enabled, After, Init;
    BehaviorKeepsKnown(SetupOf(sources, bridges, sinks), states, steps, n);
  }

  lemma MergedCalls(router: Router, k: nat)
    requires router.Valid() && router.merger != null && |router.hs| == |router.ops| + 1
    requires k < |router.cfg.routes| && router.cfg.routes[k].Merged? && Reliable(router.cfg, k)
    ensures k < |router.calls| && |router.calls[k]| == |router.results| == |router.hs[|router.ops|].emitted|
    ensures forall j :: 0 <= j < |router.results| ==> router.calls[k][j] == router.results[j].chunk
  {
    hide IsRun, IsTable, Reports, IncompleteOf, WithSource, CallsFor, PendingOk;
    ReliableSinkGetsEachOnce(router.cfg.outcome, k, router.cfg.retryAttempts, ChunksOf(router.results));
  }

  /** One result of a merger fed by the bridges. */
  lemma MergedRow(cfg: MergerConfig, captures: map<SourceId, Captured>, rate: Rate, channels: u16, hs: seq<History>,
                  ops: seq<Op>, results: seq<MergeResult>, j: nat)
    requires cfg.Valid() && IsRun(cfg, hs, ops) && |hs| == |ops| + 1 && FedFromBridges(cfg, captures, hs[|ops|].fed)
    requires FullRow(cfg, captures, rate, channels, j)
    requires forall i :: 0 <= i < |ops| && ops[i].Feed? ==>
               ops[i].chunk.source.Some? && ops[i].chunk.source.value in cfg.expected
    requires forall i :: 0 <= i < |ops| && ops[i].Tick? ==> TimedOut(cfg, hs[i].pending, ops[i].now) == {}
    requires forall i :: 0 <= i < |hs| ==> WithinSkew(cfg, hs[i].fed)
    requires cfg.expected != [] && Distinct(cfg.expected) && |cfg.expected| <= 65536
    requires ReportsAll(cfg, hs[|ops|].emitted, results) && j < |results|
    ensures forall s :: s in cfg.expected ==> s in captures
    ensures IsAverageOfRow(cfg.expected, captures, results[j].chunk, j, WindowLength(cfg, rate, channels))
    ensures StartsWindow(cfg, results[j].chunk, j, rate, channels)
  {
    hide FromSource, IsRun, WithinSkew, FedFromBridges, FormatConverter.Converted, WindowLength, Reports, TimedOut,
         MergerConfig.Valid, Distinct, CapturedSum, TruncDiv, AlignedRun, InStep, IsFewest;
    BridgesFeedAligned(cfg, captures, hs, ops);
    var m := RunStaysInStep(cfg, hs, ops, |ops|);
    InStepIsFewest(cfg, hs[|ops|], m);
    BarrierPairsChunks(cfg, hs, ops, |ops|, m);
    MergedChunkIsTheAverageOfStreams(cfg, captures, rate, channels, hs, ops, m, j, results[j]);
    var w, fed := hs[|ops|].emitted[j].window, hs[|ops|].fed;
    forall s | s in w.chunks
      ensures w.chunks[s].sampleRate == rate && w.chunks[s].channels == channels
    {
      FedChunk(cfg, captures, rate, channels, fed, j, s);
    }
    EmittedWindowsHoldTheirOwn(cfg, hs, ops, |ops|);
    assert hs[|ops|].emitted[j] in hs[|ops|].emitted;
    ResultStartsWindow(cfg, hs[|ops|].emitted[j], results[j], rate, channels);
  }

  /** The chunk is in this format, starts with window `j`, and is of no single source. */
  ghost predicate StartsWindow(cfg: MergerConfig, c: Chunk, j: nat, rate: u32, channels: u16)
    requires cfg.Valid()
  {
    c.sampleRate == rate && c.channels == channels && c.source == None &&
    AsMillis(c.timestamp) == j * AsMillis(cfg.windowDuration)
  }

  lemma ResultStartsWindow(cfg: MergerConfig, e: Emission, r: MergeResult, rate: u32, channels: u16)
    requires cfg.Valid() && Reports(cfg, e, r) && e.window.chunks != map[] && Belongs(cfg, e.id, e.window)
    requires forall s :: s in e.window.chunks ==>
               e.window.chunks[s].sampleRate == rate && e.window.chunks[s].channels == channels
    ensures StartsWindow(cfg, r.chunk, e.id, rate, channels)
  {
    hide AsMillis, FromMillis, IsMergeOf, Missing;
    MergeKeepsFormat(cfg, e.window, rate, channels, r.chunk);
    MillisOfMillis(e.id * AsMillis(cfg.windowDuration));
  }

  lemma MillisOfMillis(ms: nat)
    ensures AsMillis(FromMillis(ms)) == ms
  {
  }

  /** No timeout check so far found a window timed out, and no source has been too far ahead. */
  ghost predicate NoneTimedOutSoFar(router: Router)
    requires router.Valid() && router.merger != null
    reads router, router.merger
  {
    forall i :: 0 <= i < |router.ops| && router.ops[i].Tick? ==>
      TimedOut(router.merger.cfg, router.hs[i].pending, router.ops[i].now) == {}
  }

  ghost predicate AlwaysWithinSkew(router: Router)
    requires router.Valid() && router.merger != null
    reads router, router.merger
  {
    forall i :: 0 <= i < |router.hs| ==> WithinSkew(router.merger.cfg, router.hs[i].fed)
  }

  /** The chunk holds, for a row of `len` samples, the average of each sample over all sources, rounded toward zero. */
  ghost predicate IsAverageOfRow(sources: seq<SourceId>, captures: map<SourceId, Captured>, c: Chunk, j: nat, len: nat)
    requires sources != [] && forall s :: s in sources ==> s in captures
  {
    && |c.samples| == len
    && (forall s :: s in sources ==>
          j < |captures[s].chunks| && |captures[s].conv.Converted(captures[s].chunks[j].samples)| == len)
    && forall x :: 0 <= x < len ==>
         c.samples[x] as int == TruncDiv(CapturedSum(sources, captures, j, x), |sources|)
  }

  lemma WindowIsEven(cfg: MergerConfig, w: Window, fed: seq<Chunk>, j: nat, len: nat)
    requires cfg.expected != [] && cfg.IsComplete(w)
    requires forall s :: s in w.chunks ==>
               s in cfg.expected && j < Count(fed, s) && w.chunks[s] == FromSource(fed, s)[j]
    requires forall s :: s in cfg.expected ==> j < Count(fed, s) && |FromSource(fed, s)[j].samples| == len
    ensures EvenWindow(w, len) && w.chunks.Keys <= SetOf(cfg.expected)
  {
    hide FromSource;
    assert cfg.expected[0] in w.chunks;
  }

  lemma {:induction false} NothingMissing(sources: seq<SourceId>, chunks: map<SourceId, Chunk>)
    requires forall s :: s in sources ==> s in chunks
    ensures Missing(sources, chunks) == []
  {
    if sources != [] {
      NothingMissing(sources[..|sources| - 1], chunks);
    }
  }
}
