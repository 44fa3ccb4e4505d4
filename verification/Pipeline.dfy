/**
 The pipeline as a step system: the capture bridges (src/pipeline/capture.rs), the bounded channel
 (src/builder.rs), the router (src/pipeline/router.rs) and the session that shuts them down
 (src/session.rs), interleaved in every way the scheduler allows.
 */
module Pipeline {

  import opened Audio

  /** `CHUNK_CHANNEL_CAPACITY`. */
  const CHANNEL_CAPACITY: nat := 100

  /**
   The sources, the chunks each one's bridge will make of its audio, the chunk size of its reader, and the
   number of sinks.
   */
  datatype Setup = Setup(sources: seq<SourceId>, streams: map<SourceId, seq<Chunk>>, chunkSizes: map<SourceId, nat>,
                         sinks: nat) {
    /** What the builder accepts, and that a reader whose chunks hold nothing never makes one. */
    ghost predicate Valid()
    {
      && sources != [] && 0 < sinks
      && (forall i, j :: 0 <= i < j < |sources| ==> sources[i] != sources[j])
      && (forall s :: s in sources ==> s in streams && s in chunkSizes)
      && (forall s, i :: s in sources && 0 <= i < |streams[s]| ==> streams[s][i].source == Some(s))
      && (forall s :: s in sources && chunkSizes[s] == 0 ==> streams[s] == [])
    }

    predicate Spins(s: SourceId)
    {
      s in chunkSizes && chunkSizes[s] == 0
    }
  }

  datatype BridgePhase = Capturing | Draining | Finished

  /** A bridge: how many chunks it has made, and the one it is blocked sending. */
  datatype Bridge = Bridge(made: nat, sending: Option<Chunk>, phase: BridgePhase)

  datatype RouterPhase = Serving | Emptying | StoppingSinks(stopped: nat) | Exited

  datatype State = State(
    bridges: map<SourceId, Bridge>,
    channel: seq<Chunk>,
    consumed: seq<Chunk>,
    router: RouterPhase,
    running: bool,      // the session's flag
    stopSent: bool      // the stop command is in the command channel, or was
  )

  datatype Step =
    | Make(s: SourceId)        // a bridge reads and converts its next chunk
    | Send(s: SourceId)        // the channel has room
    | SendFails(s: SourceId)   // the receiver is gone
    | BeginDrain(s: SourceId)  // a bridge sees that the session stopped
    | Finish(s: SourceId)      // a bridge has drained its buffer
    | Spin(s: SourceId)        // or goes round in its drain loop, the chunk size being zero
    | ClearRunning             // stop_internal swaps the flag
    | SendStop                 // and then sends the command
    | Receive                  // select!: a chunk
    | TakeStop                 // select!: the command
    | DrainOne                 // try_recv yields a chunk
    | DrainDone                // try_recv finds the channel empty
    | StopSink                 // on_stop of the next sink
    | Exit                     // run returns and drops the receiver

  ghost predicate Init(cfg: Setup, st: State)
  {
    && (forall s :: s in st.bridges <==> s in cfg.sources)
    && (forall s :: s in st.bridges ==> st.bridges[s] == Bridge(0, None, Capturing))
    && st.channel == [] && st.consumed == [] && st.router == Serving && st.running && !st.stopSent
  }

  predicate Enabled(cfg: Setup, st: State, step: Step)
  {
    match step
    case Make(s) =>
      s in st.bridges && s in cfg.streams && st.bridges[s].phase != Finished && st.bridges[s].sending.None? &&
      st.bridges[s].made < |cfg.streams[s]|
    case Send(s) =>
      s in st.bridges && st.bridges[s].sending.Some? && st.router != Exited && |st.channel| < CHANNEL_CAPACITY
    case SendFails(s) => s in st.bridges && st.bridges[s].sending.Some? && st.router == Exited
    case BeginDrain(s) =>
      s in st.bridges && st.bridges[s].phase == Capturing && st.bridges[s].sending.None? && !st.running
    case Finish(s) =>
      s in st.bridges && s in cfg.streams && st.bridges[s].phase == Draining && st.bridges[s].sending.None? &&
      st.bridges[s].made == |cfg.streams[s]| && !cfg.Spins(s)
    case Spin(s) => s in st.bridges && st.bridges[s].phase == Draining && cfg.Spins(s)
    case ClearRunning => st.running
    case SendStop => !st.running && !st.stopSent
    case Receive => st.router == Serving && st.channel != []
    case TakeStop => st.router == Serving && st.stopSent
    case DrainOne => st.router == Emptying && st.channel != []
    case DrainDone => st.router == Emptying && st.channel == []
    case StopSink => st.router.StoppingSinks? && st.router.stopped < cfg.sinks
    case Exit => st.router == StoppingSinks(cfg.sinks)
  }

  /** A failed send ends a bridge that is still capturing; a draining bridge drops the chunk and goes on. */
  function After(cfg: Setup, st: State, step: Step): State
    requires Enabled(cfg, st, step)
  {
    match step
    case Make(s) =>
      var b := st.bridges[s];
      st.(bridges := st.bridges[s := b.(made := b.made + 1, sending := Some(cfg.streams[s][b.made]))])
    case Send(s) =>
      var b := st.bridges[s];
      st.(bridges := st.bridges[s := b.(sending := None)], channel := st.channel + [b.sending.value])
    case SendFails(s) =>
      var b := st.bridges[s];
      st.(bridges := st.bridges[s := b.(sending := None, phase := if b.phase == Capturing then Finished else b.phase)])
    case BeginDrain(s) => st.(bridges := st.bridges[s := st.bridges[s].(phase := Draining)])
    case Finish(s) => st.(bridges := st.bridges[s := st.bridges[s].(phase := Finished)])
    case Spin(_) => st
    case ClearRunning => st.(running := false)
    case SendStop => st.(stopSent := true)
    case Receive => st.(channel := st.channel[1..], consumed := st.consumed + [st.channel[0]])
    case TakeStop => st.(router := Emptying)
    case DrainOne => st.(channel := st.channel[1..], consumed := st.consumed + [st.channel[0]])
    case DrainDone => st.(router := StoppingSinks(0))
    case StopSink => st.(router := StoppingSinks(st.router.stopped + 1))
    case Exit => st.(router := Exited)
  }

  ghost predicate Path(cfg: Setup, states: seq<State>, steps: seq<Step>)
  {
    |states| == |steps| + 1 &&
    forall i :: 0 <= i < |steps| ==>
      Enabled(cfg, states[i], steps[i]) && states[i + 1] == After(cfg, states[i], steps[i])
  }

  ghost predicate Behavior(cfg: Setup, states: seq<State>, steps: seq<Step>)
  {
    cfg.Valid() && Path(cfg, states, steps) && Init(cfg, states[0])
  }

  // ---------- conservation ----------

  function Held(b: Bridge): seq<Chunk>
  {
    match b.sending
    case Some(c) => [c]
    case None => []
  }

  /** Until the router exits, consumed, queued and held chunks of a source are its stream so far, in order. */
  ghost predicate Conserves(cfg: Setup, st: State, s: SourceId)
    requires s in cfg.streams && s in st.bridges
  {
    var b := st.bridges[s];
    && b.made <= |cfg.streams[s]|
    && (b.sending.Some? ==> 0 < b.made && b.sending.value == cfg.streams[s][b.made - 1])
    && if st.router != Exited
       then FromSource(st.consumed, s) + FromSource(st.channel, s) + Held(b) == cfg.streams[s][..b.made]
       else FromSource(st.consumed, s) + FromSource(st.channel, s) <= cfg.streams[s][..b.made]
  }

  ghost predicate Inv(cfg: Setup, st: State)
  {
    && (forall s :: s in st.bridges <==> s in cfg.sources)
    && (forall s :: s in cfg.sources ==> s in cfg.streams && s in st.bridges && Conserves(cfg, st, s))
    && PhasesOk(cfg, st)
  }

  ghost predicate PhasesOk(cfg: Setup, st: State)
    requires forall s :: s in st.bridges ==> s in cfg.streams
  {
    && |st.channel| <= CHANNEL_CAPACITY
    && (st.router != Serving ==> st.stopSent)
    && (st.stopSent ==> !st.running)
    && (st.router.StoppingSinks? ==> st.router.stopped <= cfg.sinks)
    && (forall s :: s in st.bridges && st.bridges[s].phase != Capturing ==> !st.running)
    && (forall s :: s in st.bridges && st.bridges[s].phase == Finished ==>
          st.bridges[s].sending.None? && (st.router == Exited || st.bridges[s].made == |cfg.streams[s]|))
  }

  lemma {:induction false} FromSourceConcat(a: seq<Chunk>, b: seq<Chunk>, s: SourceId)
    ensures FromSource(a + b, s) == FromSource(a, s) + FromSource(b, s)
  {
    if b == [] {
      assert a + b == a;
    } else {
      var init := b[..|b| - 1];
      FromSourceConcat(a, init, s);
      assert (a + b)[..|a + b| - 1] == a + init;
    }
  }

  /** Moving the head of the channel to the consumed chunks changes no source's sequence. */
  lemma MoveHead(consumed: seq<Chunk>, channel: seq<Chunk>, s: SourceId)
    requires channel != []
    ensures FromSource(consumed + [channel[0]], s) + FromSource(channel[1..], s)
         == FromSource(consumed, s) + FromSource(channel, s)
  {
    hide FromSource;
    FromSourceConcat(consumed, [channel[0]], s);
    FromSourceConcat([channel[0]], channel[1..], s);
    assert [channel[0]] + channel[1..] == channel;
  }

  lemma MakeConserves(cfg: Setup, st: State, t: SourceId, s: SourceId)
    requires s in cfg.streams && s in st.bridges && Conserves(cfg, st, s) && Enabled(cfg, st, Make(t))
    ensures Conserves(cfg, After(cfg, st, Make(t)), s)
  {
    hide FromSource;
    if t == s {
      OneMoreMade(cfg.streams[s], st.bridges[s].made);
    }
  }

  lemma OneMoreMade(stream: seq<Chunk>, n: nat)
    requires n < |stream|
    ensures stream[..n + 1] == stream[..n] + [stream[n]]
    ensures stream[..n] <= stream[..n + 1]
  {
  }

  lemma SendConserves(cfg: Setup, st: State, t: SourceId, s: SourceId)
    requires s in cfg.streams && s in st.bridges && Conserves(cfg, st, s)
    requires t in cfg.streams && t in st.bridges && Conserves(cfg, st, t) && Enabled(cfg, st, Send(t))
    requires forall i :: 0 <= i < |cfg.streams[t]| ==> cfg.streams[t][i].source == Some(t)
    ensures Conserves(cfg, After(cfg, st, Send(t)), s)
  {
    hide FromSource;
    var c := st.bridges[t].sending.value;
    FromSourceAppend(st.channel, c, s);
    assert c.source == Some(t);
  }

  lemma ReceiveConserves(cfg: Setup, st: State, st': State, s: SourceId)
    requires s in cfg.streams && s in st.bridges && Conserves(cfg, st, s) && st.channel != []
    requires st' == st.(channel := st.channel[1..], consumed := st.consumed + [st.channel[0]])
    ensures Conserves(cfg, st', s)
  {
    hide FromSource;
    MoveHead(st.consumed, st.channel, s);
  }

  /** The steps of a bridge that move no chunk to the channel, and those of the session and the router. */
  lemma OtherConserves(cfg: Setup, st: State, step: Step, s: SourceId)
    requires s in cfg.streams && s in st.bridges && Conserves(cfg, st, s) && Enabled(cfg, st, step)
    requires !step.Make? && !step.Send? && !step.Receive? && !step.DrainOne?
    ensures s in After(cfg, st, step).bridges && Conserves(cfg, After(cfg, st, step), s)
  {
    hide FromSource;
    if step.Exit? {
      assert st.router != Exited;
    }
  }

  lemma StepConserves(cfg: Setup, st: State, step: Step, s: SourceId)
    requires cfg.Valid() && Inv(cfg, st) && Enabled(cfg, st, step) && s in cfg.sources
    ensures s in After(cfg, st, step).bridges && Conserves(cfg, After(cfg, st, step), s)
  {
    hide FromSource, Conserves;
    match step
    case Make(t) => MakeConserves(cfg, st, t, s);
    case Send(t) => SendConserves(cfg, st, t, s);
    case Receive => ReceiveConserves(cfg, st, After(cfg, st, step), s);
    case DrainOne => ReceiveConserves(cfg, st, After(cfg, st, step), s);
    case _ => OtherConserves(cfg, st, step, s);
  }

  /** The part of the invariant about phases and flags. */
  lemma StepKeepsPhases(cfg: Setup, st: State, step: Step)
    requires Inv(cfg, st) && Enabled(cfg, st, step)
    ensures var st' := After(cfg, st, step);
            && (forall s :: s in st'.bridges <==> s in cfg.sources)
            && PhasesOk(cfg, st')
  {
    hide Conserves, Enabled, After;
    match step
    case Make(s) => BridgeKeepsPhases(cfg, st, step, s);
    case Send(s) => BridgeKeepsPhases(cfg, st, step, s);
    case SendFails(s) => BridgeKeepsPhases(cfg, st, step, s);
    case BeginDrain(s) => BridgeKeepsPhases(cfg, st, step, s);
    case Finish(s) => BridgeKeepsPhases(cfg, st, step, s);
    case Spin(s) => BridgeKeepsPhases(cfg, st, step, s);
    case _ => RouterKeepsPhases(cfg, st, step);
  }

  lemma BridgeKeepsPhases(cfg: Setup, st: State, step: Step, s: SourceId)
    requires Inv(cfg, st) && Enabled(cfg, st, step)
    requires step in {Make(s), Send(s), SendFails(s), BeginDrain(s), Finish(s), Spin(s)}
    ensures var st' := After(cfg, st, step);
            && (forall t :: t in st'.bridges <==> t in cfg.sources)
            && PhasesOk(cfg, st')
  {
    hide Conserves;
  }

  lemma RouterKeepsPhases(cfg: Setup, st: State, step: Step)
    requires Inv(cfg, st) && Enabled(cfg, st, step)
    requires !step.Make? && !step.Send? && !step.SendFails? && !step.BeginDrain? && !step.Finish? && !step.Spin?
    ensures var st' := After(cfg, st, step);
            && (forall t :: t in st'.bridges <==> t in cfg.sources)
            && PhasesOk(cfg, st')
  {
    hide Conserves;
  }

  lemma StepKeepsInv(cfg: Setup, st: State, step: Step)
    requires cfg.Valid() && Inv(cfg, st) && Enabled(cfg, st, step)
    ensures Inv(cfg, After(cfg, st, step))
  {
    hide Conserves, Enabled, After, PhasesOk;
    StepKeepsPhases(cfg, st, step);
    forall s | s in cfg.sources
      ensures s in After(cfg, st, step).bridges && Conserves(cfg, After(cfg, st, step), s)
    {
      StepConserves(cfg, st, step, s);
    }
  }

  lemma MadeAtMost(cfg: Setup, st: State)
    requires Inv(cfg, st)
    ensures forall s :: s in st.bridges ==> st.bridges[s].made <= |cfg.streams[s]|
  {
    hide FromSource;
  }

  /**
   Pipeline conservation, in every state of every behavior: until the router exits, nothing a bridge
   made is lost, duplicated or reordered on its way to the router; afterwards what was consumed is still
   a prefix of each source's stream. The channel never holds more than its capacity.
   */
  lemma {:induction false} BehaviorKeepsInv(cfg: Setup, states: seq<State>, steps: seq<Step>, i: nat)
    requires Behavior(cfg, states, steps) && i < |states|
    ensures Inv(cfg, states[i])
  {
    hide Enabled, After, Inv, Init;
    if i == 0 {
      InitInv(cfg, states[0]);
    } else {
      BehaviorKeepsInv(cfg, states, steps, i - 1);
      StepKeepsInv(cfg, states[i - 1], steps[i - 1]);
    }
  }

  lemma InitInv(cfg: Setup, st: State)
    requires cfg.Valid() && Init(cfg, st)
    ensures Inv(cfg, st)
  {
    forall s | s in cfg.sources
      ensures Conserves(cfg, st, s)
    {
      assert cfg.streams[s][..0] == [];
    }
  }

  /** All chunks of the list are of these sources. */
  ghost predicate OnlyFrom(chunks: seq<Chunk>, sources: seq<SourceId>)
  {
    forall i :: 0 <= i < |chunks| ==> chunks[i].source.Some? && chunks[i].source.value in sources
  }

  ghost predicate OnlyKnown(cfg: Setup, st: State)
  {
    OnlyFrom(st.consumed, cfg.sources) && OnlyFrom(st.channel, cfg.sources)
  }

  lemma StepKeepsKnown(cfg: Setup, st: State, step: Step)
    requires cfg.Valid() && Inv(cfg, st) && OnlyKnown(cfg, st) && Enabled(cfg, st, step)
    ensures OnlyKnown(cfg, After(cfg, st, step))
  {
    hide Conserves, PhasesOk, OnlyFrom;
    match step
    case Send(s) =>
      HeldIsKnown(cfg, st, s);
      OneMoreKnown(st.channel, st.bridges[s].sending.value, cfg.sources);
    case Receive => HeadIsKnown(st.consumed, st.channel, cfg.sources);
    case DrainOne => HeadIsKnown(st.consumed, st.channel, cfg.sources);
    case _ =>
  }

  lemma HeldIsKnown(cfg: Setup, st: State, s: SourceId)
    requires cfg.Valid() && Inv(cfg, st) && s in st.bridges && st.bridges[s].sending.Some?
    ensures st.bridges[s].sending.value.source == Some(s) && s in cfg.sources
  {
    hide FromSource, PhasesOk;
    assert Conserves(cfg, st, s);
  }

  lemma OneMoreKnown(chunks: seq<Chunk>, c: Chunk, sources: seq<SourceId>)
    requires OnlyFrom(chunks, sources) && c.source.Some? && c.source.value in sources
    ensures OnlyFrom(chunks + [c], sources)
  {
  }

  lemma HeadIsKnown(consumed: seq<Chunk>, channel: seq<Chunk>, sources: seq<SourceId>)
    requires OnlyFrom(consumed, sources) && OnlyFrom(channel, sources) && channel != []
    ensures OnlyFrom(consumed + [channel[0]], sources) && OnlyFrom(channel[1..], sources)
  {
  }

  /** Nothing but the sources' chunks ever gets into the channel or out of it. */
  lemma {:induction false} BehaviorKeepsKnown(cfg: Setup, states: seq<State>, steps: seq<Step>, i: nat)
    requires Behavior(cfg, states, steps) && i < |states|
    ensures OnlyKnown(cfg, states[i])
  {
    hide Enabled, After, Inv, Init, OnlyKnown;
    if i == 0 {
      NothingUnknown(cfg, states[0]);
    } else {
      BehaviorKeepsInv(cfg, states, steps, i - 1);
      BehaviorKeepsKnown(cfg, states, steps, i - 1);
      StepKeepsKnown(cfg, states[i - 1], steps[i - 1]);
    }
  }

  lemma NothingUnknown(cfg: Setup, st: State)
    requires Init(cfg, st)
    ensures OnlyKnown(cfg, st)
  {
  }

  /** What the router has consumed of a source is the beginning of what its bridge makes. */
  lemma ConsumedIsPrefix(cfg: Setup, states: seq<State>, steps: seq<Step>, i: nat, s: SourceId)
    requires Behavior(cfg, states, steps) && i < |states| && s in cfg.sources
    ensures s in cfg.streams && FromSource(states[i].consumed, s) <= cfg.streams[s]
  {
    hide FromSource, Enabled, After, Init, PhasesOk, Conserves;
    BehaviorKeepsInv(cfg, states, steps, i);
    ConservedPrefix(cfg, states[i], s);
  }

  lemma ConservedPrefix(cfg: Setup, st: State, s: SourceId)
    requires s in cfg.streams && s in st.bridges && Conserves(cfg, st, s)
    ensures FromSource(st.consumed, s) <= cfg.streams[s]
  {
    hide FromSource;
    var a, b, stream := FromSource(st.consumed, s), FromSource(st.channel, s), cfg.streams[s];
    if st.router != Exited {
      FirstPartIsPrefix(a, b, Held(st.bridges[s]), stream, st.bridges[s].made);
    } else {
      assert a <= a + b <= stream[..st.bridges[s].made] <= stream;
    }
  }

  lemma FirstPartIsPrefix<T>(a: seq<T>, b: seq<T>, c: seq<T>, stream: seq<T>, n: nat)
    requires n <= |stream| && a + b + c == stream[..n]
    ensures a <= stream
  {
    assert a <= a + b <= a + b + c <= stream;
  }

  lemma {:induction false} ConsumedGrows(cfg: Setup, states: seq<State>, steps: seq<Step>, i: nat, j: nat)
    requires Path(cfg, states, steps) && i <= j < |states|
    ensures states[i].consumed <= states[j].consumed
  {
    hide Enabled, After;
    if i < j {
      ConsumedGrows(cfg, states, steps, i, j - 1);
      StepConsumes(cfg, states[j - 1], steps[j - 1]);
    }
  }

  lemma StepConsumes(cfg: Setup, st: State, step: Step)
    requires Enabled(cfg, st, step)
    ensures st.consumed <= After(cfg, st, step).consumed
  {
  }

  // ---------- shutdown ----------

  predicate RouterDone(st: State)
  {
    st.router.StoppingSinks? || st.router == Exited
  }

  /** Once the drain has found the channel empty, nothing more is consumed. */
  lemma {:induction false} ConsumedIsFrozen(cfg: Setup, states: seq<State>, steps: seq<Step>, i: nat, j: nat)
    requires Behavior(cfg, states, steps) && i <= j < |states| && RouterDone(states[i])
    ensures RouterDone(states[j]) && states[j].consumed == states[i].consumed
  {
    hide Enabled, After, Init, RouterDone;
    if i < j {
      ConsumedIsFrozen(cfg, states, steps, i, j - 1);
      StepAfterDone(cfg, states[j - 1], steps[j - 1]);
    }
  }

  lemma StepAfterDone(cfg: Setup, st: State, step: Step)
    requires Enabled(cfg, st, step) && RouterDone(st)
    ensures RouterDone(After(cfg, st, step)) && After(cfg, st, step).consumed == st.consumed
  {
  }

  /** The router leaves its loop only on the stop command, which is sent only after the flag is cleared. */
  lemma RouterLeavesOnlyOnStop(cfg: Setup, states: seq<State>, steps: seq<Step>, i: nat)
    requires Behavior(cfg, states, steps) && i < |states| && states[i].router != Serving
    ensures states[i].stopSent && !states[i].running
  {
    BehaviorKeepsInv(cfg, states, steps, i);
  }

  /** What one run delivers: all of a source exactly when its bridge had sent everything when the drain ended. */
  lemma DrainedToSinksIff(cfg: Setup, states: seq<State>, steps: seq<Step>, i: nat, j: nat, s: SourceId)
    requires Behavior(cfg, states, steps) && i < j < |states| && s in cfg.sources
    requires steps[i] == DrainDone
    ensures s in states[i].bridges && s in cfg.streams
    ensures FromSource(states[j].consumed, s) == cfg.streams[s] <==>
            states[i].bridges[s].made == |cfg.streams[s]| && states[i].bridges[s].sending.None?
  {
    hide FromSource, Enabled, After, Init, Conserves, PhasesOk, RouterDone;
    BehaviorKeepsInv(cfg, states, steps, i);
    DrainDoneIs(cfg, states[i]);
    ConsumedIsFrozen(cfg, states, steps, i + 1, j);
    DrainedSource(cfg, states[i], s);
  }

  lemma DrainDoneIs(cfg: Setup, st: State)
    requires Enabled(cfg, st, DrainDone)
    ensures st.router == Emptying && st.channel == []
    ensures RouterDone(After(cfg, st, DrainDone)) && After(cfg, st, DrainDone).consumed == st.consumed
  {
  }

  lemma DrainedSource(cfg: Setup, st: State, s: SourceId)
    requires Inv(cfg, st) && s in cfg.sources && st.router == Emptying && st.channel == []
    ensures FromSource(st.consumed, s) == cfg.streams[s] <==>
            st.bridges[s].made == |cfg.streams[s]| && st.bridges[s].sending.None?
  {
    assert FromSource([], s) == [];
    hide FromSource;
    var b, stream, got := st.bridges[s], cfg.streams[s], FromSource(st.consumed, s);
    assert Conserves(cfg, st, s);
    assert got + Held(b) == stream[..b.made];
    if b.sending.None? {
      assert got == stream[..b.made];
      assert b.made == |stream| ==> stream[..b.made] == stream;
    } else {
      assert |got| == b.made - 1;
    }
  }

  /** The bridge of `s` has made all its chunks and sent them. */
  predicate AllSent(cfg: Setup, st: State, s: SourceId)
    requires s in st.bridges && s in cfg.streams
  {
    st.bridges[s].made == |cfg.streams[s]| && st.bridges[s].sending.None?
  }

  /** However things go on from `st`, once the router has stopped consuming it has consumed all of `s`. */
  ghost predicate SureToDeliver(cfg: Setup, st: State, s: SourceId)
    requires s in cfg.streams
  {
    forall states: seq<State>, steps: seq<Step> ::
      Path(cfg, states, steps) && states[0] == st && RouterDone(states[|steps|]) ==>
        FromSource(states[|steps|].consumed, s) == cfg.streams[s]
  }

  /** If all was sent, all is delivered by the time the drain ends. */
  ghost predicate OnItsWay(cfg: Setup, st: State, s: SourceId)
    requires s in cfg.streams
  {
    s in st.bridges && AllSent(cfg, st, s) && (RouterDone(st) ==> FromSource(st.consumed, s) == cfg.streams[s])
  }

  lemma StepKeepsOnItsWay(cfg: Setup, st: State, step: Step, s: SourceId)
    requires Inv(cfg, st) && s in cfg.sources && OnItsWay(cfg, st, s) && Enabled(cfg, st, step)
    ensures OnItsWay(cfg, After(cfg, st, step), s)
  {
    hide FromSource, Conserves;
    if step == DrainDone {
      DrainedSource(cfg, st, s);
    }
  }

  lemma {:induction false} PathKeepsOnItsWay(cfg: Setup, states: seq<State>, steps: seq<Step>, i: nat, s: SourceId)
    requires cfg.Valid() && Path(cfg, states, steps) && i < |states| && s in cfg.sources
    requires Inv(cfg, states[0]) && OnItsWay(cfg, states[0], s)
    ensures Inv(cfg, states[i]) && OnItsWay(cfg, states[i], s)
  {
    hide Enabled, After, Inv, OnItsWay;
    if i > 0 {
      PathKeepsOnItsWay(cfg, states, steps, i - 1, s);
      StepKeepsInv(cfg, states[i - 1], steps[i - 1]);
      StepKeepsOnItsWay(cfg, states[i - 1], steps[i - 1], s);
    }
  }

  /** The session and the router's next step toward the end of the drain, while the bridges do nothing. */
  function HastyStep(st: State): Step
    requires !RouterDone(st)
  {
    if st.running then ClearRunning
    else if !st.stopSent then SendStop
    else if st.router == Serving then TakeStop
    else if st.channel != [] then DrainOne
    else DrainDone
  }

  lemma HastyStepIsEnabled(cfg: Setup, st: State)
    requires Inv(cfg, st) && !RouterDone(st)
    ensures Enabled(cfg, st, HastyStep(st))
    ensures var st' := After(cfg, st, HastyStep(st));
            st'.bridges == st.bridges && st'.consumed + st'.channel == st.consumed + st.channel
            && (RouterDone(st') ==> st'.channel == []) && (!RouterDone(st') ==> HastyRank(st') < HastyRank(st))
  {
    hide Conserves, FromSource;
  }

  function HastyRank(st: State): nat
  {
    |st.channel| + (if st.running then 1 else 0) + (if st.stopSent then 0 else 1) +
    (if st.router == Serving then 1 else 0)
  }

  lemma {:induction false} HastyShutdown(cfg: Setup, st: State) returns (states: seq<State>, steps: seq<Step>)
    requires cfg.Valid() && Inv(cfg, st) && !RouterDone(st)
    ensures Path(cfg, states, steps) && states[0] == st && RouterDone(states[|steps|])
    ensures states[|steps|].consumed == st.consumed + st.channel
    decreases HastyRank(st)
  {
    hide Enabled, After, Inv, HastyStep, RouterDone, HastyRank;
    HastyStepIsEnabled(cfg, st);
    var step := HastyStep(st);
    var st' := After(cfg, st, step);
    StepKeepsInv(cfg, st, step);
    if RouterDone(st') {
      states, steps := [st, st'], [step];
      assert st'.consumed + [] == st'.consumed;
    } else {
      states, steps := HastyShutdown(cfg, st');
      PrependStep(cfg, st, step, states, steps);
      states, steps := [st] + states, [step] + steps;
    }
  }

  lemma PrependStep(cfg: Setup, st: State, step: Step, states: seq<State>, steps: seq<Step>)
    requires Enabled(cfg, st, step) && Path(cfg, states, steps) && states[0] == After(cfg, st, step)
    ensures Path(cfg, [st] + states, [step] + steps)
  {
    hide Enabled, After;
  }

  /**
   "Drain any remaining audio in the buffer to sinks", as what a caller of `stop` can rely on. From any moment
   until the drain has ended, the moment of the call above all, every way of going on delivers all of a source
   if and only if its bridge has at that moment already made and sent everything: a chunk still in the ring or
   blocked at the channel can always be overtaken by the stop command.
   */
  lemma StopDeliversAllIff(cfg: Setup, states: seq<State>, steps: seq<Step>, i: nat, s: SourceId)
    requires Behavior(cfg, states, steps) && i < |states| && s in cfg.sources && !RouterDone(states[i])
    ensures s in states[i].bridges && s in cfg.streams
    ensures SureToDeliver(cfg, states[i], s) <==> AllSent(cfg, states[i], s)
  {
    hide FromSource, Enabled, After, Init, RouterDone;
    BehaviorKeepsInv(cfg, states, steps, i);
    var st := states[i];
    if AllSent(cfg, st, s) {
      forall path: seq<State>, taken: seq<Step> | Path(cfg, path, taken) && path[0] == st && RouterDone(path[|taken|])
        ensures FromSource(path[|taken|].consumed, s) == cfg.streams[s]
      {
        PathKeepsOnItsWay(cfg, path, taken, |taken|, s);
      }
    } else {
      var path, taken := HastyShutdown(cfg, st);
      UnsentIsLost(cfg, st, s);
      assert FromSource(path[|taken|].consumed, s) != cfg.streams[s];
    }
  }

  lemma UnsentIsLost(cfg: Setup, st: State, s: SourceId)
    requires Inv(cfg, st) && s in cfg.sources && !RouterDone(st) && !AllSent(cfg, st, s)
    ensures FromSource(st.consumed + st.channel, s) != cfg.streams[s]
  {
    hide FromSource;
    assert Conserves(cfg, st, s);
    FromSourceConcat(st.consumed, st.channel, s);
    assert |FromSource(st.consumed, s) + FromSource(st.channel, s) + Held(st.bridges[s])| == st.bridges[s].made;
  }

  lemma Extend(cfg: Setup, states: seq<State>, steps: seq<Step>, step: Step)
    requires Behavior(cfg, states, steps) && Enabled(cfg, states[|steps|], step)
    ensures Behavior(cfg, states + [After(cfg, states[|steps|], step)], steps + [step])
  {
    hide Enabled, After;
  }

  // ---------- shutdown terminates ----------

  function BridgeRank(b: Bridge, length: nat): int
  {
    3 * (length - b.made) + (if b.sending.Some? then 2 else 0) +
    (match b.phase case Capturing => 2 case Draining => 1 case Finished => 0)
  }

  function BridgesRank(cfg: Setup, bridges: map<SourceId, Bridge>, sources: seq<SourceId>): int
    requires forall s :: s in sources ==> s in bridges && s in cfg.streams
  {
    if sources == [] then 0
    else
      var s := sources[|sources| - 1];
      BridgesRank(cfg, bridges, sources[..|sources| - 1]) + BridgeRank(bridges[s], |cfg.streams[s]|)
  }

  function RouterRank(cfg: Setup, r: RouterPhase): int
  {
    match r
    case Serving => cfg.sinks + 3
    case Emptying => cfg.sinks + 2
    case StoppingSinks(k) => cfg.sinks - k + 1
    case Exited => 0
  }

  /** What is left to do: chunks to make, send and consume, and phases to go through. */
  function Rank(cfg: Setup, st: State): int
    requires forall s :: s in cfg.sources ==> s in st.bridges && s in cfg.streams
  {
    BridgesRank(cfg, st.bridges, cfg.sources) + |st.channel| + RouterRank(cfg, st.router)
    + (if st.running then 1 else 0) + (if st.stopSent then 0 else 1)
  }

  /** A step of one bridge changes that bridge's rank only. */
  lemma {:induction false} BridgesRankChanges(cfg: Setup, bridges: map<SourceId, Bridge>, sources: seq<SourceId>,
                                              s: SourceId, b: Bridge)
    requires forall i, j :: 0 <= i < j < |sources| ==> sources[i] != sources[j]
    requires (forall t :: t in sources ==> t in bridges && t in cfg.streams) && s in bridges && s in cfg.streams
    ensures BridgesRank(cfg, bridges[s := b], sources) - BridgesRank(cfg, bridges, sources)
         == if s in sources then BridgeRank(b, |cfg.streams[s]|) - BridgeRank(bridges[s], |cfg.streams[s]|) else 0
  {
    hide BridgeRank;
    if sources != [] {
      var init, last := sources[..|sources| - 1], sources[|sources| - 1];
      assert sources == init + [last];
      BridgesRankChanges(cfg, bridges, init, s, b);
      assert last !in init;
    }
  }

  lemma {:induction false} BridgesRankIsNat(cfg: Setup, bridges: map<SourceId, Bridge>, sources: seq<SourceId>)
    requires forall s :: s in sources ==> s in bridges && s in cfg.streams && bridges[s].made <= |cfg.streams[s]|
    ensures 0 <= BridgesRank(cfg, bridges, sources)
  {
    if sources != [] {
      BridgesRankIsNat(cfg, bridges, sources[..|sources| - 1]);
    }
  }

  /** Every step of the pipeline leaves less to do, but for going round in a drain loop that never ends. */
  lemma StepDecreasesRank(cfg: Setup, st: State, step: Step)
    requires cfg.Valid() && Inv(cfg, st) && Enabled(cfg, st, step) && !step.Spin?
    ensures Inv(cfg, After(cfg, st, step)) && 0 <= Rank(cfg, After(cfg, st, step)) < Rank(cfg, st)
  {
    StepKeepsInv(cfg, st, step);
    RankIsNat(cfg, After(cfg, st, step));
    hide Inv, Enabled, After, Rank;
    match step
    case Make(s) => BridgeStepDecreases(cfg, st, step, s);
    case Send(s) => BridgeStepDecreases(cfg, st, step, s);
    case SendFails(s) => BridgeStepDecreases(cfg, st, step, s);
    case BeginDrain(s) => BridgeStepDecreases(cfg, st, step, s);
    case Finish(s) => BridgeStepDecreases(cfg, st, step, s);
    case _ => RouterStepDecreases(cfg, st, step);
  }

  lemma BridgeStepDecreases(cfg: Setup, st: State, step: Step, s: SourceId)
    requires cfg.Valid() && Inv(cfg, st) && Enabled(cfg, st, step) && Inv(cfg, After(cfg, st, step))
    requires step == Make(s) || step == Send(s) || step == SendFails(s) || step == BeginDrain(s) || step == Finish(s)
    ensures Rank(cfg, After(cfg, st, step)) < Rank(cfg, st)
  {
    hide Conserves, BridgesRank, PhasesOk, RouterRank;
    BridgesRankChanges(cfg, st.bridges, cfg.sources, s, After(cfg, st, step).bridges[s]);
  }

  lemma RouterStepDecreases(cfg: Setup, st: State, step: Step)
    requires Inv(cfg, st) && Enabled(cfg, st, step) && Inv(cfg, After(cfg, st, step))
    requires !step.Make? && !step.Send? && !step.SendFails? && !step.BeginDrain? && !step.Finish? && !step.Spin?
    ensures Rank(cfg, After(cfg, st, step)) < Rank(cfg, st)
  {
    hide Conserves, BridgesRank;
  }

  lemma RankIsNat(cfg: Setup, st: State)
    requires Inv(cfg, st)
    ensures 0 <= Rank(cfg, st)
  {
    hide Conserves;
    MadeAtMost(cfg, st);
    BridgesRankIsNat(cfg, st.bridges, cfg.sources);
  }

  /** No step is possible; so long as the session runs, clearing its flag is. */
  ghost predicate AtRest(cfg: Setup, st: State)
  {
    forall step :: !Enabled(cfg, st, step)
  }

  predicate AllDone(st: State)
  {
    st.router == Exited && forall s :: s in st.bridges ==> st.bridges[s].phase == Finished
  }

  /** There is always a step to take until the router has exited and every bridge has finished. */
  lemma StoppedNeverStuck(cfg: Setup, st: State)
    requires cfg.Valid() && Inv(cfg, st) && AtRest(cfg, st)
    ensures AllDone(st)
  {
    assert !Enabled(cfg, st, ClearRunning);
    RouterNeverStuck(cfg, st);
    hide Enabled, Inv;
    forall s | s in st.bridges
      ensures st.bridges[s].phase == Finished
    {
      BridgeNeverStuck(cfg, st, s);
    }
  }

  lemma RouterNeverStuck(cfg: Setup, st: State)
    requires Inv(cfg, st) && !st.running && AtRest(cfg, st)
    ensures st.router == Exited
  {
    hide Conserves;
    assert !Enabled(cfg, st, SendStop) && !Enabled(cfg, st, TakeStop);
    assert !Enabled(cfg, st, DrainOne) && !Enabled(cfg, st, DrainDone);
    assert !Enabled(cfg, st, StopSink) && !Enabled(cfg, st, Exit);
  }

  lemma BridgeNeverStuck(cfg: Setup, st: State, s: SourceId)
    requires Inv(cfg, st) && !st.running && st.router == Exited && s in st.bridges && AtRest(cfg, st)
    ensures st.bridges[s].phase == Finished
  {
    hide Conserves;
    MadeAtMost(cfg, st);
    assert !Enabled(cfg, st, SendFails(s)) && !Enabled(cfg, st, BeginDrain(s));
    assert !Enabled(cfg, st, Make(s)) && !Enabled(cfg, st, Finish(s)) && !Enabled(cfg, st, Spin(s));
  }

  // ---------- and when it does not ----------

  ghost predicate NoZeroChunks(cfg: Setup)
  {
    forall s :: s in cfg.sources ==> !cfg.Spins(s)
  }

  ghost predicate BoundedBy(cfg: Setup, bound: int)
  {
    forall states: seq<State>, steps: seq<Step> :: Behavior(cfg, states, steps) ==> |steps| <= bound
  }

  lemma {:induction false} RankBoundsBehavior(cfg: Setup, states: seq<State>, steps: seq<Step>)
    requires Behavior(cfg, states, steps) && NoZeroChunks(cfg)
    ensures Inv(cfg, states[0]) && Inv(cfg, states[|steps|])
    ensures 0 <= Rank(cfg, states[|steps|]) <= Rank(cfg, states[0]) - |steps|
    decreases |steps|
  {
    hide Enabled, After, Conserves, PhasesOk, Init, Rank;
    var n := |steps|;
    BehaviorKeepsInv(cfg, states, steps, n);
    if n == 0 {
      RankIsNat(cfg, states[0]);
    } else {
      Shorten(cfg, states, steps);
      RankBoundsBehavior(cfg, states[..n], steps[..n - 1]);
      NoSpin(cfg, states[n - 1], steps[n - 1]);
      StepDecreasesRank(cfg, states[n - 1], steps[n - 1]);
    }
  }

  lemma NoSpin(cfg: Setup, st: State, step: Step)
    requires NoZeroChunks(cfg) && Inv(cfg, st) && Enabled(cfg, st, step)
    ensures !step.Spin?
  {
    hide Conserves;
  }

  lemma Shorten(cfg: Setup, states: seq<State>, steps: seq<Step>)
    requires Behavior(cfg, states, steps) && steps != []
    ensures Behavior(cfg, states[..|steps|], steps[..|steps| - 1])
  {
    hide Enabled, After;
  }

  function Start(cfg: Setup): State
  {
    State(map s | s in cfg.sources :: Bridge(0, None, Capturing), [], [], Serving, true, false)
  }

  lemma StartIsInit(cfg: Setup, st: State)
    ensures Init(cfg, st) <==> st == Start(cfg)
  {
    if Init(cfg, st) {
      assert st.bridges == Start(cfg).bridges;
    }
  }

  /** Stop, let the bridge of `s` begin its drain, and it goes round `n` times, for any `n`. */
  lemma {:induction false} SpinsForLong(cfg: Setup, s: SourceId, n: nat) returns (states: seq<State>, steps: seq<Step>)
    requires cfg.Valid() && s in cfg.sources && cfg.Spins(s)
    ensures Behavior(cfg, states, steps) && n < |steps|
    ensures Enabled(cfg, states[|steps|], Spin(s))
  {
    if n == 0 {
      StartIsInit(cfg, Start(cfg));
      Extend(cfg, [Start(cfg)], [], ClearRunning);
      var stopped := After(cfg, Start(cfg), ClearRunning);
      Extend(cfg, [Start(cfg), stopped], [ClearRunning], BeginDrain(s));
      states := [Start(cfg), stopped, After(cfg, stopped, BeginDrain(s))];
      steps := [ClearRunning, BeginDrain(s)];
    } else {
      states, steps := SpinsForLong(cfg, s, n - 1);
      hide Enabled;
      Extend(cfg, states, steps, Spin(s));
      states, steps := states + [states[|steps|]], steps + [Spin(s)];
    }
  }

  /**
   Shutdown terminates, in every interleaving, exactly when no source has a chunk size of zero. It then ends
   with the router exited and every bridge finished: nothing can go on after a stop only when all is done.
   */
  lemma ShutdownTerminatesIff(cfg: Setup)
    requires cfg.Valid()
    ensures (exists bound: int :: BoundedBy(cfg, bound)) <==> NoZeroChunks(cfg)
    ensures forall states: seq<State>, steps: seq<Step> ::
              Behavior(cfg, states, steps) && AtRest(cfg, states[|steps|]) ==> AllDone(states[|steps|])
  {
    hide Enabled, After, Conserves, PhasesOk, Init, Rank;
    if NoZeroChunks(cfg) {
      StartIsInit(cfg, Start(cfg));
      InitInv(cfg, Start(cfg));
      var bound := Rank(cfg, Start(cfg));
      forall states: seq<State>, steps: seq<Step> | Behavior(cfg, states, steps)
        ensures |steps| <= bound
      {
        RankBoundsBehavior(cfg, states, steps);
        BehaviorStarts(cfg, states, steps);
      }
      assert BoundedBy(cfg, bound);
    } else if exists bound: int :: BoundedBy(cfg, bound) {
      var bound: int :| BoundedBy(cfg, bound);
      var s :| s in cfg.sources && cfg.Spins(s);
      var states, steps := SpinsForLong(cfg, s, if bound < 0 then 0 else bound);
      assert false;
    }
    forall states: seq<State>, steps: seq<Step> | Behavior(cfg, states, steps) && AtRest(cfg, states[|steps|])
      ensures AllDone(states[|steps|])
    {
      BehaviorStarts(cfg, states, steps);
      BehaviorKeepsInv(cfg, states, steps, |steps|);
      StoppedNeverStuck(cfg, states[|steps|]);
    }
  }

  lemma BehaviorStarts(cfg: Setup, states: seq<State>, steps: seq<Step>)
    requires Behavior(cfg, states, steps)
    ensures |states| == |steps| + 1 && states[0] == Start(cfg)
  {
    hide Enabled, After;
    StartIsInit(cfg, states[0]);
  }

  // ---------- a run that delivers nothing ----------

  /** Any run can be brought to its end. */
  lemma {:induction false} RunToEnd(cfg: Setup, states: seq<State>, steps: seq<Step>)
    returns (run: seq<State>, taken: seq<Step>)
    requires Behavior(cfg, states, steps) && NoZeroChunks(cfg) && Inv(cfg, states[|steps|])
    ensures Behavior(cfg, run, taken) && states <= run && steps <= taken && AllDone(run[|taken|])
    decreases Rank(cfg, states[|steps|])
  {
    hide Enabled, After, Conserves, PhasesOk, Init, Rank, AllDone;
    RankBoundsBehavior(cfg, states, steps);
    var st := states[|steps|];
    if AtRest(cfg, st) {
      StoppedNeverStuck(cfg, st);
      run, taken := states, steps;
    } else {
      var step :| Enabled(cfg, st, step);
      NoSpin(cfg, st, step);
      StepDecreasesRank(cfg, st, step);
      Extend(cfg, states, steps, step);
      run, taken := RunToEnd(cfg, states + [After(cfg, st, step)], steps + [step]);
    }
  }

  lemma StartServes(cfg: Setup)
    requires cfg.Valid()
    ensures Init(cfg, Start(cfg)) && Inv(cfg, Start(cfg)) && !RouterDone(Start(cfg))
    ensures Start(cfg).consumed == [] && Start(cfg).channel == []
  {
    StartIsInit(cfg, Start(cfg));
    InitInv(cfg, Start(cfg));
  }

  /** A complete shutdown in which the stop command overtakes every bridge: nothing at all is delivered. */
  lemma StopOvertakesEverything(cfg: Setup) returns (states: seq<State>, steps: seq<Step>)
    requires cfg.Valid() && NoZeroChunks(cfg)
    ensures Behavior(cfg, states, steps) && AllDone(states[|steps|]) && states[|steps|].consumed == []
  {
    hide Enabled, After, Inv, Init, RouterDone, AllDone, Start;
    StartServes(cfg);
    var hasty, taken := HastyShutdown(cfg, Start(cfg));
    var n := |taken|;
    BehaviorKeepsInv(cfg, hasty, taken, n);
    states, steps := RunToEnd(cfg, hasty, taken);
    assert states[n] == hasty[n];
    ConsumedIsFrozen(cfg, states, steps, n, |steps|);
  }

  /** The least input on which it fails: one source with one chunk, one sink. */
  lemma ShutdownCanLoseAudio(s: SourceId, c: Chunk) returns (cfg: Setup, states: seq<State>, steps: seq<Step>)
    requires c.source == Some(s)
    ensures cfg == Setup([s], map[s := [c]], map[s := 1600], 1)
    ensures Behavior(cfg, states, steps) && AllDone(states[|steps|]) && states[|steps|].consumed == []
  {
    cfg := Setup([s], map[s := [c]], map[s := 1600], 1);
    states, steps := StopOvertakesEverything(cfg);
  }
}
