/**
 Runs of the pipeline that exist: what `Pipeline` says of every behavior would hold of a system that does nothing. Here
 are behaviors that deliver everything, before a stop and after it, and one that fills the channel.
 */
module Delivery {

  import opened Audio
  import opened Pipeline

  /** The state at the end of a behavior. */
  ghost predicate Ends(cfg: Setup, states: seq<State>, steps: seq<Step>, last: State)
  {
    Behavior(cfg, states, steps) && states[|steps|] == last
  }

  /** One more step. */
  lemma Go(cfg: Setup, states: seq<State>, steps: seq<Step>, last: State, step: Step)
    returns (run: seq<State>, taken: seq<Step>)
    requires Ends(cfg, states, steps, last) && Enabled(cfg, last, step)
    ensures Ends(cfg, run, taken, After(cfg, last, step)) && taken == steps + [step]
  {
    hide Enabled, After, Init, Setup.Valid;
    Extend(cfg, states, steps, step);
    run, taken := states + [After(cfg, last, step)], steps + [step];
  }

  // ---------- one source, chunk by chunk ----------

  /** The router takes chunks off the channel: one by one while it serves, and in its drain. */
  predicate Takes(st: State)
  {
    st.router == Serving || st.router == Emptying
  }

  function TakeStep(st: State): Step
  {
    if st.router == Serving then Receive else DrainOne
  }

  /** The source's bridge can go on making and sending, and nothing is on its way. */
  predicate Ready(cfg: Setup, st: State, s: SourceId)
  {
    Takes(st) && st.channel == [] && s in st.bridges && s in cfg.streams
    && st.bridges[s].phase != Finished && st.bridges[s].sending.None? && st.bridges[s].made <= |cfg.streams[s]|
  }

  /** The state once the rest of a source's stream has been made, sent and consumed. */
  function Pumped(cfg: Setup, st: State, s: SourceId): State
    requires Ready(cfg, st, s)
  {
    var b, stream := st.bridges[s], cfg.streams[s];
    st.(bridges := st.bridges[s := b.(made := |stream|)], consumed := st.consumed + stream[b.made..])
  }

  /** A chunk is made, sent and consumed. */
  lemma PumpOne(cfg: Setup, st: State, s: SourceId)
    requires Ready(cfg, st, s) && st.bridges[s].made < |cfg.streams[s]|
    ensures Enabled(cfg, st, Make(s))
    ensures var st1 := After(cfg, st, Make(s));
            && Enabled(cfg, st1, Send(s))
            && var st2 := After(cfg, st1, Send(s));
               && Enabled(cfg, st2, TakeStep(st))
               && var b := st.bridges[s];
                  After(cfg, st2, TakeStep(st)) == st.(bridges := st.bridges[s := b.(made := b.made + 1)],
                                                       consumed := st.consumed + [cfg.streams[s][b.made]])
  {
    var b := st.bridges[s];
    var c := cfg.streams[s][b.made];
    assert ([] + [c])[1..] == [];
    assert st.bridges[s := b.(made := b.made + 1, sending := Some(c))][s := b.(made := b.made + 1)]
        == st.bridges[s := b.(made := b.made + 1)];
  }

  lemma {:induction false} Pump(cfg: Setup, states: seq<State>, steps: seq<Step>, st: State, s: SourceId)
    returns (run: seq<State>, taken: seq<Step>)
    requires Ends(cfg, states, steps, st) && Ready(cfg, st, s)
    ensures Ends(cfg, run, taken, Pumped(cfg, st, s)) && steps <= taken
    decreases |cfg.streams[s]| - st.bridges[s].made
  {
    hide Ends, Enabled, After;
    var b, stream := st.bridges[s], cfg.streams[s];
    if b.made == |stream| {
      NothingToPump(cfg, st, s);
      run, taken := states, steps;
    } else {
      PumpOne(cfg, st, s);
      var st1 := After(cfg, st, Make(s));
      var st2 := After(cfg, st1, Send(s));
      var st3 := After(cfg, st2, TakeStep(st));
      run, taken := Go(cfg, states, steps, st, Make(s));
      run, taken := Go(cfg, run, taken, st1, Send(s));
      run, taken := Go(cfg, run, taken, st2, TakeStep(st));
      PumpedOneMore(cfg, st, st3, s);
      run, taken := Pump(cfg, run, taken, st3, s);
    }
  }

  lemma NothingToPump(cfg: Setup, st: State, s: SourceId)
    requires Ready(cfg, st, s) && st.bridges[s].made == |cfg.streams[s]|
    ensures Pumped(cfg, st, s) == st
  {
    assert cfg.streams[s][|cfg.streams[s]|..] == [];
  }

  lemma PumpedOneMore(cfg: Setup, st: State, st': State, s: SourceId)
    requires Ready(cfg, st, s) && st.bridges[s].made < |cfg.streams[s]|
    requires var b := st.bridges[s];
             st' == st.(bridges := st.bridges[s := b.(made := b.made + 1)],
                        consumed := st.consumed + [cfg.streams[s][b.made]])
    ensures Ready(cfg, st', s) && Pumped(cfg, st', s) == Pumped(cfg, st, s)
  {
    var n, stream := st.bridges[s].made, cfg.streams[s];
    assert [stream[n]] + stream[n + 1..] == stream[n..];
    assert st.consumed + [stream[n]] + stream[n + 1..] == st.consumed + ([stream[n]] + stream[n + 1..]);
  }

  // ---------- all sources ----------

  /** The bridges of the first `n` sources have sent everything, the others nothing; all are in the phase. */
  ghost predicate SentFirst(cfg: Setup, st: State, n: nat, phase: BridgePhase)
  {
    && Takes(st) && st.channel == [] && (forall s :: s in st.bridges <==> s in cfg.sources)
    && forall i :: 0 <= i < |cfg.sources| ==>
         cfg.sources[i] in cfg.streams &&
         st.bridges[cfg.sources[i]] == Bridge(if i < n then |cfg.streams[cfg.sources[i]]| else 0, None, phase)
  }

  lemma {:induction false} PumpAll(cfg: Setup, states: seq<State>, steps: seq<Step>, st: State, n: nat,
                                   phase: BridgePhase)
    returns (run: seq<State>, taken: seq<Step>, last: State)
    requires Ends(cfg, states, steps, st) && cfg.Valid() && n <= |cfg.sources| && phase != Finished
    requires SentFirst(cfg, st, n, phase)
    ensures Ends(cfg, run, taken, last) && steps <= taken && SentFirst(cfg, last, |cfg.sources|, phase)
    ensures last.router == st.router && last.running == st.running && last.stopSent == st.stopSent
    decreases |cfg.sources| - n
  {
    hide Ends, Setup.Valid;
    if n == |cfg.sources| {
      run, taken, last := states, steps, st;
    } else {
      var s := cfg.sources[n];
      SourcesDiffer(cfg, n);
      run, taken := Pump(cfg, states, steps, st, s);
      run, taken, last := PumpAll(cfg, run, taken, Pumped(cfg, st, s), n + 1, phase);
    }
  }

  lemma SourcesDiffer(cfg: Setup, n: nat)
    requires cfg.Valid() && n < |cfg.sources|
    ensures forall i :: 0 <= i < |cfg.sources| && i != n ==> cfg.sources[i] != cfg.sources[n]
  {
  }

  lemma StartSentNothing(cfg: Setup)
    requires cfg.Valid()
    ensures SentFirst(cfg, Start(cfg), 0, Capturing) && Ends(cfg, [Start(cfg)], [], Start(cfg))
    ensures Start(cfg).running && !Start(cfg).stopSent && Start(cfg).router == Serving
  {
    StartIsInit(cfg, Start(cfg));
  }

  /** All is sent, and nothing is in the channel: the router has it all. */
  lemma SentIsConsumed(cfg: Setup, states: seq<State>, steps: seq<Step>, last: State, phase: BridgePhase, s: SourceId)
    requires Ends(cfg, states, steps, last) && SentFirst(cfg, last, |cfg.sources|, phase) && s in cfg.sources
    ensures s in cfg.streams && FromSource(last.consumed, s) == cfg.streams[s]
    ensures s in last.bridges && AllSent(cfg, last, s) && !RouterDone(last)
  {
    hide FromSource, Enabled, After, Init, PhasesOk;
    BehaviorKeepsInv(cfg, states, steps, |steps|);
    var i :| 0 <= i < |cfg.sources| && cfg.sources[i] == s;
    NothingQueued(s);
    ConsumedAll(cfg, last, s);
  }

  lemma NothingQueued(s: SourceId)
    ensures FromSource([], s) == []
  {
  }

  lemma ConsumedAll(cfg: Setup, st: State, s: SourceId)
    requires s in cfg.streams && s in st.bridges && Conserves(cfg, st, s) && FromSource([], s) == []
    requires st.channel == [] && st.router != Exited && AllSent(cfg, st, s)
    ensures FromSource(st.consumed, s) == cfg.streams[s]
  {
    hide FromSource;
    assert cfg.streams[s][..|cfg.streams[s]|] == cfg.streams[s];
  }

  /**
   While the session runs, everything can be delivered: for every set-up there is a run, without a stop, at whose end
   the router has received every chunk of every source.
   */
  lemma AllCanBeReceived(cfg: Setup) returns (states: seq<State>, steps: seq<Step>)
    requires cfg.Valid()
    ensures Behavior(cfg, states, steps)
    ensures var last := states[|steps|];
            last.running && !last.stopSent && last.router == Serving &&
            forall s :: s in cfg.sources ==> s in cfg.streams && FromSource(last.consumed, s) == cfg.streams[s]
  {
    hide Enabled, After, Init, FromSource, SentFirst;
    StartSentNothing(cfg);
    var last;
    states, steps, last := PumpAll(cfg, [Start(cfg)], [], Start(cfg), 0, Capturing);
    forall s | s in cfg.sources
      ensures s in cfg.streams && FromSource(last.consumed, s) == cfg.streams[s]
    {
      SentIsConsumed(cfg, states, steps, last, Capturing, s);
    }
  }

  // ---------- after the stop ----------

  /** The bridges of the first `n` sources have seen the stop; nobody has made anything. */
  ghost predicate DrainingFirst(cfg: Setup, st: State, n: nat)
  {
    && Takes(st) && st.channel == [] && !st.running && (forall s :: s in st.bridges <==> s in cfg.sources)
    && forall i :: 0 <= i < |cfg.sources| ==>
         cfg.sources[i] in cfg.streams &&
         st.bridges[cfg.sources[i]] == Bridge(0, None, if i < n then Draining else Capturing)
  }

  lemma {:induction false} DrainAll(cfg: Setup, states: seq<State>, steps: seq<Step>, st: State, n: nat)
    returns (run: seq<State>, taken: seq<Step>, last: State)
    requires Ends(cfg, states, steps, st) && cfg.Valid() && n <= |cfg.sources| && DrainingFirst(cfg, st, n)
    ensures Ends(cfg, run, taken, last) && steps <= taken && DrainingFirst(cfg, last, |cfg.sources|)
    ensures last.router == st.router && last.stopSent == st.stopSent
    decreases |cfg.sources| - n
  {
    hide Ends, Setup.Valid;
    if n == |cfg.sources| {
      run, taken, last := states, steps, st;
    } else {
      SourcesDiffer(cfg, n);
      run, taken := Go(cfg, states, steps, st, BeginDrain(cfg.sources[n]));
      run, taken, last := DrainAll(cfg, run, taken, After(cfg, st, BeginDrain(cfg.sources[n])), n + 1);
    }
  }

  /** The session stops before anything was made; the router goes on serving, or has already taken the command. */
  lemma StopsAtOnce(cfg: Setup, taken: bool) returns (states: seq<State>, steps: seq<Step>, last: State)
    requires cfg.Valid()
    ensures Ends(cfg, states, steps, last) && DrainingFirst(cfg, last, 0)
    ensures steps == if taken then [ClearRunning, SendStop, TakeStop] else [ClearRunning]
    ensures last.router == (if taken then Emptying else Serving) && last.stopSent == taken
  {
    hide Ends, Setup.Valid;
    StartSentNothing(cfg);
    states, steps := Go(cfg, [Start(cfg)], [], Start(cfg), ClearRunning);
    last := After(cfg, Start(cfg), ClearRunning);
    if taken {
      states, steps := Go(cfg, states, steps, last, SendStop);
      last := After(cfg, last, SendStop);
      states, steps := Go(cfg, states, steps, last, TakeStop);
      last := After(cfg, last, TakeStop);
    }
  }

  /** From here the run goes to its end, and nothing consumed is lost on the way. */
  lemma FinishDelivered(cfg: Setup, states: seq<State>, steps: seq<Step>, last: State, phase: BridgePhase)
    returns (run: seq<State>, taken: seq<Step>)
    requires NoZeroChunks(cfg) && Ends(cfg, states, steps, last) && SentFirst(cfg, last, |cfg.sources|, phase)
    ensures Behavior(cfg, run, taken) && AllDone(run[|taken|]) && states <= run && steps <= taken
    ensures forall s :: s in cfg.sources ==> s in cfg.streams && FromSource(run[|taken|].consumed, s) == cfg.streams[s]
  {
    hide Enabled, After, Init, FromSource, SentFirst, Conserves, PhasesOk;
    var n := |steps|;
    BehaviorKeepsInv(cfg, states, steps, n);
    run, taken := RunToEnd(cfg, states, steps);
    assert run[n] == last;
    forall s | s in cfg.sources
      ensures s in cfg.streams && FromSource(run[|taken|].consumed, s) == cfg.streams[s]
    {
      SentIsConsumed(cfg, states, steps, last, phase, s);
      StaysDelivered(cfg, run, taken, n, s);
    }
  }

  lemma StaysDelivered(cfg: Setup, states: seq<State>, steps: seq<Step>, i: nat, s: SourceId)
    requires Behavior(cfg, states, steps) && i < |states| && s in cfg.sources && !RouterDone(states[i])
    requires s in cfg.streams && s in states[i].bridges && AllSent(cfg, states[i], s) && AllDone(states[|steps|])
    ensures FromSource(states[|steps|].consumed, s) == cfg.streams[s]
  {
    hide Enabled, After, Init, FromSource, AllSent;
    StopDeliversAllIff(cfg, states, steps, i, s);
    var n := |steps|;
    assert Path(cfg, states[i..], steps[i..]) && states[i..][0] == states[i] && states[i..][n - i] == states[n];
  }

  /**
   A stop need not lose anything: for every set-up without zero chunk sizes, and even if `stop` is called before any
   chunk was made, there is a run to the very end that delivers every chunk of every source, whether the router still
   serves while the bridges drain or, with `taken`, has already taken the stop command.
   */
  lemma StopCanDeliverAll(cfg: Setup, taken: bool) returns (states: seq<State>, steps: seq<Step>)
    requires cfg.Valid() && NoZeroChunks(cfg)
    ensures Behavior(cfg, states, steps) && steps != [] && steps[0] == ClearRunning && AllDone(states[|steps|])
    ensures forall s :: s in cfg.sources ==>
              s in cfg.streams && FromSource(states[|steps|].consumed, s) == cfg.streams[s]
    ensures taken ==> 2 < |steps| && steps[1] == SendStop && steps[2] == TakeStop
  {
    hide Enabled, After, Init, FromSource, SentFirst, DrainingFirst, AllDone, Setup.Valid;
    var last;
    states, steps, last := StopsAtOnce(cfg, taken);
    var first := steps;
    states, steps, last := DrainAll(cfg, states, steps, last, 0);
    DrainingSentNothing(cfg, last);
    states, steps, last := PumpAll(cfg, states, steps, last, 0, Draining);
    states, steps := FinishDelivered(cfg, states, steps, last, Draining);
    assert first <= steps;
    assert steps[0] == first[0];
    if taken {
      assert steps[1] == first[1] && steps[2] == first[2];
    }
  }

  /** A bridge ends on its own once it has drained: the stop command need not have been sent. */
  lemma BridgeEndsBeforeStop(cfg: Setup, s: SourceId) returns (states: seq<State>, steps: seq<Step>)
    requires cfg.Valid() && s in cfg.sources && !cfg.Spins(s)
    ensures Behavior(cfg, states, steps)
    ensures var last := states[|steps|];
            && s in last.bridges && last.bridges[s].phase == Finished && !last.stopSent && last.router == Serving
            && s in cfg.streams && FromSource(last.consumed, s) == cfg.streams[s]
  {
    hide FromSource, SentFirst, DrainingFirst, Setup.Valid, Ends;
    var last;
    states, steps, last := StopsAtOnce(cfg, false);
    states, steps, last := DrainAll(cfg, states, steps, last, 0);
    DrainingSentNothing(cfg, last);
    states, steps, last := PumpAll(cfg, states, steps, last, 0, Draining);
    SentIsConsumed(cfg, states, steps, last, Draining, s);
    IsDrained(cfg, last, s);
    states, steps := Go(cfg, states, steps, last, Finish(s));
    EndsThere(cfg, states, steps, After(cfg, last, Finish(s)));
  }

  lemma IsDrained(cfg: Setup, st: State, s: SourceId)
    requires SentFirst(cfg, st, |cfg.sources|, Draining) && s in cfg.sources && s in cfg.streams
    ensures s in st.bridges && st.bridges[s] == Bridge(|cfg.streams[s]|, None, Draining)
  {
  }

  lemma EndsThere(cfg: Setup, states: seq<State>, steps: seq<Step>, last: State)
    requires Ends(cfg, states, steps, last)
    ensures Behavior(cfg, states, steps) && states[|steps|] == last
  {
  }

  lemma DrainingSentNothing(cfg: Setup, st: State)
    requires DrainingFirst(cfg, st, |cfg.sources|)
    ensures SentFirst(cfg, st, 0, Draining)
  {
  }

  // ---------- a full channel ----------

  /** The channel can be filled: a source with a hundred chunks can have a hundred of them queued. */
  lemma {:induction false} ChannelCanFill(cfg: Setup, s: SourceId, n: nat)
    returns (states: seq<State>, steps: seq<Step>, last: State)
    requires cfg.Valid() && s in cfg.sources && n <= |cfg.streams[s]| && n <= 100
    ensures Ends(cfg, states, steps, last) && |last.channel| == n && last.channel == cfg.streams[s][..n]
    ensures last.router == Serving && s in last.bridges && last.bridges[s] == Bridge(n, None, Capturing)
  {
    hide Ends, Init;
    if n == 0 {
      StartSentNothing(cfg);
      states, steps, last := [Start(cfg)], [], Start(cfg);
    } else {
      var st;
      states, steps, st := ChannelCanFill(cfg, s, n - 1);
      states, steps := Go(cfg, states, steps, st, Make(s));
      var made := After(cfg, st, Make(s));
      states, steps := Go(cfg, states, steps, made, Send(s));
      last := After(cfg, made, Send(s));
      OneMoreMade(cfg.streams[s], n - 1);
    }
  }

  /** And it holds no more: a bridge that finds it full waits. */
  lemma FullChannelBlocks(cfg: Setup, s: SourceId) returns (states: seq<State>, steps: seq<Step>, last: State)
    requires cfg.Valid() && s in cfg.sources && 100 < |cfg.streams[s]|
    ensures Ends(cfg, states, steps, last) && |last.channel| == 100 && s in last.bridges
    ensures last.bridges[s].sending == Some(cfg.streams[s][100]) && !Enabled(cfg, last, Send(s))
    ensures Enabled(cfg, last, Receive) && Enabled(cfg, After(cfg, last, Receive), Send(s))
  {
    hide Ends, Init;
    var st;
    states, steps, st := ChannelCanFill(cfg, s, 100);
    states, steps := Go(cfg, states, steps, st, Make(s));
    last := After(cfg, st, Make(s));
  }

  // ---------- sent, but not delivered ----------

  lemma ChannelOnlyGrows(cfg: Setup, st: State, step: Step)
    requires Enabled(cfg, st, step) && RouterDone(st)
    ensures st.channel <= After(cfg, st, step).channel
  {
  }

  lemma {:induction false} ChannelKeeps(cfg: Setup, states: seq<State>, steps: seq<Step>, i: nat, j: nat)
    requires Behavior(cfg, states, steps) && i <= j < |states| && RouterDone(states[i])
    ensures states[i].channel <= states[j].channel
  {
    hide Enabled, After, Init, RouterDone, Setup.Valid;
    if i < j {
      ChannelKeeps(cfg, states, steps, i, j - 1);
      ConsumedIsFrozen(cfg, states, steps, i, j - 1);
      ChannelOnlyGrows(cfg, states[j - 1], steps[j - 1]);
    }
  }

  /**
   A send that succeeds is no promise: until the router has exited the channel takes chunks, and those that come while
   the sinks are being stopped stay in it.
   */
  lemma SentButNotDelivered(cfg: Setup, s: SourceId) returns (states: seq<State>, steps: seq<Step>)
    requires cfg.Valid() && NoZeroChunks(cfg) && s in cfg.sources && cfg.streams[s] != []
    ensures Behavior(cfg, states, steps) && AllDone(states[|steps|]) && Send(s) in steps
    ensures states[|steps|].consumed == [] && [cfg.streams[s][0]] <= states[|steps|].channel
  {
    hide Enabled, After, Init, FromSource, AllDone, RouterDone, Inv, Conserves, PhasesOk, Start;
    var st;
    states, steps, st := SendsWhileStopping(cfg, s);
    var n := |steps|;
    var before := steps;
    BehaviorKeepsInv(cfg, states, steps, n);
    states, steps := RunToEnd(cfg, states, steps);
    assert states[n] == st;
    ConsumedIsFrozen(cfg, states, steps, n, |steps|);
    ChannelKeeps(cfg, states, steps, n, |steps|);
    assert steps[n - 1] == before[n - 1];
  }

  lemma SendsWhileStopping(cfg: Setup, s: SourceId) returns (states: seq<State>, steps: seq<Step>, last: State)
    requires cfg.Valid() && s in cfg.sources && cfg.streams[s] != []
    ensures Ends(cfg, states, steps, last) && RouterDone(last) && last.consumed == []
    ensures last.channel == [cfg.streams[s][0]] && steps != [] && steps[|steps| - 1] == Send(s)
  {
    hide Ends, Init, Setup.Valid;
    StartSentNothing(cfg);
    states, steps := [Start(cfg)], [];
    var a := After(cfg, Start(cfg), ClearRunning);
    var b := After(cfg, a, SendStop);
    var c := After(cfg, b, TakeStop);
    var d := After(cfg, c, DrainDone);
    var e := After(cfg, d, Make(s));
    states, steps := Go(cfg, states, steps, Start(cfg), ClearRunning);
    states, steps := Go(cfg, states, steps, a, SendStop);
    states, steps := Go(cfg, states, steps, b, TakeStop);
    states, steps := Go(cfg, states, steps, c, DrainDone);
    states, steps := Go(cfg, states, steps, d, Make(s));
    states, steps := Go(cfg, states, steps, e, Send(s));
    last := After(cfg, e, Send(s));
  }

  // ---------- failed sends ----------

  /** The bridge is through: it made so many chunks and makes no more. */
  predicate Ended(st: State, s: SourceId, made: nat)
  {
    s in st.bridges && st.bridges[s] == Bridge(made, None, Finished)
  }

  /** A send that fails while the bridge still captures ends it: it makes nothing more. */
  lemma {:induction false} FailedSendEndsCapture(cfg: Setup, states: seq<State>, steps: seq<Step>, i: nat, j: nat,
                                                 s: SourceId)
    requires Behavior(cfg, states, steps) && i < j < |states| && steps[i] == SendFails(s)
    requires s in states[i].bridges && states[i].bridges[s].phase == Capturing
    ensures Ended(states[j], s, states[i].bridges[s].made)
    decreases j
  {
    hide Init, Enabled, After, Ended, Setup.Valid;
    if i + 1 < j {
      FailedSendEndsCapture(cfg, states, steps, i, j - 1, s);
      StaysEnded(cfg, states[j - 1], steps[j - 1], s, states[i].bridges[s].made);
    } else {
      EndsOnFailure(cfg, states[i], s);
    }
  }

  lemma EndsOnFailure(cfg: Setup, st: State, s: SourceId)
    requires Enabled(cfg, st, SendFails(s)) && st.bridges[s].phase == Capturing
    ensures Ended(After(cfg, st, SendFails(s)), s, st.bridges[s].made)
  {
  }

  lemma StaysEnded(cfg: Setup, st: State, step: Step, s: SourceId, made: nat)
    requires Enabled(cfg, st, step) && Ended(st, s, made)
    ensures Ended(After(cfg, st, step), s, made)
  {
  }

  /** The bridge is draining, or has drained and made all its chunks. */
  predicate Drains(cfg: Setup, st: State, s: SourceId)
  {
    s in st.bridges && s in cfg.streams &&
    (st.bridges[s].phase == Draining || Ended(st, s, |cfg.streams[s]|))
  }

  /** A bridge that has begun its drain goes through with it, whatever becomes of its sends. */
  lemma {:induction false} DrainMakesAll(cfg: Setup, states: seq<State>, steps: seq<Step>, i: nat, j: nat, s: SourceId)
    requires Behavior(cfg, states, steps) && i <= j < |states|
    requires s in cfg.streams && s in states[i].bridges && states[i].bridges[s].phase == Draining
    ensures Drains(cfg, states[j], s)
    decreases j
  {
    hide Init, Enabled, After, Setup.Valid, Ended;
    if i < j {
      DrainMakesAll(cfg, states, steps, i, j - 1, s);
      hide Drains;
      DrainStep(cfg, states[j - 1], steps[j - 1], s);
    }
  }

  lemma DrainStep(cfg: Setup, st: State, step: Step, s: SourceId)
    requires Enabled(cfg, st, step) && Drains(cfg, st, s)
    ensures Drains(cfg, After(cfg, st, step), s)
  {
    if Ended(st, s, |cfg.streams[s]|) {
      StaysEnded(cfg, st, step, s, |cfg.streams[s]|);
    }
  }

  // ---------- every sink is stopped ----------

  function SinkStops(steps: seq<Step>): nat
  {
    if steps == [] then 0
    else SinkStops(steps[..|steps| - 1]) + if steps[|steps| - 1] == StopSink then 1 else 0
  }

  function StopsBy(cfg: Setup, r: RouterPhase): nat
  {
    match r
    case Serving => 0
    case Emptying => 0
    case StoppingSinks(k) => k
    case Exited => cfg.sinks
  }

  /** A router that has exited has stopped every sink, once; one that has not begun to, none. */
  lemma {:induction false} RouterStopsEverySink(cfg: Setup, states: seq<State>, steps: seq<Step>)
    requires Behavior(cfg, states, steps)
    ensures SinkStops(steps) == StopsBy(cfg, states[|steps|].router)
    decreases |steps|
  {
    hide Enabled, After, StopsBy, Init;
    var n := |steps|;
    if n == 0 {
      NoStopsYet(cfg, states[0]);
    } else {
      Shorten(cfg, states, steps);
      RouterStopsEverySink(cfg, states[..n], steps[..n - 1]);
      StopsStep(cfg, states[n - 1], steps[n - 1]);
    }
  }

  lemma NoStopsYet(cfg: Setup, st: State)
    requires Init(cfg, st)
    ensures StopsBy(cfg, st.router) == 0
  {
  }

  lemma StopsStep(cfg: Setup, st: State, step: Step)
    requires Enabled(cfg, st, step)
    ensures StopsBy(cfg, After(cfg, st, step).router)
         == StopsBy(cfg, st.router) + if step == StopSink then 1 else 0
  {
  }
}
