/**
 The router (src/pipeline/router.rs): takes chunks off the channel, writes each to the sinks that want
 it, feeds the merger and writes what the merger emits.

 The object keeps, as ghost fields, what it has consumed and what the merger has reported; `Valid` ties
 every sink's call log to them, so the log of each sink is at all times what a naive per-sink filter
 would have produced.
 */
module Routers {

  import opened Audio
  import opened Merger
  import opened MergerRuns
  import opened Routing
  import opened Retry

  datatype RouterConfig = RouterConfig(
    routes: seq<SinkRoute>,
    table: RoutingTable,
    outcome: SinkBehavior,
    stopOutcome: nat -> bool,   // whether `on_stop` of sink `i` succeeds
    retryAttempts: nat,
    retryDelay: Duration
  )

  /** What the router takes from the stream configuration. */
  datatype StreamConfig = StreamConfig(
    sinkRetryAttempts: nat,
    sinkRetryDelay: Duration,
    mergeWindowDuration: Duration,
    mergeWindowTimeout: Duration,
    maxPendingWindows: nat
  )

  /** The chunks a sink is meant to get, by its route alone. */
  function Wanted(route: SinkRoute, consumed: seq<Chunk>, merged: seq<Chunk>): seq<Chunk>
  {
    match route
    case Broadcast => consumed
    case Single(s) => FromSource(consumed, s)
    case Merged(_) => merged
  }

  /** Every sink has been called for precisely what it wants, in order, each chunk with all its attempts. */
  ghost predicate Delivered(cfg: RouterConfig, calls: seq<seq<Chunk>>, consumed: seq<Chunk>, merged: seq<Chunk>)
  {
    |calls| == |cfg.routes| &&
    forall i :: 0 <= i < |calls| ==>
      calls[i] == CallsFor(cfg.outcome, i, cfg.retryAttempts, Wanted(cfg.routes[i], consumed, merged))
  }

  /** The call log of sink `i` after one more chunk. */
  function OneMore(cfg: RouterConfig, calls: seq<seq<Chunk>>, i: nat, c: Chunk): seq<Chunk>
    requires i < |calls|
  {
    calls[i] + Repeat(c, Attempts(cfg.outcome, i, |calls[i]|, cfg.retryAttempts))
  }

  /** The call logs after `n` calls to sink `i` with `c`. */
  function Called(calls: seq<seq<Chunk>>, i: nat, c: Chunk, n: nat): (after: seq<seq<Chunk>>)
    requires i < |calls|
    ensures |after| == |calls|
  {
    calls[i := calls[i] + Repeat(c, n)]
  }

  lemma NoCalls(calls: seq<seq<Chunk>>, i: nat, c: Chunk)
    requires i < |calls|
    ensures calls == Called(calls, i, c, 0)
  {
    RepeatMore(calls[i], c, 0);
  }

  lemma OneMoreCall(calls: seq<seq<Chunk>>, i: nat, c: Chunk, n: nat)
    requires i < |calls|
    ensures var before, after := Called(calls, i, c, n), Called(calls, i, c, n + 1);
            before[i := before[i] + [c]] == after && |before[i]| == |calls[i]| + n && |after[i]| == |calls[i]| + n + 1
  {
    RepeatMore(calls[i], c, n);
  }

  /** `c` was written to the sinks of the list and to no others. */
  ghost predicate Writes(cfg: RouterConfig, before: seq<seq<Chunk>>, after: seq<seq<Chunk>>, c: Chunk, sinks: seq<nat>)
  {
    |before| == |after| &&
    forall i :: 0 <= i < |after| ==> after[i] == if i in sinks then OneMore(cfg, before, i, c) else before[i]
  }

  lemma WritesNothing(cfg: RouterConfig, calls: seq<seq<Chunk>>, c: Chunk)
    ensures Writes(cfg, calls, calls, c, [])
  {
  }

  lemma WritesBoth(cfg: RouterConfig, a: seq<seq<Chunk>>, b: seq<seq<Chunk>>, d: seq<seq<Chunk>>, c: Chunk,
                   x: seq<nat>, y: seq<nat>)
    requires Writes(cfg, a, b, c, x) && Writes(cfg, b, d, c, y) && Once(x + y)
    ensures Writes(cfg, a, d, c, x + y)
  {
    hide Repeat, Attempts, Once;
    forall i | 0 <= i < |d| && i in x
      ensures i !in y
    {
      OnceIsDisjoint(x, y, i);
    }
  }

  lemma OnceInParts(x: seq<nat>, y: seq<nat>)
    requires Once(x + y)
    ensures Once(x) && Once(y) && forall i :: i in x || i in y ==> i in x + y
  {
    assert forall k :: 0 <= k < |x| ==> x[k] == (x + y)[k];
    assert forall k :: 0 <= k < |y| ==> y[k] == (x + y)[|x| + k];
  }

  lemma OnceIsDisjoint(x: seq<nat>, y: seq<nat>, i: nat)
    requires Once(x + y) && i in x
    ensures i !in y
  {
    var p :| 0 <= p < |x| && x[p] == i;
    forall q | 0 <= q < |y|
      ensures y[q] != i
    {
      assert (x + y)[p] != (x + y)[|x| + q];
    }
  }

  /** The unmerged sinks that get a chunk. */
  function DirectList(t: RoutingTable, c: Chunk): seq<nat>
  {
    t.broadcast + if c.source.Some? then t.DirectSinks(c.source.value) else []
  }

  /** Writing a chunk to its direct list delivers it to whoever wants it. */
  lemma DirectDelivers(cfg: RouterConfig, calls: seq<seq<Chunk>>, calls': seq<seq<Chunk>>, consumed: seq<Chunk>,
                       merged: seq<Chunk>, c: Chunk)
    requires IsTable(cfg.routes, cfg.table) && Delivered(cfg, calls, consumed, merged)
    requires Writes(cfg, calls, calls', c, DirectList(cfg.table, c))
    ensures Delivered(cfg, calls', consumed + [c], merged)
  {
    hide IsTable, Repeat, Attempts, FromSource, CallsFor, DirectList;
    forall i | 0 <= i < |calls'|
      ensures calls'[i] == CallsFor(cfg.outcome, i, cfg.retryAttempts, Wanted(cfg.routes[i], consumed + [c], merged))
    {
      InDirectList(cfg, c, i);
      var before := Wanted(cfg.routes[i], consumed, merged);
      CallsForAppend(cfg.outcome, i, cfg.retryAttempts, before, c);
      if cfg.routes[i].Single? {
        FromSourceAppend(consumed, c, cfg.routes[i].source);
        assert before + [] == before;
      }
    }
  }

  lemma InDirectList(cfg: RouterConfig, c: Chunk, i: nat)
    requires IsTable(cfg.routes, cfg.table) && i < |cfg.routes|
    ensures i in DirectList(cfg.table, c) <==>
            cfg.routes[i] == Broadcast || (cfg.routes[i].Single? && c.source == Some(cfg.routes[i].source))
  {
    match c.source
    case Some(s) => DirectTargets(cfg.routes, cfg.table, s);
    case None =>
      IndicesSpec(cfg.routes, Broadcast);
      assert cfg.table.broadcast + [] == cfg.table.broadcast;
  }

  lemma DirectListIsOnce(cfg: RouterConfig, c: Chunk)
    requires IsTable(cfg.routes, cfg.table)
    ensures Once(DirectList(cfg.table, c)) && forall i :: i in DirectList(cfg.table, c) ==> i < |cfg.routes|
  {
    match c.source
    case Some(s) => DirectTargets(cfg.routes, cfg.table, s);
    case None =>
      IndicesSpec(cfg.routes, Broadcast);
      assert cfg.table.broadcast + [] == cfg.table.broadcast;
  }

  /** Writing a merged chunk to every group delivers it to every merged sink. */
  lemma MergedDelivers(cfg: RouterConfig, calls: seq<seq<Chunk>>, calls': seq<seq<Chunk>>, consumed: seq<Chunk>,
                       merged: seq<Chunk>, c: Chunk)
    requires IsTable(cfg.routes, cfg.table) && Delivered(cfg, calls, consumed, merged)
    requires Writes(cfg, calls, calls', c, Flatten(cfg.table.mergeGroups))
    ensures Delivered(cfg, calls', consumed, merged + [c])
  {
    MergedTargets(cfg.routes, cfg.table);
    hide IsTable, Repeat, Attempts, FromSource, CallsFor, Flatten;
    forall i | 0 <= i < |calls'|
      ensures calls'[i] == CallsFor(cfg.outcome, i, cfg.retryAttempts, Wanted(cfg.routes[i], consumed, merged + [c]))
    {
      CallsForAppend(cfg.outcome, i, cfg.retryAttempts, merged, c);
    }
  }

  function ChunksOf(results: seq<MergeResult>): seq<Chunk>
  {
    seq(|results|, (i: nat) requires i < |results| => results[i].chunk)
  }

  /** The windows to report as incomplete. */
  function IncompleteOf(results: seq<MergeResult>): seq<(nat, seq<SourceId>)>
  {
    if results == [] then []
    else
      var rest := IncompleteOf(results[..|results| - 1]);
      var last := results[|results| - 1];
      if last.missing == [] then rest else rest + [(last.windowId, last.missing)]
  }

  lemma IncompleteOfAppend(results: seq<MergeResult>, r: MergeResult)
    ensures IncompleteOf(results + [r])
         == IncompleteOf(results) + if r.missing == [] then [] else [(r.windowId, r.missing)]
  {
    assert (results + [r])[..|results|] == results;
  }

  function WithSource(chunks: seq<Chunk>): seq<Chunk>
  {
    if chunks == [] then []
    else
      var rest := WithSource(chunks[..|chunks| - 1]);
      if chunks[|chunks| - 1].source.Some? then rest + [chunks[|chunks| - 1]] else rest
  }

  lemma WithSourceAppend(chunks: seq<Chunk>, c: Chunk)
    ensures WithSource(chunks + [c]) == WithSource(chunks) + if c.source.Some? then [c] else []
  {
    assert (chunks + [c])[..|chunks|] == chunks;
  }

  lemma ReportsConcat(cfg: MergerConfig, es: seq<Emission>, rs: seq<MergeResult>, es': seq<Emission>,
                      rs': seq<MergeResult>)
    requires ReportsAll(cfg, es, rs) && ReportsAll(cfg, es', rs')
    ensures ReportsAll(cfg, es + es', rs + rs')
  {
    hide Reports;
  }

  lemma RunExtends(cfg: MergerConfig, hs: seq<History>, ops: seq<Op>, op: Op, h: History)
    requires cfg.Valid() && IsRun(cfg, hs, ops) && Next(cfg, hs[|ops|], op, h)
    ensures IsRun(cfg, hs + [h], ops + [op])
  {
    hide Next;
    var hs', ops' := hs + [h], ops + [op];
    forall i | 0 <= i < |ops'|
      ensures Next(cfg, hs'[i], ops'[i], hs'[i + 1])
    {
      if i < |ops| {
        assert hs'[i] == hs[i] && hs'[i + 1] == hs[i + 1] && ops'[i] == ops[i];
      }
    }
  }

  /** A chunk and the moment the router takes it off the channel. */
  datatype Arrival = Arrival(chunk: Chunk, at: Duration)

  /** One turn of the router's `select!`: a chunk, a timeout tick, or the stop command with what is still queued. */
  datatype Branch =
    | Recv(chunk: Chunk, now: Duration)
    | Tick(now: Duration)
    | Stop(now: Duration, queued: seq<Arrival>)

  function ChunksIn(queue: seq<Arrival>): seq<Chunk>
  {
    seq(|queue|, (i: nat) requires i < |queue| => queue[i].chunk)
  }

  /** The chunks the router takes off the channel: in one turn, and up to the first stop. */
  function TakenInTurn(branch: Branch): seq<Chunk>
  {
    match branch
    case Recv(c, _) => [c]
    case Tick(_) => []
    case Stop(_, queued) => ChunksIn(queued)
  }

  function Taken(branches: seq<Branch>): seq<Chunk>
  {
    if branches == [] then []
    else TakenInTurn(branches[0]) + if branches[0].Stop? then [] else Taken(branches[1..])
  }

  /** What routing these chunks asks of the merger. */
  function Feeds(queue: seq<Arrival>): seq<Op>
  {
    if queue == [] then []
    else
      var last := queue[|queue| - 1];
      Feeds(queue[..|queue| - 1]) + if last.chunk.source.Some? then [Feed(last.chunk, last.at)] else []
  }

  /** What a turn asks of the merger, a stop first checking timeouts and then routing the queue; and all turns. */
  function OpsInTurn(branch: Branch): seq<Op>
  {
    match branch
    case Recv(c, now) => Feeds([Arrival(c, now)])
    case Tick(now) => [MergerRuns.Tick(now)]
    case Stop(now, queued) => [MergerRuns.Tick(now)] + Feeds(queued)
  }

  function OpsOf(branches: seq<Branch>): seq<Op>
  {
    if branches == [] then []
    else OpsInTurn(branches[0]) + if branches[0].Stop? then [] else OpsOf(branches[1..])
  }

  lemma FeedsAppend(queue: seq<Arrival>, a: Arrival)
    ensures Feeds(queue + [a]) == Feeds(queue) + Feeds([a])
    ensures ChunksIn(queue + [a]) == ChunksIn(queue) + [a.chunk]
  {
    assert (queue + [a])[..|queue|] == queue;
    assert [a][..0] == [];
  }

  lemma NoFeeds()
    ensures Feeds([]) == [] && ChunksIn([]) == []
  {
  }

  lemma FeedOfChunk(a: Arrival)
    ensures Feeds([a]) == if a.chunk.source.Some? then [Feed(a.chunk, a.at)] else []
  {
    assert [a][..0] == [];
  }

  /** `on_stop` of each of `n` sinks, once, in order. */
  function StopLog(n: nat, consumed: seq<Chunk>): seq<(nat, seq<Chunk>)>
  {
    if n == 0 then [] else StopLog(n - 1, consumed) + [(n - 1, consumed)]
  }

  /** The sinks whose `on_stop` fails, in order. */
  function FailedStops(succeeds: nat -> bool, n: nat): seq<nat>
  {
    if n == 0 then [] else FailedStops(succeeds, n - 1) + if succeeds(n - 1) then [] else [n - 1]
  }

  lemma NoStops(consumed: seq<Chunk>)
    ensures StopLog(0, consumed) == []
  {
  }

  /** Every sink is stopped once, in order, when all that was consumed has been. */
  lemma {:induction false} StopLogSpec(n: nat, consumed: seq<Chunk>)
    ensures |StopLog(n, consumed)| == n
    ensures forall i :: 0 <= i < n ==> StopLog(n, consumed)[i] == (i, consumed)
  {
    if n > 0 {
      StopLogSpec(n - 1, consumed);
    }
  }

  /** The failed stops are those of precisely the sinks whose `on_stop` fails, each once, in order. */
  lemma {:induction false} FailedStopsSpec(succeeds: nat -> bool, n: nat)
    ensures forall i {:trigger i in FailedStops(succeeds, n)} ::
              i in FailedStops(succeeds, n) <==> 0 <= i < n && !succeeds(i)
    ensures forall a, b :: 0 <= a < b < |FailedStops(succeeds, n)| ==>
              FailedStops(succeeds, n)[a] < FailedStops(succeeds, n)[b]
  {
    if n > 0 {
      FailedStopsSpec(succeeds, n - 1);
      var before := FailedStops(succeeds, n - 1);
      assert forall a :: 0 <= a < |before| ==> before[a] in before;
    }
  }

  lemma NoFailedStops(errors: seq<nat>, succeeds: nat -> bool)
    ensures errors == errors + FailedStops(succeeds, 0)
  {
  }

  lemma OneMoreFailedStop(errors: seq<nat>, succeeds: nat -> bool, n: nat)
    ensures errors + FailedStops(succeeds, n + 1)
         == errors + FailedStops(succeeds, n) + if succeeds(n) then [] else [n]
  {
  }

  lemma OneMoreStop(before: seq<(nat, seq<Chunk>)>, n: nat, consumed: seq<Chunk>)
    ensures before + StopLog(n, consumed) + [(n, consumed)] == before + StopLog(n + 1, consumed)
  {
  }

  /** The router adds only chunks with a source. */
  predicate OnlySourced(ops: seq<Op>)
  {
    forall i :: 0 <= i < |ops| && ops[i].Feed? ==> ops[i].chunk.source.Some?
  }

  predicate Stops(branches: seq<Branch>)
  {
    exists i :: 0 <= i < |branches| && branches[i].Stop?
  }

  datatype RouterResult = Built(router: Router) | Refused(source: SourceId)

  class Router {
    const cfg: RouterConfig
    const merger: TimeWindowMerger?
    /** The write calls made to each sink, in order. */
    var calls: seq<seq<Chunk>>
    /** One entry per failed call, `on_stop` included: the sink. */
    var sinkErrors: seq<nat>
    /** One entry per incomplete window reported. */
    var incompletes: seq<(nat, seq<SourceId>)>
    /** One entry per `on_stop`: the sink, and all that had been consumed by then. */
    var stopped: seq<(nat, seq<Chunk>)>
    var slept: Duration
    /** Everything taken off the channel. */
    var consumed: seq<Chunk>
    ghost var results: seq<MergeResult>
    ghost var hs: seq<History>
    ghost var ops: seq<Op>

    ghost predicate Valid()
      reads this, merger
    {
      && IsTable(cfg.routes, cfg.table)
      && Delivered(cfg, calls, consumed, ChunksOf(results))
      && incompletes == IncompleteOf(results)
      && (merger == null <==> !cfg.table.HasMergeRoutes())
      && MergerOk(WithSource(consumed), results)
    }

    /** The merger has been fed `fed` and has reported `reported`, over the recorded run. */
    ghost predicate MergerOk(fed: seq<Chunk>, reported: seq<MergeResult>)
      reads this, merger
    {
      if merger == null then reported == []
      else
        && merger.Valid() && IsRun(merger.cfg, hs, ops) && |hs| == |ops| + 1
        && hs[|ops|].pending == merger.pending && hs[|ops|].fed == fed && OnlySourced(ops)
        && ReportsAll(merger.cfg, hs[|ops|].emitted, reported)
    }

    constructor (cfg: RouterConfig, merger: TimeWindowMerger?)
      requires IsTable(cfg.routes, cfg.table) && (merger == null <==> !cfg.table.HasMergeRoutes())
      requires merger != null ==> merger.pending == map[]
      ensures (merger != null ==> merger.Valid()) ==> Valid()
      ensures this.cfg == cfg && this.merger == merger
      ensures consumed == [] && results == [] && stopped == [] && ops == []
    {
      this.cfg, this.merger := cfg, merger;
      calls := seq(|cfg.routes|, (_: nat) => []);
      sinkErrors, incompletes, stopped, slept := [], [], [], 0.0;
      consumed, results, ops := [], [], [];
      hs := [History(map[], [], [], [], false)];
    }

    /**
     Builds the table and, if some route is merged, a merger; refuses routes that name an unknown source. The
     merger expects all sources, whichever the merged routes name. A merge window shorter than a millisecond is
     accepted, but such a router is not `Valid`: it panics at the first chunk.
     */
    static method WithRouting(outcome: SinkBehavior, stopOutcome: nat -> bool, routes: seq<SinkRoute>,
                              sourceIds: seq<SourceId>, config: StreamConfig, sampleRate: u32, channels: u16)
      returns (r: RouterResult)
      ensures r.Built? <==> AllKnown(routes, SetOf(sourceIds))
      ensures r.Refused? ==> FirstUnknown(routes, SetOf(sourceIds), r.source)
      ensures r.Built? ==>
                && fresh(r.router) && r.router.cfg.routes == routes
                && (r.router.merger == null || 0 < AsMillis(config.mergeWindowDuration) ==> r.router.Valid())
                && r.router.cfg.outcome == outcome && r.router.cfg.stopOutcome == stopOutcome
                && r.router.cfg.retryAttempts == config.sinkRetryAttempts
                && r.router.cfg.retryDelay == config.sinkRetryDelay
                && r.router.consumed == [] && r.router.results == [] && r.router.stopped == [] && r.router.ops == []
      ensures r.Built? ==> (r.router.merger != null <==> exists i :: 0 <= i < |routes| && routes[i].Merged?)
      ensures r.Built? && r.router.merger != null ==>
                fresh(r.router.merger) &&
                r.router.merger.cfg == MergerConfig(config.mergeWindowDuration, config.mergeWindowTimeout, sourceIds,
                                                    sampleRate, channels, config.maxPendingWindows)
    {
      hide IsTable, AsMillis;
      var result := NewTable(routes, sourceIds);
      if result.UnknownSource? {
        return Refused(result.source);
      }
      TableHasMergeRoutesIff(routes, result.table);
      var merger: TimeWindowMerger? := null;
      if result.table.HasMergeRoutes() {
        merger := new TimeWindowMerger.WithMaxPending(
          MergerConfig(config.mergeWindowDuration, config.mergeWindowTimeout, sourceIds, sampleRate, channels,
                       config.maxPendingWindows));
      }
      var router := new Router(RouterConfig(routes, result.table, outcome, stopOutcome, config.sinkRetryAttempts,
                                            config.sinkRetryDelay), merger);
      r := Built(router);
    }

    // ---------- writing ----------

    /**
     Calls the sink until it succeeds or the attempts run out. Each failure is one event, and each retry
     waits twice as long as the one before: `r` retries wait `d * (2^r - 1)` in all.
     */
    method WriteToSink(i: nat, chunk: Chunk) returns (ghost a: nat)
      requires i < |calls|
      modifies this`calls, this`sinkErrors, this`slept
      ensures a == Attempts(cfg.outcome, i, |old(calls[i])|, cfg.retryAttempts)
      ensures calls == Called(old(calls), i, chunk, a)
      ensures sinkErrors == old(sinkErrors) + Repeat(i, if cfg.outcome(i, |old(calls[i])| + a - 1) then a - 1 else a)
      ensures slept == old(slept) + cfg.retryDelay * (Pow2(a - 1) - 1) as real
    {
      hide *;
      ghost var start := |calls[i]|;
      var attempts := 0;
      var delay := cfg.retryDelay;
      FirstBackoff(cfg.retryDelay);
      NoCalls(calls, i, chunk);
      RepeatMore(sinkErrors, i, 0);
      while true
        invariant attempts == 0 || attempts < cfg.retryAttempts
        invariant calls == Called(old(calls), i, chunk, attempts) && |calls[i]| == start + attempts
        invariant forall n :: start <= n < start + attempts ==> !cfg.outcome(i, n)
        invariant sinkErrors == old(sinkErrors) + Repeat(i, attempts)
        invariant delay == Backoff(cfg.retryDelay, attempts)
        invariant slept == old(slept) + Waited(cfg.retryDelay, attempts)
        decreases cfg.retryAttempts - attempts
      {
        var ok := cfg.outcome(i, |calls[i]|);
        OneMoreCall(old(calls), i, chunk, attempts);
        calls := calls[i := calls[i] + [chunk]];
        MoreAttempts(cfg, i, start, attempts, ok);
        WaitedIs(cfg.retryDelay, attempts);
        if ok {
          a := attempts + 1;
          return;
        }
        attempts := attempts + 1;
        RepeatMore(old(sinkErrors), i, attempts - 1);
        sinkErrors := sinkErrors + [i];
        if attempts >= cfg.retryAttempts {
          a := attempts;
          return;
        }
        BackoffDoubles(cfg.retryDelay, attempts - 1);
        slept := slept + delay;
        delay := delay * 2.0;
      }
    }

    method WriteToIndices(chunk: Chunk, indices: seq<nat>)
      requires Once(indices) && forall i :: i in indices ==> i < |calls|
      modifies this`calls, this`sinkErrors, this`slept
      ensures Writes(cfg, old(calls), calls, chunk, indices)
    {
      hide Attempts, Repeat;
      for k := 0 to |indices|
        invariant Writes(cfg, old(calls), calls, chunk, indices[..k])
      {
        var i := indices[k];
        assert i in indices && i !in indices[..k];
        assert indices[..k + 1] == indices[..k] + [i];
        ghost var a := WriteToSink(i, chunk);
      }
      assert indices[..|indices|] == indices;
    }

    /** Every group in turn, so every merged sink. */
    method WriteMergedChunk(chunk: Chunk)
      requires IsTable(cfg.routes, cfg.table) && |calls| == |cfg.routes|
      modifies this`calls, this`sinkErrors, this`slept
      ensures Writes(cfg, old(calls), calls, chunk, Flatten(cfg.table.mergeGroups))
    {
      hide IsTable, Flatten, Writes;
      var groups := cfg.table.mergeGroups;
      MergedTargets(cfg.routes, cfg.table);
      WritesNothing(cfg, calls, chunk);
      NoGroups(groups);
      for g := 0 to |groups|
        invariant |calls| == |cfg.routes| && Writes(cfg, old(calls), calls, chunk, Flatten(groups[..g]))
      {
        ghost var before := calls;
        GroupInFlatten(groups, g);
        WriteToIndices(chunk, groups[g]);
        WritesBoth(cfg, old(calls), before, calls, chunk, Flatten(groups[..g]), groups[g]);
        WritesKeepLength(cfg, before, calls, chunk, groups[g]);
      }
      assert groups[..|groups|] == groups;
    }

    /** Writes the merger's results and reports those that lack a source. */
    method EmitResults(found: seq<MergeResult>)
      requires IsTable(cfg.routes, cfg.table) && Delivered(cfg, calls, consumed, ChunksOf(results))
      requires incompletes == IncompleteOf(results)
      modifies this`calls, this`sinkErrors, this`slept, this`incompletes, this`results
      ensures results == old(results) + found
      ensures Delivered(cfg, calls, consumed, ChunksOf(results)) && incompletes == IncompleteOf(results)
    {
      hide IsTable, Delivered, IncompleteOf, ChunksOf;
      for i := 0 to |found|
        invariant results == old(results) + found[..i]
        invariant Delivered(cfg, calls, consumed, ChunksOf(results)) && incompletes == IncompleteOf(results)
      {
        var result := found[i];
        ghost var before := calls;
        DeliveredLength(cfg, calls, consumed, ChunksOf(results));
        WriteMergedChunk(result.chunk);
        MergedDelivers(cfg, before, calls, consumed, ChunksOf(results), result.chunk);
        ChunksOfAppend(results, result);
        IncompleteOfAppend(results, result);
        if result.missing != [] {
          incompletes := incompletes + [(result.windowId, result.missing)];
        }
        results := results + [result];
        assert found[..i + 1] == found[..i] + [result];
      }
    }

    method RouteChunk(chunk: Chunk, now: Duration)
      requires Valid()
      modifies this`calls, this`sinkErrors, this`slept, this`incompletes, this`consumed, this`results, this`hs,
          this`ops, merger
      ensures Valid() && consumed == old(consumed) + [chunk]
      ensures merger != null ==> ops == old(ops) + Feeds([Arrival(chunk, now)])
    {
      hide IsTable, Delivered, IncompleteOf, ChunksOf, WithSource, IsRun, ReportsAll, Feeds, PendingOk,
           MergerConfig.Valid;
      FeedOfChunk(Arrival(chunk, now));
      WriteDirect(chunk);
      WithSourceAppend(consumed, chunk);
      consumed := consumed + [chunk];
      if chunk.source.Some? && merger != null {
        var found := FeedMerger(chunk, now, WithSource(old(consumed)));
        EmitResults(found);
      } else {
        assert ops + [] == ops;
      }
    }

    /** The broadcast list, then the list of the chunk's source. */
    method WriteDirect(chunk: Chunk)
      requires IsTable(cfg.routes, cfg.table) && Delivered(cfg, calls, consumed, ChunksOf(results))
      modifies this`calls, this`sinkErrors, this`slept
      ensures Delivered(cfg, calls, consumed + [chunk], ChunksOf(results))
    {
      hide IsTable, ChunksOf, Writes, Delivered, Once;
      DirectListIsOnce(cfg, chunk);
      DeliveredLength(cfg, calls, consumed, ChunksOf(results));
      var broadcast := cfg.table.broadcast;
      OnceInParts(broadcast, if chunk.source.Some? then cfg.table.DirectSinks(chunk.source.value) else []);
      WriteToIndices(chunk, broadcast);
      ghost var middle := calls;
      WritesKeepLength(cfg, old(calls), middle, chunk, broadcast);
      if chunk.source.Some? {
        var direct := cfg.table.DirectSinks(chunk.source.value);
        WriteToIndices(chunk, direct);
        WritesBoth(cfg, old(calls), middle, calls, chunk, broadcast, direct);
      } else {
        assert broadcast + [] == broadcast;
      }
      DirectDelivers(cfg, old(calls), calls, consumed, ChunksOf(results), chunk);
    }

    // ---------- the merger ----------

    method FeedMerger(chunk: Chunk, now: Duration, ghost fed: seq<Chunk>) returns (found: seq<MergeResult>)
      requires merger != null && chunk.source.Some? && MergerOk(fed, results)
      modifies this`hs, this`ops, merger
      ensures MergerOk(fed + [chunk], results + found) && ops == old(ops) + [Feed(chunk, now)]
    {
      hide Fed, Reports, IsRun, Replaced, HasId, PendingOk;
      ghost var h, mcfg := hs[|ops|], merger.cfg;
      found := merger.AddChunk(chunk, now);
      ghost var o := Fed(mcfg, h.pending, chunk, now);
      ghost var h' := History(o.pending, h.fed + [chunk], h.emitted + o.emitted, h.superseded + Replaced(mcfg,
          h.pending, chunk),
                              h.lateFeed || HasId(h.emitted, mcfg.WindowId(chunk.timestamp)));
      Extend(Feed(chunk, now), h');
      ReportsConcat(mcfg, h.emitted, results, o.emitted, found);
    }

    ghost method Extend(op: Op, h: History)
      requires merger != null && merger.cfg.Valid() && IsRun(merger.cfg, hs, ops) && |hs| == |ops| + 1 &&
          Next(merger.cfg, hs[|ops|], op, h)
      modifies this`hs, this`ops
      ensures IsRun(merger.cfg, hs, ops) && |hs| == |ops| + 1 && hs[|ops|] == h && ops == old(ops) + [op]
    {
      hide Next;
      RunExtends(merger.cfg, hs, ops, op, h);
      hs, ops := hs + [h], ops + [op];
    }

    method CheckMergeTimeouts(now: Duration)
      requires Valid()
      modifies this`calls, this`sinkErrors, this`slept, this`incompletes, this`results, this`hs, this`ops, merger
      ensures Valid()
      ensures merger != null ==> ops == old(ops) + [MergerRuns.Tick(now)]
      ensures merger != null ==> merger.pending == old(merger.pending) - TimedOut(merger.cfg, old(merger.pending), now)
    {
      hide IsTable, Delivered, IncompleteOf, ChunksOf, WithSource, IsRun, Reports, PendingOk, TimedOut,
           EmitsExactly;
      if merger != null {
        ghost var h, mcfg := hs[|ops|], merger.cfg;
        var found, emitted := merger.CheckTimeouts(now);
        ghost var h' := h.(pending := merger.pending, emitted := h.emitted + emitted);
        Extend(MergerRuns.Tick(now), h');
        ReportsConcat(mcfg, h.emitted, results, emitted, found);
        EmitResults(found);
      }
    }

    // ---------- the run loop ----------

    method StopSinks()
      requires Valid()
      modifies this`stopped, this`sinkErrors
      ensures Valid()
      ensures stopped == old(stopped) + StopLog(|cfg.routes|, consumed)
      ensures sinkErrors == old(sinkErrors) + FailedStops(cfg.stopOutcome, |cfg.routes|)
    {
      hide *;
      NoStops(consumed);
      NoFailedStops(sinkErrors, cfg.stopOutcome);
      for i := 0 to |cfg.routes|
        invariant Valid() && stopped == old(stopped) + StopLog(i, consumed)
        invariant sinkErrors == old(sinkErrors) + FailedStops(cfg.stopOutcome, i)
      {
        OneMoreStop(old(stopped), i, consumed);
        OneMoreFailedStop(old(sinkErrors), cfg.stopOutcome, i);
        StopSink(i);
      }
    }

    /** A sink's `on_stop`, of which only the moment is recorded, and an event if it fails. */
    method StopSink(i: nat)
      requires Valid()
      modifies this`stopped, this`sinkErrors
      ensures Valid() && stopped == old(stopped) + [(i, consumed)]
      ensures sinkErrors == old(sinkErrors) + if cfg.stopOutcome(i) then [] else [i]
    {
      hide IsTable, Delivered, IncompleteOf, ChunksOf, WithSource, IsRun, ReportsAll;
      stopped := stopped + [(i, consumed)];
      if !cfg.stopOutcome(i) {
        sinkErrors := sinkErrors + [i];
      }
    }

    method DrainAndFinalize(now: Duration, queued: seq<Arrival>)
      requires Valid()
      modifies this`calls, this`sinkErrors, this`slept, this`incompletes, this`consumed, this`results, this`hs,
          this`ops, merger
      ensures Valid() && consumed == old(consumed) + ChunksIn(queued)
      ensures merger != null ==> ops == old(ops) + ([MergerRuns.Tick(now)] + Feeds(queued))
    {
      hide Valid, Feeds, ChunksIn, TimedOut;
      CheckMergeTimeouts(now);
      NoFeeds();
      for i := 0 to |queued|
        invariant Valid() && consumed == old(consumed) + ChunksIn(queued[..i])
        invariant merger != null ==> ops == old(ops) + ([MergerRuns.Tick(now)] + Feeds(queued[..i]))
      {
        FeedsAppend(queued[..i], queued[i]);
        assert queued[..i + 1] == queued[..i] + [queued[i]];
        RouteChunk(queued[i].chunk, queued[i].at);
      }
      assert queued[..|queued|] == queued;
    }

    /** One turn of the loop; true if it was the last. */
    method Turn(branch: Branch) returns (exits: bool)
      requires Valid()
      modifies this`calls, this`sinkErrors, this`slept, this`incompletes, this`consumed, this`results, this`hs,
          this`ops, merger
      ensures Valid() && (exits <==> branch.Stop?)
      ensures consumed == old(consumed) + TakenInTurn(branch)
      ensures merger != null ==> ops == old(ops) + OpsInTurn(branch)
    {
      hide Valid, Feeds, TimedOut;
      exits := false;
      match branch {
        case Recv(chunk, now) => RouteChunk(chunk, now);
        case Tick(now) => CheckMergeTimeouts(now);
        case Stop(now, queued) =>
          DrainAndFinalize(now, queued);
          exits := true;
      }
    }

    /**
     The router's run loop, against any sequence of `select!` outcomes. It ends only on a stop command; by
     then everything it took off the channel, the queue at the stop included, has been routed; and only
     then is each sink stopped, once. What the merger still holds is dropped: at most `max_pending`
     windows, none of them complete; `StopFinalizes.StopFinalizesAllIff` says when it is nothing.
     */
    method Run(branches: seq<Branch>) returns (exited: bool)
      requires Valid()
      modifies this, merger
      ensures Valid()
      ensures consumed == old(consumed) + Taken(branches)
      ensures merger != null ==> ops == old(ops) + OpsOf(branches)
      ensures exited <==> Stops(branches)
      ensures stopped == old(stopped) + if exited then StopLog(|cfg.routes|, consumed) else []
      ensures merger != null ==> |merger.pending| <= merger.cfg.maxPending &&
                                 forall id :: id in merger.pending ==> !merger.cfg.IsComplete(merger.pending[id])
    {
      hide *;
      exited := false;
      var i := 0;
      NothingTaken(branches);
      while i < |branches| && !exited
        invariant i <= |branches| && Valid() && stopped == old(stopped)
        invariant consumed + (if exited then [] else Taken(branches[i..])) == old(consumed) + Taken(branches)
        invariant merger != null ==>
                    ops + (if exited then [] else OpsOf(branches[i..])) == old(ops) + OpsOf(branches)
        invariant if exited then Stops(branches) else forall j :: 0 <= j < i ==> !branches[j].Stop?
        decreases |branches| - i
      {
        TakenStep(branches, i);
        ghost var before, done := consumed, ops;
        exited := Turn(branches[i]);
        Regroup(before, TakenInTurn(branches[i]), if exited then [] else Taken(branches[i + 1..]));
        Regroup(done, OpsInTurn(branches[i]), if exited then [] else OpsOf(branches[i + 1..]));
        i := i + 1;
      }
      if exited {
        StopSinks();
      } else {
        NeverStopped(branches, consumed);
      }
      LeftoverWindows();
    }

    lemma LeftoverWindows()
      requires Valid()
      ensures merger != null ==> |merger.pending| <= merger.cfg.maxPending &&
                                 forall id :: id in merger.pending ==> !merger.cfg.IsComplete(merger.pending[id])
    {
      hide IsTable, Delivered, IncompleteOf, ChunksOf, WithSource, IsRun, ReportsAll;
    }
  }

  lemma Regroup<T>(a: seq<T>, b: seq<T>, c: seq<T>)
    ensures a + (b + c) == a + b + c
  {
  }

  lemma NothingTaken(branches: seq<Branch>)
    ensures branches[0..] == branches
  {
  }

  lemma TakenStep(branches: seq<Branch>, i: nat)
    requires i < |branches|
    ensures var last := branches[i].Stop?;
            && Taken(branches[i..]) == TakenInTurn(branches[i]) + (if last then [] else Taken(branches[i + 1..]))
            && OpsOf(branches[i..]) == OpsInTurn(branches[i]) + (if last then [] else OpsOf(branches[i + 1..]))
    ensures branches[i].Stop? ==> Stops(branches)
  {
    hide Feeds, TakenInTurn, OpsInTurn;
    assert branches[i..][0] == branches[i] && branches[i..][1..] == branches[i + 1..];
  }

  lemma NeverStopped(branches: seq<Branch>, consumed: seq<Chunk>)
    requires forall j :: 0 <= j < |branches| ==> !branches[j].Stop?
    ensures !Stops(branches) && consumed + Taken(branches[|branches|..]) == consumed
    ensures OpsOf(branches[|branches|..]) == []
  {
  }

  /** After one more call, this is the number of attempts, or it is not yet and the limit allows another. */
  lemma MoreAttempts(cfg: RouterConfig, i: nat, start: nat, attempts: nat, ok: bool)
    requires attempts == 0 || attempts < cfg.retryAttempts
    requires forall n :: start <= n < start + attempts ==> !cfg.outcome(i, n)
    requires ok == cfg.outcome(i, start + attempts)
    ensures ok || attempts + 1 >= cfg.retryAttempts ==> attempts + 1 == Attempts(cfg.outcome, i, start,
        cfg.retryAttempts)
  {
    hide Attempts;
    AttemptsLaw(cfg.outcome, i, start, cfg.retryAttempts, attempts + 1);
  }

  lemma NoGroups(groups: seq<seq<nat>>)
    ensures Flatten(groups[..0]) == []
  {
  }

  lemma {:induction false} GroupInFlatten(groups: seq<seq<nat>>, g: nat)
    requires g < |groups| && Once(Flatten(groups))
    ensures Flatten(groups[..g + 1]) == Flatten(groups[..g]) + groups[g]
    ensures Once(Flatten(groups[..g + 1])) && Once(groups[g])
    ensures forall i :: i in groups[g] ==> i in Flatten(groups)
    decreases |groups| - g
  {
    assert groups[..g + 1][..g] == groups[..g];
    FlattenPrefix(groups, g + 1);
    var a, b, all := Flatten(groups[..g]), groups[g], Flatten(groups);
    assert forall k :: 0 <= k < |b| ==> b[k] == all[|a| + k];
    assert forall k :: 0 <= k < |a + b| ==> (a + b)[k] == all[k];
  }

  lemma {:induction false} FlattenPrefix(groups: seq<seq<nat>>, g: nat)
    requires g <= |groups|
    ensures Flatten(groups[..g]) <= Flatten(groups)
  {
    if g < |groups| {
      FlattenPrefix(groups[..|groups| - 1], g);
      assert groups[..|groups| - 1][..g] == groups[..g];
    } else {
      assert groups[..g] == groups;
    }
  }

  lemma WritesKeepLength(cfg: RouterConfig, before: seq<seq<Chunk>>, after: seq<seq<Chunk>>, c: Chunk, sinks: seq<nat>)
    requires Writes(cfg, before, after, c, sinks)
    ensures |before| == |after|
  {
  }

  lemma DeliveredLength(cfg: RouterConfig, calls: seq<seq<Chunk>>, consumed: seq<Chunk>, merged: seq<Chunk>)
    requires Delivered(cfg, calls, consumed, merged)
    ensures |calls| == |cfg.routes|
  {
  }

  lemma ChunksOfAppend(results: seq<MergeResult>, r: MergeResult)
    ensures ChunksOf(results + [r]) == ChunksOf(results) + [r.chunk]
  {
  }
}
