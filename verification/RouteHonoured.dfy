/**
 What a merged route promises its sink (src/builder.rs, `add_sink_merged`) and what the sink is written
 (src/pipeline/router.rs, src/pipeline/merger.rs): the average of the sources the route names, or of all.
 */
module RouteHonoured {

  import opened Arith
  import opened Audio
  import opened Merger
  import opened MergeValue
  import opened MergerRuns
  import opened Routing
  import opened Retry
  import opened Routers

  /**
   A run of the merger on what the router consumed, what it reported, what the router's sinks were called with, and
   call `e` to sink `i`.
   */
  ghost predicate IsCall(rcfg: RouterConfig, mcfg: MergerConfig, hs: seq<History>, ops: seq<Op>,
                         results: seq<MergeResult>, calls: seq<seq<Chunk>>, consumed: seq<Chunk>, i: nat, e: nat,
                         w: Window, c: Chunk)
    requires mcfg.Valid()
  {
    && IsRun(mcfg, hs, ops) && |hs| == |ops| + 1 && ReportsAll(mcfg, hs[|ops|].emitted, results)
    && hs[|ops|].fed == WithSource(consumed)
    && Delivered(rcfg, calls, consumed, ChunksOf(results))
    && i < |calls| && e < |calls[i]| && e < |results|
    && hs[|ops|].emitted[e].window == w && calls[i][e] == c
  }

  /** On some run of this router and its merger, sink `i` is called with `c` for the emitted window `w`. */
  ghost predicate SinkGets(rcfg: RouterConfig, mcfg: MergerConfig, i: nat, w: Window, c: Chunk)
    requires mcfg.Valid()
  {
    exists hs, ops, results, calls, consumed, e: nat ::
      IsCall(rcfg, mcfg, hs, ops, results, calls, consumed, i, e, w, c)
  }

  /**
   "Combines audio from the specified sources by averaging samples": whenever all the sources have delivered, what
   the sink is called with is the average of the sources its route names.
   */
  ghost predicate Honoured(rcfg: RouterConfig, mcfg: MergerConfig, i: nat)
    requires mcfg.Valid() && i < |rcfg.routes| && rcfg.routes[i].Merged?
  {
    forall w, c, len: nat
      | SinkGets(rcfg, mcfg, i, w, c) && EvenWindow(w, len) && w.chunks.Keys == SetOf(mcfg.expected) ::
      AverageOf(w, rcfg.routes[i].sources, len, c)
  }

  ghost predicate Reliable(rcfg: RouterConfig, i: nat)
  {
    forall n: nat :: rcfg.outcome(i, n)
  }

  // ---------- what the sink gets is the merge of the window ----------

  lemma SinkGetsTheMerge(rcfg: RouterConfig, mcfg: MergerConfig, i: nat, w: Window, c: Chunk)
    requires mcfg.Valid() && i < |rcfg.routes| && rcfg.routes[i].Merged? && Reliable(rcfg, i)
    requires SinkGets(rcfg, mcfg, i, w, c)
    ensures IsMergeOf(mcfg, w, c)
  {
    hide IsRun, IsMergeOf, CallsFor;
    var hs: seq<History>, ops, results, calls, consumed, e: nat :|
      IsCall(rcfg, mcfg, hs, ops, results, calls, consumed, i, e, w, c);
    ReliableSinkGetsEachOnce(rcfg.outcome, i, rcfg.retryAttempts, ChunksOf(results));
    assert Reports(mcfg, hs[|ops|].emitted[e], results[e]);
  }

  /** The objects of the code do this: a valid router has called its merged sinks with what its merger emitted. */
  lemma RouterCallsMergedSinks(router: Router, i: nat, e: nat)
    requires router.Valid() && router.merger != null && i < |router.cfg.routes| && router.cfg.routes[i].Merged?
    requires Reliable(router.cfg, i) && e < |router.results|
    ensures router.merger.cfg.Valid() && |router.hs| == |router.ops| + 1
    ensures i < |router.calls| && |router.calls[i]| == |router.results| == |router.hs[|router.ops|].emitted|
    ensures SinkGets(router.cfg, router.merger.cfg, i, router.hs[|router.ops|].emitted[e].window, router.calls[i][e])
  {
    hide IsRun, IsTable, Reports, IncompleteOf, WithSource, CallsFor, PendingOk;
    ReliableSinkGetsEachOnce(router.cfg.outcome, i, router.cfg.retryAttempts, ChunksOf(router.results));
    assert IsCall(router.cfg, router.merger.cfg, router.hs, router.ops, router.results, router.calls, router.consumed,
                  i, e, router.hs[|router.ops|].emitted[e].window, router.calls[i][e]);
  }

  // ---------- a run that tells the difference ----------

  /** The merger once the first `k` sources have delivered their marked chunk, the last not being among them. */
  function Gathered(mcfg: MergerConfig, sources: set<SourceId>, k: nat): History
    requires mcfg.Valid() && k <= |mcfg.expected|
  {
    var chunks := map s | s in SetOf(mcfg.expected[..k]) :: Marked(sources, s);
    var fed := seq(k, (j: nat) requires j < |mcfg.expected| => Marked(sources, mcfg.expected[j]));
    History(if k == 0 then map[] else map[0 := Window(chunks, 0.0, FromMillis(0 * AsMillis(mcfg.windowDuration)))],
            fed, [], [], false)
  }

  lemma WindowZero(mcfg: MergerConfig)
    requires mcfg.Valid()
    ensures mcfg.WindowId(0.0) == 0
  {
    DivIsUnique(0, AsMillis(mcfg.windowDuration), 0);
  }

  lemma GatherOne(mcfg: MergerConfig, sources: set<SourceId>, k: nat)
    requires mcfg.Valid() && Distinct(mcfg.expected) && k < |mcfg.expected|
    ensures var c := Marked(sources, mcfg.expected[k]);
            var p' := Inserted(mcfg, Gathered(mcfg, sources, k).pending, c, 0.0);
            && mcfg.WindowId(c.timestamp) == 0
            && p' == Gathered(mcfg, sources, k + 1).pending && p'.Keys == {0}
            && Replaced(mcfg, Gathered(mcfg, sources, k).pending, c) == []
            && (mcfg.IsComplete(p'[0]) <==> k + 1 == |mcfg.expected|)
  {
    hide AsMillis, FromMillis, MergerConfig.WindowId, MergerConfig.IsComplete, MergerConfig.Valid;
    WindowZero(mcfg);
    GatheredChunks(mcfg, sources, k);
    GatheredAll(mcfg, sources, k + 1);
  }

  lemma GatheredChunks(mcfg: MergerConfig, sources: set<SourceId>, k: nat)
    requires Distinct(mcfg.expected) && k < |mcfg.expected|
    ensures mcfg.expected[k] !in SetOf(mcfg.expected[..k])
    ensures var s := mcfg.expected[k];
            (map t | t in SetOf(mcfg.expected[..k + 1]) :: Marked(sources, t))
            == (map t | t in SetOf(mcfg.expected[..k]) :: Marked(sources, t))[s := Marked(sources, s)]
  {
    hide Marked;
    var before, after, s := mcfg.expected[..k], mcfg.expected[..k + 1], mcfg.expected[k];
    assert after == before + [s];
    assert SetOf(after) == SetOf(before) + {s} && s !in before;
  }

  lemma GatheredAll(mcfg: MergerConfig, sources: set<SourceId>, k: nat)
    requires mcfg.Valid() && Distinct(mcfg.expected) && 0 < k <= |mcfg.expected|
    ensures mcfg.IsComplete(Gathered(mcfg, sources, k).pending[0]) <==> k == |mcfg.expected|
  {
    hide Marked;
    if k == |mcfg.expected| {
      assert mcfg.expected[..k] == mcfg.expected;
    } else {
      assert mcfg.expected[k] in mcfg.expected && mcfg.expected[k] !in mcfg.expected[..k];
    }
  }

  lemma {:induction false} GatherSome(mcfg: MergerConfig, sources: set<SourceId>, k: nat)
    returns (hs: seq<History>, ops: seq<Op>)
    requires mcfg.Valid() && Distinct(mcfg.expected) && k < |mcfg.expected| && (0 < k ==> 0 < mcfg.maxPending)
    ensures IsRun(mcfg, hs, ops) && |hs| == |ops| + 1 && hs[|ops|] == Gathered(mcfg, sources, k)
  {
    hide Gathered, Next, MergerConfig.Valid, Distinct;
    if k == 0 {
      NothingGathered(mcfg, sources);
      hs, ops := [Gathered(mcfg, sources, 0)], [];
    } else {
      hs, ops := GatherSome(mcfg, sources, k - 1);
      var op, h' := Feed(Marked(sources, mcfg.expected[k - 1]), 0.0), Gathered(mcfg, sources, k);
      GatherStep(mcfg, sources, k - 1);
      RunExtends(mcfg, hs, ops, op, h');
      hs, ops := hs + [h'], ops + [op];
    }
  }

  lemma NothingGathered(mcfg: MergerConfig, sources: set<SourceId>)
    requires mcfg.Valid()
    ensures Gathered(mcfg, sources, 0) == History(map[], [], [], [], false)
  {
  }

  lemma GatherStep(mcfg: MergerConfig, sources: set<SourceId>, k: nat)
    requires mcfg.Valid() && Distinct(mcfg.expected) && k + 1 < |mcfg.expected| && 0 < mcfg.maxPending
    ensures Next(mcfg, Gathered(mcfg, sources, k), Feed(Marked(sources, mcfg.expected[k]), 0.0),
                 Gathered(mcfg, sources, k + 1))
  {
    hide AsMillis, FromMillis, MergerConfig.WindowId, MergerConfig.IsComplete, Inserted, Replaced, HasId, Evicted;
    GatherOne(mcfg, sources, k);
    var h, h', c := Gathered(mcfg, sources, k), Gathered(mcfg, sources, k + 1), Marked(sources, mcfg.expected[k]);
    NotFull(mcfg, h'.pending);
    assert h'.fed == h.fed + [c];
    NothingHasId(0);
  }

  lemma NothingHasId(id: nat)
    ensures !HasId([], id)
  {
  }

  lemma NotFull(mcfg: MergerConfig, p: Pending)
    requires p.Keys == {0} && 0 < mcfg.maxPending
    ensures Evicted(p, mcfg.maxPending) == Outcome(p, [])
  {
    assert |p| == |p.Keys|;
  }

  /** Every source delivers its marked chunk, and the merger emits the one complete window of them. */
  lemma GatherAll(mcfg: MergerConfig, sources: set<SourceId>) returns (hs: seq<History>, ops: seq<Op>, w: Window)
    requires mcfg.Valid() && Distinct(mcfg.expected) && 0 < |mcfg.expected|
    requires 0 < mcfg.maxPending || |mcfg.expected| == 1
    ensures IsRun(mcfg, hs, ops) && hs[|ops|].emitted == [Emission(0, w)]
    ensures w.chunks == map s | s in SetOf(mcfg.expected) :: Marked(sources, s)
  {
    hide AsMillis, FromMillis, MergerConfig.WindowId, MergerConfig.IsComplete, Inserted, Replaced, HasId;
    var k := |mcfg.expected| - 1;
    hs, ops := GatherSome(mcfg, sources, k);
    GatherOne(mcfg, sources, k);
    var h, all, c := hs[|ops|], Gathered(mcfg, sources, k + 1), Marked(sources, mcfg.expected[k]);
    assert mcfg.expected[..k + 1] == mcfg.expected;
    w := all.pending[0];
    assert all.pending - {0} == map[];
    assert Fed(mcfg, h.pending, c, 0.0) == Outcome(map[], [Emission(0, w)] + []);
    NothingHasId(0);
    var h' := History(map[], h.fed + [c], [] + ([Emission(0, w)] + []), [] + [], false);
    assert Next(mcfg, h, Feed(c, 0.0), h');
    RunExtends(mcfg, hs, ops, Feed(c, 0.0), h');
    hs, ops := hs + [h'], ops + [Feed(c, 0.0)];
  }

  /** What a run emits, a reliable merged sink gets. */
  lemma SinkGetsWindow(rcfg: RouterConfig, mcfg: MergerConfig, i: nat, hs: seq<History>, ops: seq<Op>, w: Window)
    returns (c: Chunk)
    requires mcfg.Valid() && i < |rcfg.routes| && rcfg.routes[i].Merged? && Reliable(rcfg, i)
    requires IsRun(mcfg, hs, ops) && hs[|ops|].emitted == [Emission(0, w)] && w.chunks != map[]
    ensures SinkGets(rcfg, mcfg, i, w, c)
  {
    hide IsRun, CallsFor, MergedFrom;
    var s :| s in w.chunks;
    c := MergedFrom(mcfg, w, s);
    var r := MergeResult(c, 0, Missing(mcfg.expected, w.chunks));
    assert Reports(mcfg, Emission(0, w), r);
    RunHasLast(mcfg, hs, ops);
    var fed := hs[|ops|].fed;
    FedHasSources(mcfg, hs, ops, |ops|);
    var calls := seq(|rcfg.routes|, (j: nat) requires j < |rcfg.routes| =>
      CallsFor(rcfg.outcome, j, rcfg.retryAttempts, Wanted(rcfg.routes[j], fed, ChunksOf([r]))));
    assert Delivered(rcfg, calls, fed, ChunksOf([r]));
    ReliableSinkGetsEachOnce(rcfg.outcome, i, rcfg.retryAttempts, ChunksOf([r]));
    assert IsCall(rcfg, mcfg, hs, ops, [r], calls, fed, i, 0, w, c);
    assert calls[i][0] == c;
  }

  /** The merger is fed only chunks with a source. */
  lemma {:induction false} FedHasSources(mcfg: MergerConfig, hs: seq<History>, ops: seq<Op>, i: nat)
    requires mcfg.Valid() && IsRun(mcfg, hs, ops) && i < |hs|
    ensures WithSource(hs[i].fed) == hs[i].fed
  {
    hide Fed, TimedOutStep, MergerConfig.WindowId, HasId, Replaced, WithSource;
    if i == 0 {
      assert WithSource([]) == [] by { NothingWithSource(); }
    } else {
      FedHasSources(mcfg, hs, ops, i - 1);
      assert Next(mcfg, hs[i - 1], ops[i - 1], hs[i]);
      if ops[i - 1].Feed? && ops[i - 1].chunk.source.Some? {
        WithSourceAppend(hs[i - 1].fed, ops[i - 1].chunk);
      }
    }
  }

  lemma NothingWithSource()
    ensures WithSource([]) == []
  {
  }

  lemma RunHasLast(mcfg: MergerConfig, hs: seq<History>, ops: seq<Op>)
    requires mcfg.Valid() && IsRun(mcfg, hs, ops)
    ensures |hs| == |ops| + 1
  {
  }

  // ---------- no pending windows, no complete ones ----------

  /** With `max_pending` zero and several sources a window leaves with its first chunk. */
  lemma {:induction false} NoneComplete(mcfg: MergerConfig, hs: seq<History>, ops: seq<Op>, i: nat)
    requires mcfg.Valid() && IsRun(mcfg, hs, ops) && i < |hs|
    requires mcfg.maxPending == 0 && Distinct(mcfg.expected) && 1 < |mcfg.expected|
    ensures forall e :: 0 <= e < |hs[i].emitted| ==> !mcfg.IsComplete(hs[i].emitted[e].window)
  {
    hide Fed, Inserted, TimedOutStep, Replaced, HasId, PendingOk, Conserved, AsMillis, FromMillis,
         MergerConfig.WindowId, MergerConfig.IsComplete;
    if i > 0 {
      NoneComplete(mcfg, hs, ops, i - 1);
      RunConserves(mcfg, hs, ops, i - 1);
      var h, h' := hs[i - 1], hs[i];
      NothingPending(mcfg, h.pending);
      assert Next(mcfg, h, ops[i - 1], h');
      match ops[i - 1]
      case Feed(c, now) =>
        if c.source.Some? {
          LeavesAlone(mcfg, c, now);
        }
      case Tick(now) =>
        var es: seq<Emission> :| TimedOutStep(mcfg, h.pending, now, h'.pending, es) &&
                                 h' == h.(pending := h'.pending, emitted := h.emitted + es);
        NothingTimesOut(mcfg, now, h'.pending, es);
    }
  }

  lemma NothingPending(mcfg: MergerConfig, p: Pending)
    requires mcfg.Valid() && PendingOk(mcfg, p) && mcfg.maxPending == 0
    ensures p == map[]
  {
  }

  lemma NothingTimesOut(mcfg: MergerConfig, now: Duration, p': Pending, es: seq<Emission>)
    requires TimedOutStep(mcfg, map[], now, p', es)
    ensures es == []
  {
    FirstEmitted(es, map[], TimedOut(mcfg, map[], now));
  }

  lemma LeavesAlone(mcfg: MergerConfig, c: Chunk, now: Duration)
    requires mcfg.Valid() && c.source.Some? && mcfg.maxPending == 0
    requires Distinct(mcfg.expected) && 1 < |mcfg.expected|
    ensures forall e :: e in Fed(mcfg, map[], c, now).emitted ==> !mcfg.IsComplete(e.window)
  {
    FedEmitsAtMostOne(mcfg, map[], c, now);
    hide Fed, AsMillis, FromMillis, MergerConfig.WindowId;
    var id := mcfg.WindowId(c.timestamp);
    var p' := Inserted(mcfg, map[], c, now);
    assert p'.Keys == {id} && p'[id].chunks.Keys == {c.source.value};
    assert mcfg.expected[0] in mcfg.expected && mcfg.expected[1] in mcfg.expected;
    assert Least(p'.Keys) == id;
  }

  // ---------- the exact condition ----------

  /**
   The merger is given all the sources, whatever the route says. So the route of a merged sink is honoured if and
   only if it names every source, or there is nothing to honour because no window is ever completed.
   */
  lemma MergedRouteHonouredIff(rcfg: RouterConfig, mcfg: MergerConfig, i: nat)
    requires mcfg.Valid() && Distinct(mcfg.expected) && 0 < |mcfg.expected| <= 65536
    requires i < |rcfg.routes| && rcfg.routes[i].Merged? && Reliable(rcfg, i)
    ensures Honoured(rcfg, mcfg, i)
       <==> rcfg.routes[i].sources == SetOf(mcfg.expected) || (mcfg.maxPending == 0 && 1 < |mcfg.expected|)
  {
    hide SinkGets, EvenWindow, AverageOf, IsMergeOf, IsRun, MergerConfig.Valid, Reliable, Distinct;
    var sources := rcfg.routes[i].sources;
    if sources == SetOf(mcfg.expected) {
      forall w, c, len: nat
        | SinkGets(rcfg, mcfg, i, w, c) && EvenWindow(w, len) && w.chunks.Keys == SetOf(mcfg.expected)
        ensures AverageOf(w, sources, len, c)
      {
        SinkGetsTheMerge(rcfg, mcfg, i, w, c);
        CompleteAverage(mcfg, w, len, c);
      }
    } else if mcfg.maxPending == 0 && 1 < |mcfg.expected| {
      forall w, c | SinkGets(rcfg, mcfg, i, w, c)
        ensures w.chunks.Keys != SetOf(mcfg.expected)
      {
        NeverComplete(rcfg, mcfg, i, w, c);
      }
    } else {
      var hs, ops, w := GatherAll(mcfg, sources);
      assert w.chunks.Keys == SetOf(mcfg.expected) && mcfg.expected[0] in w.chunks;
      var c := SinkGetsWindow(rcfg, mcfg, i, hs, ops, w);
      SinkGetsTheMerge(rcfg, mcfg, i, w, c);
      MarkedWindowTells(mcfg, sources, w, c);
    }
  }

  lemma NeverComplete(rcfg: RouterConfig, mcfg: MergerConfig, i: nat, w: Window, c: Chunk)
    requires mcfg.Valid() && SinkGets(rcfg, mcfg, i, w, c)
    requires mcfg.maxPending == 0 && Distinct(mcfg.expected) && 1 < |mcfg.expected|
    ensures w.chunks.Keys != SetOf(mcfg.expected)
  {
    hide IsRun, Delivered, Reports;
    var hs, ops, results, calls, consumed, e: nat :|
      IsCall(rcfg, mcfg, hs, ops, results, calls, consumed, i, e, w, c);
    NoneComplete(mcfg, hs, ops, |ops|);
  }
}
