/**
 "Finalizes merge windows during shutdown" (src/pipeline/router.rs, `drain_and_finalize`): the code emits the windows
 that have timed out when the stop command comes, and no others. What is open when the queue has been routed is dropped.
 */
module StopFinalizes {

  import opened Audio
  import opened Merger
  import opened MergerRuns
  import opened Barrier
  import opened Routing
  import opened Retry
  import opened Routers

  lemma {:induction false} FromSourceOfSourced(chunks: seq<Chunk>, s: SourceId)
    ensures FromSource(WithSource(chunks), s) == FromSource(chunks, s)
  {
    hide FromSource, WithSource;
    if chunks == [] {
      NothingSourced(s);
    } else {
      var init, last := chunks[..|chunks| - 1], chunks[|chunks| - 1];
      FromSourceOfSourced(init, s);
      assert init + [last] == chunks;
      FromSourceAppend(init, last, s);
      WithSourceAppend(init, last);
      if last.source.Some? {
        FromSourceAppend(WithSource(init), last, s);
      } else {
        assert WithSource(init) + [] == WithSource(init);
      }
    }
  }

  lemma NothingSourced(s: SourceId)
    ensures WithSource([]) == [] && FromSource([], s) == []
  {
  }

  /** So far, the merger's input was aligned, no check found a window timed out, and no source was too far ahead. */
  ghost predicate InStepSoFar(router: Router)
    requires router.Valid() && router.merger != null
    reads router, router.merger
  {
    AlignedRun(router.merger.cfg, router.hs, router.ops) &&
    forall i :: 0 <= i < |router.hs| ==> WithinSkew(router.merger.cfg, router.hs[i].fed)
  }

  /**
   What a router holds back, after a stop in particular: with aligned sources within the skew bound it has finalized
   every window if and only if it has consumed equally many chunks of all sources.
   */
  lemma StopFinalizesAllIff(router: Router)
    requires router.Valid() && router.merger != null && router.merger.cfg.expected != [] && InStepSoFar(router)
    ensures router.merger.pending == map[] <==> Level(router.merger.cfg, router.consumed)
  {
    var cfg, n := router.merger.cfg, |router.ops|;
    RouterRunIs(router);
    NothingPendingIffLevel(cfg, router.hs, router.ops, n);
    LevelOfSourced(cfg, router.consumed);
  }

  lemma RouterRunIs(router: Router)
    requires router.Valid() && router.merger != null
    ensures router.merger.cfg.Valid() && IsRun(router.merger.cfg, router.hs, router.ops) && OnlySourced(router.ops)
    ensures |router.hs| == |router.ops| + 1 && router.hs[|router.ops|].pending == router.merger.pending
    ensures router.hs[|router.ops|].fed == WithSource(router.consumed)
    ensures ReportsAll(router.merger.cfg, router.hs[|router.ops|].emitted, router.results)
    ensures Delivered(router.cfg, router.calls, router.consumed, ChunksOf(router.results))
  {
    hide IsRun, IsTable, Reports, IncompleteOf, WithSource, PendingOk, Delivered, ChunksOf;
  }

  lemma LevelOfSourced(cfg: MergerConfig, consumed: seq<Chunk>)
    ensures Level(cfg, WithSource(consumed)) <==> Level(cfg, consumed)
  {
    hide FromSource, WithSource;
    forall s | s in cfg.expected
      ensures Count(WithSource(consumed), s) == Count(consumed, s)
    {
      FromSourceOfSourced(consumed, s);
    }
  }

  // ---------- the least failing run ----------

  /** One chunk of one of two sources: its window is still open after a check that comes before the timeout. */
  lemma OneOfTwoWaits(cfg: MergerConfig, hs: seq<History>, ops: seq<Op>, c: Chunk, a: SourceId, b: SourceId,
                      at: Duration, stop: Duration)
    requires cfg.Valid() && cfg.expected == [a, b] && a != b && 0 < cfg.maxPending && stop < cfg.windowTimeout
    requires c.source == Some(a) && IsRun(cfg, hs, ops) && ops == [Feed(c, at), Op.Tick(stop)]
    ensures |ops| == 2 && |hs| == 3 && cfg.WindowId(c.timestamp) in hs[2].pending && hs[2].emitted == []
  {
    hide AsMillis, FromMillis, MergerConfig.WindowId, MergerConfig.Valid, Replaced, HasId, Fed, TimedOutStep;
    assert Next(cfg, hs[0], ops[0], hs[1]) && Next(cfg, hs[1], ops[1], hs[2]);
    FirstOfTwoStays(cfg, c, a, b, at);
    var es: seq<Emission> :| TimedOutStep(cfg, hs[1].pending, stop, hs[2].pending, es) &&
                             hs[2] == hs[1].(pending := hs[2].pending, emitted := hs[1].emitted + es);
    NoneTimedOut(cfg, hs[1].pending, stop, hs[2].pending, es);
  }

  lemma FirstOfTwoStays(cfg: MergerConfig, c: Chunk, a: SourceId, b: SourceId, at: Duration)
    requires cfg.Valid() && cfg.expected == [a, b] && a != b && 0 < cfg.maxPending && c.source == Some(a)
    ensures var o := Fed(cfg, map[], c, at);
            o.emitted == [] && cfg.WindowId(c.timestamp) in o.pending
  {
    hide AsMillis, FromMillis, MergerConfig.WindowId, Fed, Evicted;
    FedEmitsAtMostOne(cfg, map[], c, at);
    InsertedSize(cfg, map[], c, at);
    var p', id := Inserted(cfg, map[], c, at), cfg.WindowId(c.timestamp);
    assert p'[id].chunks.Keys == {a};
    assert b in cfg.expected && b !in p'[id].chunks;
  }

  /** Before the timeout has passed at all, nothing has timed out. */
  lemma NoneTimedOut(cfg: MergerConfig, p: Pending, now: Duration, p': Pending, es: seq<Emission>)
    requires now < cfg.windowTimeout && TimedOutStep(cfg, p, now, p', es)
    ensures p' == p && es == []
  {
    assert TimedOut(cfg, p, now) == {};
    FirstEmitted(es, p, {});
  }

  /**
   The least run on which a stop does not finalize: two sources, a sink that wants both merged, and one chunk of one
   of them. The router exits, the chunk's window is dropped, and the sink has been called with nothing.
   */
  method StopDropsAWindow(a: SourceId, b: SourceId, c: Chunk, config: StreamConfig, now: Duration, stop: Duration)
    returns (router: Router, exited: bool)
    requires a != b && c.source == Some(a)
    requires 0 < AsMillis(config.mergeWindowDuration) && 0 < config.maxPendingWindows
    requires now <= stop < config.mergeWindowTimeout
    ensures fresh(router) && router.Valid() && router.cfg.routes == [Merged({a, b})]
    ensures router.merger != null && router.merger.cfg.expected == [a, b]
    ensures exited && router.consumed == [c] && router.calls == [[]]
    ensures router.merger.cfg.WindowId(c.timestamp) in router.merger.pending
  {
    hide AsMillis, OpsOf, Taken, Stops;
    var routes := [Merged({a, b})];
    assert routes[0].Merged? && AllKnown(routes, SetOf([a, b]));
    var r := Router.WithRouting((_, _) => true, _ => true, routes, [a, b], config, 16000, 1);
    router := r.router;
    var branches := [Recv(c, now), Stop(stop, [])];
    OneChunkThenStop(c, now, stop);
    exited := router.Run(branches);
    RouterRunIs(router);
    assert [] + OpsOf(branches) == OpsOf(branches) && [] + Taken(branches) == Taken(branches);
    OneOfTwoWaits(router.merger.cfg, router.hs, router.ops, c, a, b, now, stop);
    NothingCalled(router);
  }

  lemma OneChunkThenStop(c: Chunk, now: Duration, stop: Duration)
    requires c.source.Some?
    ensures var branches := [Recv(c, now), Stop(stop, [])];
            Taken(branches) == [c] && Stops(branches) && OpsOf(branches) == [Feed(c, now), Op.Tick(stop)]
  {
    var branches := [Recv(c, now), Stop(stop, [])];
    assert branches[1..] == [Stop(stop, [])];
    FeedOfChunk(Arrival(c, now));
    NoFeeds();
    hide Feeds, ChunksIn;
    assert branches[1].Stop?;
  }

  lemma NothingCalled(router: Router)
    requires router.Valid() && router.merger != null && router.hs[|router.ops|].emitted == []
    requires |router.cfg.routes| == 1 && router.cfg.routes[0].Merged?
    requires |router.hs| == |router.ops| + 1
    ensures router.calls == [[]]
  {
    RouterRunIs(router);
    assert router.results == [];
    assert router.calls[0] == CallsFor(router.cfg.outcome, 0, router.cfg.retryAttempts, []);
  }
}
