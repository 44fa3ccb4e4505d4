/**
 What is said of a window that leaves without all its sources: by the merger (src/pipeline/merger.rs, `emit_window`) in
 its result, and by the router (src/pipeline/router.rs) in `MergeIncomplete` events.
 */
module Incomplete {

  import opened Audio
  import opened Merger
  import opened MergerRuns
  import opened Routing
  import opened Retry
  import opened Routers
  import opened StopFinalizes

  /** `list` holds the expected sources without a chunk in the window: as often as they are expected, in that order. */
  ghost predicate ListsAbsent(sources: seq<SourceId>, chunks: map<SourceId, Chunk>, list: seq<SourceId>)
  {
    && (forall s :: s in list <==> s in sources && s !in chunks)
    && (forall s :: multiset(list)[s] == if s in chunks then 0 else multiset(sources)[s])
    && InOrder(sources, list)
  }

  ghost predicate Before(sources: seq<SourceId>, s: SourceId, t: SourceId)
  {
    exists a, b :: 0 <= a < b < |sources| && sources[a] == s && sources[b] == t
  }

  lemma MissingAreAbsent(sources: seq<SourceId>, chunks: map<SourceId, Chunk>)
    ensures ListsAbsent(sources, chunks, Missing(sources, chunks))
  {
    hide InOrder, Missing;
    MissingAreCounted(sources, chunks);
    MissingAreInOrder(sources, chunks);
    AreExpected(sources, chunks, Missing(sources, chunks));
  }

  lemma {:induction false} MissingAreCounted(sources: seq<SourceId>, chunks: map<SourceId, Chunk>)
    ensures forall s :: multiset(Missing(sources, chunks))[s] == if s in chunks then 0 else multiset(sources)[s]
  {
    if sources != [] {
      var init, last := sources[..|sources| - 1], sources[|sources| - 1];
      MissingAreCounted(init, chunks);
      assert sources == init + [last];
    }
  }

  lemma {:induction false} MissingAreInOrder(sources: seq<SourceId>, chunks: map<SourceId, Chunk>)
    ensures InOrder(sources, Missing(sources, chunks))
  {
    hide InOrder, Missing;
    MissingUnfolds(sources, chunks);
    if sources == [] {
      NothingInOrder(sources);
    } else {
      var init, last := sources[..|sources| - 1], sources[|sources| - 1];
      var rest := Missing(init, chunks);
      MissingAreInOrder(init, chunks);
      MissingAreCounted(init, chunks);
      AreExpected(init, chunks, rest);
      OrderWithLast(init, last, rest);
      assert sources == init + [last];
    }
  }

  lemma MissingUnfolds(sources: seq<SourceId>, chunks: map<SourceId, Chunk>)
    ensures sources == [] ==> Missing(sources, chunks) == []
    ensures sources != [] ==>
              var last, rest := sources[|sources| - 1], Missing(sources[..|sources| - 1], chunks);
              Missing(sources, chunks) == if last in chunks then rest else rest + [last]
  {
  }

  lemma NothingInOrder(sources: seq<SourceId>)
    ensures InOrder(sources, [])
  {
  }

  lemma AreExpected(sources: seq<SourceId>, chunks: map<SourceId, Chunk>, list: seq<SourceId>)
    requires forall s :: multiset(list)[s] == if s in chunks then 0 else multiset(sources)[s]
    ensures forall s :: s in list <==> s in sources && s !in chunks
  {
    forall s
      ensures s in list <==> s in sources && s !in chunks
    {
      assert s in multiset(list) <==> s in multiset(sources) && s !in chunks;
    }
  }

  ghost predicate InOrder(sources: seq<SourceId>, list: seq<SourceId>)
  {
    forall p, q :: 0 <= p < q < |list| ==> Before(sources, list[p], list[q])
  }

  lemma OrderWithLast(init: seq<SourceId>, last: SourceId, rest: seq<SourceId>)
    requires InOrder(init, rest) && forall s :: s in rest ==> s in init
    ensures InOrder(init + [last], rest) && InOrder(init + [last], rest + [last])
  {
    hide Before;
    var list := rest + [last];
    forall p, q | 0 <= p < q < |list|
      ensures Before(init + [last], list[p], list[q])
    {
      if q < |rest| {
        StillBefore(init, last, rest[p], rest[q]);
      } else {
        assert rest[p] in rest;
        BeforeLast(init, last, rest[p]);
      }
    }
    assert InOrder(init + [last], rest) by {
      forall p, q | 0 <= p < q < |rest|
        ensures Before(init + [last], rest[p], rest[q])
      {
        StillBefore(init, last, rest[p], rest[q]);
      }
    }
  }

  lemma StillBefore(init: seq<SourceId>, last: SourceId, s: SourceId, t: SourceId)
    requires Before(init, s, t)
    ensures Before(init + [last], s, t)
  {
    var a, b :| 0 <= a < b < |init| && init[a] == s && init[b] == t;
    assert (init + [last])[a] == s && (init + [last])[b] == t;
  }

  lemma BeforeLast(init: seq<SourceId>, last: SourceId, s: SourceId)
    requires s in init
    ensures Before(init + [last], s, last)
  {
    var a :| 0 <= a < |init| && init[a] == s;
    assert (init + [last])[a] == s && (init + [last])[|init|] == last;
  }

  /** A result names precisely the sources its window lacks; none exactly when the window was complete. */
  lemma ResultNamesTheMissing(cfg: MergerConfig, e: Emission, r: MergeResult)
    requires Reports(cfg, e, r)
    ensures r.windowId == e.id && ListsAbsent(cfg.expected, e.window.chunks, r.missing)
    ensures r.missing == [] <==> cfg.IsComplete(e.window)
  {
    hide IsMergeOf, Missing;
    MissingAreAbsent(cfg.expected, e.window.chunks);
    if r.missing != [] {
      assert r.missing[0] in r.missing;
    }
  }

  /** The windows that left incomplete, in the order they left. */
  ghost function LeftIncomplete(cfg: MergerConfig, emitted: seq<Emission>): seq<Emission>
  {
    if emitted == [] then []
    else
      var rest := LeftIncomplete(cfg, emitted[..|emitted| - 1]);
      var last := emitted[|emitted| - 1];
      if cfg.IsComplete(last.window) then rest else rest + [last]
  }

  /** One entry for each of these windows, with its id and the sources it lacked. */
  ghost predicate EntriesFor(cfg: MergerConfig, entries: seq<(nat, seq<SourceId>)>, es: seq<Emission>)
  {
    |entries| == |es| &&
    forall i :: 0 <= i < |entries| ==>
      entries[i].0 == es[i].id && ListsAbsent(cfg.expected, es[i].window.chunks, entries[i].1)
  }

  lemma {:induction false} IncompleteAreReported(cfg: MergerConfig, emitted: seq<Emission>, results: seq<MergeResult>)
    requires ReportsAll(cfg, emitted, results)
    ensures EntriesFor(cfg, IncompleteOf(results), LeftIncomplete(cfg, emitted))
  {
    hide ListsAbsent, Reports, MergerConfig.IsComplete;
    if emitted != [] {
      var n := |emitted| - 1;
      IncompleteAreReported(cfg, emitted[..n], results[..n]);
      ResultNamesTheMissing(cfg, emitted[n], results[n]);
    }
  }

  /**
   At all times the router has reported precisely the windows its merger emitted incomplete, once each and in order,
   each with the sources that were absent from it.
   */
  lemma RouterReportsTheIncomplete(router: Router)
    requires router.Valid() && router.merger != null
    ensures |router.hs| == |router.ops| + 1
    ensures EntriesFor(router.merger.cfg, router.incompletes,
                       LeftIncomplete(router.merger.cfg, router.hs[|router.ops|].emitted))
  {
    hide EntriesFor, LeftIncomplete;
    RouterRunIs(router);
    IncompletesAre(router);
    IncompleteAreReported(router.merger.cfg, router.hs[|router.ops|].emitted, router.results);
  }

  lemma IncompletesAre(router: Router)
    requires router.Valid()
    ensures router.incompletes == IncompleteOf(router.results)
  {
    hide IncompleteOf;
  }

  // ---------- a queue that comes too late ----------

  /** The first chunk of one of two sources, checked at its timeout: its window is emitted, with the other missing. */
  lemma TimedOutThenLate(cfg: MergerConfig, hs: seq<History>, ops: seq<Op>, c: Chunk, e: Chunk, a: SourceId,
                         b: SourceId, at: Duration, stop: Duration, late: Duration)
    requires cfg.Valid() && cfg.expected == [a, b] && a != b && 0 < cfg.maxPending
    requires c.source == Some(a) && e.source == Some(b) && cfg.WindowId(c.timestamp) == cfg.WindowId(e.timestamp)
    requires at <= stop && cfg.windowTimeout <= stop - at
    requires IsRun(cfg, hs, ops) && ops == [Feed(c, at), Op.Tick(stop), Feed(e, late)]
    ensures |hs| == 4
    ensures |hs[3].emitted| == 1 && hs[3].emitted[0].id == cfg.WindowId(c.timestamp)
    ensures hs[3].emitted[0].window.chunks == map[a := c]
    ensures hs[3].pending.Keys == {cfg.WindowId(e.timestamp)}
            && hs[3].pending[cfg.WindowId(e.timestamp)].chunks == map[b := e]
  {
    hide AsMillis, FromMillis, MergerConfig.WindowId, MergerConfig.Valid, Replaced, HasId, Fed, TimedOutStep;
    assert Next(cfg, hs[0], ops[0], hs[1]) && Next(cfg, hs[1], ops[1], hs[2]) && Next(cfg, hs[2], ops[2], hs[3]);
    LonelyChunk(cfg, c, a, b, at);
    var es: seq<Emission> :| TimedOutStep(cfg, hs[1].pending, stop, hs[2].pending, es) &&
                             hs[2] == hs[1].(pending := hs[2].pending, emitted := hs[1].emitted + es);
    AllTimedOut(cfg, hs[1].pending, cfg.WindowId(c.timestamp), stop, hs[2].pending, es);
    LonelyChunk(cfg, e, b, a, late);
  }

  /** A chunk added to an empty merger, another source being expected too, waits in a window of its own. */
  lemma LonelyChunk(cfg: MergerConfig, c: Chunk, s: SourceId, other: SourceId, at: Duration)
    requires cfg.Valid() && s != other && other in cfg.expected && 0 < cfg.maxPending && c.source == Some(s)
    ensures var o, id := Fed(cfg, map[], c, at), cfg.WindowId(c.timestamp);
            o.emitted == [] && o.pending.Keys == {id} && o.pending[id].chunks == map[s := c]
            && o.pending[id].createdAt == at
  {
    hide AsMillis, FromMillis, MergerConfig.WindowId, Fed, Evicted;
    FedEmitsAtMostOne(cfg, map[], c, at);
    InsertedSize(cfg, map[], c, at);
    var p', id := Inserted(cfg, map[], c, at), cfg.WindowId(c.timestamp);
    assert p'[id].chunks == map[s := c] && other !in p'[id].chunks;
  }

  lemma AllTimedOut(cfg: MergerConfig, p: Pending, id: nat, now: Duration, p': Pending, es: seq<Emission>)
    requires p.Keys == {id} && p[id].createdAt <= now && cfg.windowTimeout <= now - p[id].createdAt
    requires TimedOutStep(cfg, p, now, p', es)
    ensures p' == map[] && es == [Emission(id, p[id])]
  {
    var ids := TimedOut(cfg, p, now);
    assert id in p;
    assert ids == {id};
    var i :| 0 <= i < |es| && es[i].id == id;
    FirstTwoDiffer(es);
  }

  lemma FirstTwoDiffer(es: seq<Emission>)
    requires forall i, j :: 0 <= i < j < |es| ==> es[i].id != es[j].id
    ensures 1 < |es| ==> es[0].id != es[1].id
  {
  }

  /**
   The stop checks timeouts before it routes the queue. Here a window's second chunk is in the queue when the stop comes
   at the window's timeout: the router emits the window without it, reports its source missing, and drops the chunk,
   although both chunks of the window had arrived.
   */
  method StopSplitsAWindow(a: SourceId, b: SourceId, c: Chunk, e: Chunk, config: StreamConfig, now: Duration,
                           stop: Duration, late: Duration)
    returns (router: Router, exited: bool)
    requires a != b && c.source == Some(a) && e.source == Some(b) && c.timestamp == e.timestamp
    requires 0 < AsMillis(config.mergeWindowDuration) && 0 < config.maxPendingWindows
    requires now <= stop && config.mergeWindowTimeout <= stop - now
    ensures fresh(router) && router.Valid() && router.cfg.routes == [Merged({a, b})]
    ensures exited && router.consumed == [c, e]
    ensures |router.calls| == 1 && |router.calls[0]| == 1 && |router.calls[0][0].samples| == |c.samples|
    ensures |router.incompletes| == 1 && router.incompletes[0].1 == [b]
    ensures router.merger != null && router.merger.pending.Keys == {router.merger.cfg.WindowId(e.timestamp)}
  {
    hide AsMillis, OpsOf, Taken, Stops, Router.Valid, StopLog, IsRun, ReportsAll, Delivered, OnlySourced, ChunksOf,
         WithSource, MergerConfig.WindowId, MergerConfig.IsComplete, MergerConfig.Valid, FirstUnknown;
    var routes := [Merged({a, b})];
    assert routes[0].Merged? && AllKnown(routes, SetOf([a, b]));
    var r := Router.WithRouting((_, _) => true, _ => true, routes, [a, b], config, 16000, 1);
    router := r.router;
    var branches := [Recv(c, now), Stop(stop, [Arrival(e, late)])];
    ChunkStopChunk(c, e, now, stop, late);
    exited := router.Run(branches);
    assert [] + OpsOf(branches) == OpsOf(branches) && [] + Taken(branches) == Taken(branches);
    RouterRunIs(router);
    TimedOutThenLate(router.merger.cfg, router.hs, router.ops, c, e, a, b, now, stop, late);
    OneResult(router, a, b, c);
  }

  lemma ChunkStopChunk(c: Chunk, e: Chunk, now: Duration, stop: Duration, late: Duration)
    requires c.source.Some? && e.source.Some?
    ensures var branches := [Recv(c, now), Stop(stop, [Arrival(e, late)])];
            && Taken(branches) == [c, e] && Stops(branches)
            && OpsOf(branches) == [Feed(c, now), Op.Tick(stop), Feed(e, late)]
  {
    var branches := [Recv(c, now), Stop(stop, [Arrival(e, late)])];
    assert branches[1..] == [Stop(stop, [Arrival(e, late)])];
    FeedOfChunk(Arrival(c, now));
    FeedOfChunk(Arrival(e, late));
    hide Feeds;
    assert branches[1].Stop?;
  }

  /** A router with one reliable merged sink, whose merger emitted one window, holding just the chunk of `a`. */
  lemma OneResult(router: Router, a: SourceId, b: SourceId, c: Chunk)
    requires router.Valid() && router.merger != null && a != b && router.merger.cfg.expected == [a, b]
    requires |router.cfg.routes| == 1 && router.cfg.routes[0].Merged? && forall n: nat :: router.cfg.outcome(0, n)
    requires |router.hs| == |router.ops| + 1 && |router.hs[|router.ops|].emitted| == 1
    requires router.hs[|router.ops|].emitted[0].window.chunks == map[a := c]
    ensures |router.calls| == 1 && |router.calls[0]| == 1 && |router.calls[0][0].samples| == |c.samples|
    ensures |router.incompletes| == 1 && router.incompletes[0].1 == [b]
  {
    hide Router.Valid, IsMergeOf, Missing, ChunksOf, CallsFor, IncompleteOf;
    RouterRunIs(router);
    IncompletesAre(router);
    var e, r := router.hs[|router.ops|].emitted[0], router.results[0];
    assert Reports(router.merger.cfg, e, r);
    MissingSecond(a, b, e.window.chunks);
    assert router.results == [r];
    OneIncomplete(r);
    OneChunk(r);
    ReliableSinkGetsEachOnce(router.cfg.outcome, 0, router.cfg.retryAttempts, ChunksOf(router.results));
    MergedOfOne(router.merger.cfg, e.window, a, r.chunk);
  }

  lemma MissingSecond(a: SourceId, b: SourceId, chunks: map<SourceId, Chunk>)
    requires a in chunks && b !in chunks
    ensures Missing([a, b], chunks) == [b]
  {
    assert [a, b][..1] == [a] && [a][..0] == [];
    assert Missing([a], chunks) == [];
  }

  lemma OneIncomplete(r: MergeResult)
    requires r.missing != []
    ensures IncompleteOf([r]) == [(r.windowId, r.missing)]
  {
    assert [r][..0] == [];
  }

  lemma OneChunk(r: MergeResult)
    ensures ChunksOf([r]) == [r.chunk]
  {
  }

  lemma MergedOfOne(cfg: MergerConfig, w: Window, s: SourceId, out: Chunk)
    requires IsMergeOf(cfg, w, out) && w.chunks.Keys == {s}
    ensures |out.samples| == |w.chunks[s].samples|
  {
    hide MixedSample;
    assert s in w.chunks;
  }
}
