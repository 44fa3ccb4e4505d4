/**
 The time-window merger (src/pipeline/merger.rs).

 The class follows the code: a map of pending windows that every operation updates in place. Its
 methods are proved against `Fed` and `TimedOutStep`, which say which windows leave the map and in
 what order, and against `IsMergeOf`, which says what a window's chunks are merged into. Wherever the
 code iterates over a `HashMap`, any order is allowed.
 */
module Merger {

  import opened Arith
  import opened Audio

  datatype MergerConfig = MergerConfig(
    windowDuration: Duration,
    windowTimeout: Duration,
    expected: seq<SourceId>,
    sampleRate: u32,
    channels: u16,
    maxPending: nat
  ) {
    /** The window id is a quotient by the window's milliseconds, which panics on zero. */
    predicate Valid()
    {
      0 < AsMillis(windowDuration)
    }

    function WindowId(timestamp: Duration): nat
      requires Valid()
    {
      AsMillis(timestamp) / AsMillis(windowDuration)
    }

    predicate IsComplete(w: Window)
    {
      forall s :: s in expected ==> s in w.chunks
    }
  }

  datatype Window = Window(chunks: map<SourceId, Chunk>, createdAt: Duration, timestamp: Duration)

  type Pending = map<nat, Window>

  datatype MergeResult = MergeResult(chunk: Chunk, windowId: nat, missing: seq<SourceId>)

  /** A window on its way out of the map. */
  datatype Emission = Emission(id: nat, window: Window)

  datatype Outcome = Outcome(pending: Pending, emitted: seq<Emission>)

  // ---------- which windows leave ----------

  function Opened(cfg: MergerConfig, p: Pending, id: nat, now: Duration): Window
    requires cfg.Valid()
  {
    if id in p then p[id] else Window(map[], now, FromMillis(id * AsMillis(cfg.windowDuration)))
  }

  /** The pending windows once a chunk is stored, replacing what its source had in that window. */
  function Inserted(cfg: MergerConfig, p: Pending, c: Chunk, now: Duration): Pending
    requires cfg.Valid() && c.source.Some?
  {
    var id := cfg.WindowId(c.timestamp);
    var w := Opened(cfg, p, id, now);
    p[id := w.(chunks := w.chunks[c.source.value := c])]
  }

  lemma {:induction false} FindLeast(keys: set<nat>) returns (least: nat)
    requires keys != {}
    ensures least in keys && forall j :: j in keys ==> least <= j
  {
    least :| least in keys;
    var rest := keys - {least};
    if rest == {} {
      assert keys == {least};
    } else {
      var first := least;
      var other := FindLeast(rest);
      least := Min(first, other);
      forall j | j in keys
        ensures least <= j
      {
        assert j == first || j in rest;
      }
    }
  }

  lemma LeastExists(keys: set<nat>)
    requires keys != {}
    ensures exists k :: k in keys && forall j :: j in keys ==> k <= j
  {
    var least := FindLeast(keys);
  }

  ghost function Least(keys: set<nat>): (k: nat)
    requires keys != {}
    ensures k in keys && forall j :: j in keys ==> k <= j
  {
    LeastExists(keys);
    var k :| k in keys && forall j :: j in keys ==> k <= j;
    k
  }

  ghost function Evicted(p: Pending, max: nat): Outcome
    decreases |p|
  {
    if |p| <= max then Outcome(p, [])
    else
      var id := Least(p.Keys);
      var rest := Evicted(p - {id}, max);
      Outcome(rest.pending, [Emission(id, p[id])] + rest.emitted)
  }

  ghost function Fed(cfg: MergerConfig, p: Pending, c: Chunk, now: Duration): Outcome
    requires cfg.Valid() && c.source.Some?
  {
    var id := cfg.WindowId(c.timestamp);
    var p' := Inserted(cfg, p, c, now);
    if cfg.IsComplete(p'[id]) then
      var rest := Evicted(p' - {id}, cfg.maxPending);
      Outcome(rest.pending, [Emission(id, p'[id])] + rest.emitted)
    else Evicted(p', cfg.maxPending)
  }

  predicate HasTimedOut(cfg: MergerConfig, w: Window, now: Duration)
  {
    (if now <= w.createdAt then 0.0 else now - w.createdAt) >= cfg.windowTimeout
  }

  function TimedOut(cfg: MergerConfig, p: Pending, now: Duration): set<nat>
  {
    set id | id in p && HasTimedOut(cfg, p[id], now)
  }

  /** The windows of `ids`, each once, in some order. */
  ghost predicate EmitsExactly(emitted: seq<Emission>, p: Pending, ids: set<nat>)
    requires ids <= p.Keys
  {
    && (forall i :: 0 <= i < |emitted| ==> emitted[i].id in ids && emitted[i].window == p[emitted[i].id])
    && (forall id :: id in ids ==> exists i :: 0 <= i < |emitted| && emitted[i].id == id)
    && (forall i, j :: 0 <= i < j < |emitted| ==> emitted[i].id != emitted[j].id)
  }

  /** A timeout check takes the timed-out windows, and no others, out of the map. */
  ghost predicate TimedOutStep(cfg: MergerConfig, p: Pending, now: Duration, p': Pending, emitted: seq<Emission>)
  {
    p' == p - TimedOut(cfg, p, now) && EmitsExactly(emitted, p, TimedOut(cfg, p, now))
  }

  // ---------- what they are merged into ----------

  function Contribution(c: Chunk, i: nat): int
  {
    if i < |c.samples| then c.samples[i] else 0
  }

  /** The exact sum of sample `i` over the chunks of `keys`. */
  ghost function SumAt(chunks: map<SourceId, Chunk>, keys: set<SourceId>, i: nat): int
    requires keys <= chunks.Keys
  {
    if keys == {} then 0
    else
      var k :| k in keys;
      Contribution(chunks[k], i) + SumAt(chunks, keys - {k}, i)
  }

  /** The sum does not depend on the order in which the sources are visited. */
  lemma {:induction false} SumAtAdd(chunks: map<SourceId, Chunk>, keys: set<SourceId>, k: SourceId, i: nat)
    requires keys <= chunks.Keys && k in keys
    ensures SumAt(chunks, keys, i) == Contribution(chunks[k], i) + SumAt(chunks, keys - {k}, i)
    decreases |keys|
  {
    var j :| j in keys && SumAt(chunks, keys, i) == Contribution(chunks[j], i) + SumAt(chunks, keys - {j}, i);
    if j != k {
      SumAtAdd(chunks, keys - {j}, k, i);
      SumAtAdd(chunks, keys - {k}, j, i);
      assert keys - {j} - {k} == keys - {k} - {j};
    }
  }

  function ClampSample(x: int): Sample
  {
    Max(-32768, Min(32767, x))
  }

  function Divisor(cfg: MergerConfig, chunks: map<SourceId, Chunk>): nat
  {
    Max(|cfg.expected|, |chunks|)
  }

  /** One merged sample: the wrapped `i32` sum, divided toward zero and clamped. */
  ghost function MixedSample(chunks: map<SourceId, Chunk>, divisor: nat, i: nat): Sample
    requires 0 < divisor
  {
    ClampSample(TruncDiv(Wrap32(SumAt(chunks, chunks.Keys, i)), divisor))
  }

  ghost function MergedFrom(cfg: MergerConfig, w: Window, first: SourceId): Chunk
    requires first in w.chunks
  {
    NonEmptyMap(w.chunks, first);
    var c := w.chunks[first];
    Chunk(seq(|c.samples|, (i: nat) => MixedSample(w.chunks, Divisor(cfg, w.chunks), i)),
          w.timestamp, c.sampleRate, c.channels, None)
  }

  lemma NonEmptyMap<K, V>(m: map<K, V>, k: K)
    requires k in m
    ensures 0 < |m|
  {
  }

  function Silence(cfg: MergerConfig, timestamp: Duration): Chunk
  {
    var n := SampleCount(cfg.sampleRate, cfg.channels, cfg.windowDuration);
    Chunk(seq(n, (_: nat) => 0 as Sample), timestamp, cfg.sampleRate, cfg.channels, None)
  }

  /** Length and format come from whichever chunk the map yields first. */
  ghost predicate IsMergeOf(cfg: MergerConfig, w: Window, out: Chunk)
  {
    if w.chunks == map[] then out == Silence(cfg, w.timestamp)
    else exists first :: first in w.chunks && out == MergedFrom(cfg, w, first)
  }

  function Missing(sources: seq<SourceId>, chunks: map<SourceId, Chunk>): seq<SourceId>
  {
    if sources == [] then []
    else
      var rest := Missing(sources[..|sources| - 1], chunks);
      if sources[|sources| - 1] in chunks then rest else rest + [sources[|sources| - 1]]
  }

  ghost predicate Reports(cfg: MergerConfig, e: Emission, r: MergeResult)
  {
    r.windowId == e.id && r.missing == Missing(cfg.expected, e.window.chunks) && IsMergeOf(cfg, e.window, r.chunk)
  }

  ghost predicate ReportsAll(cfg: MergerConfig, emitted: seq<Emission>, results: seq<MergeResult>)
  {
    |emitted| == |results| && forall i :: 0 <= i < |emitted| ==> Reports(cfg, emitted[i], results[i])
  }

  // ---------- the invariant ----------

  /** A pending window is open for a reason: it holds something, lacks a source, and holds what belongs to it. */
  ghost predicate WindowOk(cfg: MergerConfig, id: nat, w: Window)
    requires cfg.Valid()
  {
    && w.chunks != map[] && !cfg.IsComplete(w)
    && Belongs(cfg, id, w)
  }

  ghost predicate Belongs(cfg: MergerConfig, id: nat, w: Window)
    requires cfg.Valid()
  {
    && w.timestamp == FromMillis(id * AsMillis(cfg.windowDuration))
    && forall s :: s in w.chunks ==> w.chunks[s].source == Some(s) && cfg.WindowId(w.chunks[s].timestamp) == id
  }

  ghost predicate PendingOk(cfg: MergerConfig, p: Pending)
    requires cfg.Valid()
  {
    |p| <= cfg.maxPending && forall id :: id in p ==> WindowOk(cfg, id, p[id])
  }

  /**
   What one `add_chunk` emits: nothing, or the window it completed, or, with the map full and no window
   completed, the oldest pending window.
   */
  lemma FedEmitsAtMostOne(cfg: MergerConfig, p: Pending, c: Chunk, now: Duration)
    requires cfg.Valid() && PendingOk(cfg, p) && c.source.Some?
    ensures var o, p', id := Fed(cfg, p, c, now), Inserted(cfg, p, c, now), cfg.WindowId(c.timestamp);
            if cfg.IsComplete(p'[id]) then o == Outcome(p' - {id}, [Emission(id, p'[id])])
            else if |p'| <= cfg.maxPending then o == Outcome(p', [])
            else |p'| == cfg.maxPending + 1 &&
                 o == Outcome(p' - {Least(p'.Keys)}, [Emission(Least(p'.Keys), p'[Least(p'.Keys)])])
  {
    hide AsMillis, FromMillis, Evicted, MergerConfig.WindowId, MergerConfig.IsComplete, WindowOk, Least, Inserted;
    var p', id := Inserted(cfg, p, c, now), cfg.WindowId(c.timestamp);
    InsertedSize(cfg, p, c, now);
    if cfg.IsComplete(p'[id]) {
      EvictedFew(p' - {id}, cfg.maxPending);
      assert [Emission(id, p'[id])] + [] == [Emission(id, p'[id])];
    } else {
      EvictedFew(p', cfg.maxPending);
    }
  }

  lemma InsertedSize(cfg: MergerConfig, p: Pending, c: Chunk, now: Duration)
    requires cfg.Valid() && c.source.Some?
    ensures var p', id := Inserted(cfg, p, c, now), cfg.WindowId(c.timestamp);
            id in p' && p'.Keys == p.Keys + {id} && |p'| <= |p| + 1 && |p' - {id}| <= |p|
  {
    hide AsMillis, FromMillis, MergerConfig.WindowId, Opened;
    var p', id := Inserted(cfg, p, c, now), cfg.WindowId(c.timestamp);
    assert p'.Keys == p.Keys + {id};
    assert (p' - {id}).Keys == p.Keys - {id};
    assert |p'| == |p'.Keys| && |p| == |p.Keys| && |p' - {id}| == |(p' - {id}).Keys|;
    assert |p.Keys - {id}| <= |p.Keys| && |p.Keys + {id}| <= |p.Keys| + 1;
  }

  lemma EvictedUnfolds(p: Pending, max: nat)
    ensures |p| <= max ==> Evicted(p, max) == Outcome(p, [])
    ensures |p| > max ==> p.Keys != {} && var id := Least(p.Keys); var rest := Evicted(p - {id}, max);
                          Evicted(p, max) == Outcome(rest.pending, [Emission(id, p[id])] + rest.emitted)
  {
  }

  lemma EvictedFew(p: Pending, max: nat)
    requires |p| <= max + 1
    ensures |p| <= max ==> Evicted(p, max) == Outcome(p, [])
    ensures |p| == max + 1 ==>
              Evicted(p, max) == Outcome(p - {Least(p.Keys)}, [Emission(Least(p.Keys), p[Least(p.Keys)])])
  {
    if |p| == max + 1 {
      var l := Least(p.Keys);
      RemoveOne(p, l);
      assert Evicted(p - {l}, max) == Outcome(p - {l}, []);
    }
  }

  lemma RemoveOne(p: Pending, id: nat)
    requires id in p
    ensures |p - {id}| == |p| - 1
  {
    assert (p - {id}).Keys == p.Keys - {id};
    assert |(p - {id}).Keys| == |p.Keys| - 1;
  }

  /** Feeding keeps the invariant, and every window it emits holds something of its own. */
  lemma FedKeepsInvariant(cfg: MergerConfig, p: Pending, c: Chunk, now: Duration)
    requires cfg.Valid() && PendingOk(cfg, p) && c.source.Some?
    ensures PendingOk(cfg, Fed(cfg, p, c, now).pending)
    ensures forall e :: e in Fed(cfg, p, c, now).emitted ==> e.window.chunks != map[] && Belongs(cfg, e.id, e.window)
  {
    hide Fed, Inserted, Evicted, Least, Belongs, AsMillis, FromMillis, MergerConfig.WindowId, MergerConfig.IsComplete,
         MergerConfig.Valid;
    FedEmitsAtMostOne(cfg, p, c, now);
    InsertedOk(cfg, p, c, now);
    var p', id := Inserted(cfg, p, c, now), cfg.WindowId(c.timestamp);
    RemoveOne(p', id);
    if |p'| > cfg.maxPending {
      RemoveOne(p', Least(p'.Keys));
    }
  }

  lemma InsertedOk(cfg: MergerConfig, p: Pending, c: Chunk, now: Duration)
    requires cfg.Valid() && PendingOk(cfg, p) && c.source.Some?
    ensures var p', id := Inserted(cfg, p, c, now), cfg.WindowId(c.timestamp);
            && id in p' && |p'| <= cfg.maxPending + 1
            && (forall j :: j in p' ==> p'[j].chunks != map[] && Belongs(cfg, j, p'[j]))
            && (forall j :: j in p' && j != id ==> WindowOk(cfg, j, p'[j]))
  {
    hide AsMillis, FromMillis, MergerConfig.WindowId, MergerConfig.IsComplete, Belongs;
    var p', id := Inserted(cfg, p, c, now), cfg.WindowId(c.timestamp);
    InsertedSize(cfg, p, c, now);
    forall j | j in p'
      ensures p'[j].chunks != map[] && Belongs(cfg, j, p'[j]) && (j != id ==> WindowOk(cfg, j, p'[j]))
    {
      if j == id {
        OpenedBelongs(cfg, p, id, now);
        InsertedBelongs(cfg, Opened(cfg, p, id, now), c, id);
      } else {
        assert WindowOk(cfg, j, p[j]);
      }
    }
  }

  lemma OpenedBelongs(cfg: MergerConfig, p: Pending, id: nat, now: Duration)
    requires cfg.Valid() && PendingOk(cfg, p)
    ensures Belongs(cfg, id, Opened(cfg, p, id, now))
  {
    hide AsMillis, FromMillis, MergerConfig.WindowId, MergerConfig.IsComplete;
  }

  lemma InsertedBelongs(cfg: MergerConfig, w: Window, c: Chunk, id: nat)
    requires cfg.Valid() && c.source.Some? && Belongs(cfg, id, w) && cfg.WindowId(c.timestamp) == id
    ensures var w' := w.(chunks := w.chunks[c.source.value := c]);
            w'.chunks != map[] && Belongs(cfg, id, w')
  {
    hide AsMillis, FromMillis, MergerConfig.WindowId;
    assert c.source.value in w.chunks[c.source.value := c];
  }

  lemma TimedOutKeepsInvariant(cfg: MergerConfig, p: Pending, now: Duration, p': Pending, emitted: seq<Emission>)
    requires cfg.Valid() && PendingOk(cfg, p) && TimedOutStep(cfg, p, now, p', emitted)
    ensures PendingOk(cfg, p')
    ensures forall e :: e in emitted ==> WindowOk(cfg, e.id, e.window)
  {
    assert p'.Keys <= p.Keys;
    SubsetSize(p'.Keys, p.Keys);
    assert |p'| == |p'.Keys| && |p| == |p.Keys|;
  }

  lemma SubsetSize<T>(a: set<T>, b: set<T>)
    requires a <= b
    ensures |a| <= |b|
  {
    assert b == a + (b - a);
  }

  // ---------- the code ----------

  class TimeWindowMerger {
    const cfg: MergerConfig
    var pending: Pending

    ghost predicate Valid()
      reads this
    {
      cfg.Valid() && PendingOk(cfg, pending)
    }

    /** Any configuration is accepted; one that is not valid panics at the first chunk. */
    constructor WithMaxPending(cfg: MergerConfig)
      ensures this.cfg == cfg && pending == map[] && (cfg.Valid() ==> Valid())
    {
      this.cfg := cfg;
      pending := map[];
    }

    method AddChunk(chunk: Chunk, now: Duration) returns (results: seq<MergeResult>)
      requires cfg.Valid() && PendingOk(cfg, pending)
      modifies this
      ensures cfg.Valid() && PendingOk(cfg, pending)
      ensures chunk.source.None? ==> results == [] && pending == old(pending)
      ensures chunk.source.Some? ==>
                var o := Fed(cfg, old(pending), chunk, now);
                pending == o.pending && ReportsAll(cfg, o.emitted, results)
    {
      hide Reports, Evicted, PendingOk, Least, AsMillis, FromMillis, MergerConfig.IsComplete, MergerConfig.WindowId;
      results := [];
      if chunk.source.None? {
        return;
      }
      FedKeepsInvariant(cfg, pending, chunk, now);
      var windowId := cfg.WindowId(chunk.timestamp);
      if windowId !in pending {
        pending := pending[windowId := Window(map[], now, FromMillis(windowId * AsMillis(cfg.windowDuration)))];
      }
      var window := pending[windowId];
      pending := pending[windowId := window.(chunks := window.chunks[chunk.source.value := chunk])];
      assert pending == Inserted(cfg, old(pending), chunk, now);
      if cfg.IsComplete(pending[windowId]) {
        var result := EmitWindow(windowId);
        results := results + [result];
      }
      var evicted := EvictExcessWindows();
      results := results + evicted;
    }

    method EvictExcessWindows() returns (results: seq<MergeResult>)
      requires cfg.Valid()
      modifies this
      ensures pending == Evicted(old(pending), cfg.maxPending).pending
      ensures ReportsAll(cfg, Evicted(old(pending), cfg.maxPending).emitted, results)
    {
      hide *;
      results := [];
      ghost var emitted: seq<Emission> := [];
      NothingEmitted(cfg, pending);
      while |pending| > cfg.maxPending
        invariant ReportsAll(cfg, emitted, results)
        invariant Evicted(old(pending), cfg.maxPending).pending == Evicted(pending, cfg.maxPending).pending
        invariant Evicted(old(pending), cfg.maxPending).emitted == emitted + Evicted(pending, cfg.maxPending).emitted
        decreases |pending|
      {
        EvictedUnfolds(pending, cfg.maxPending);
        var oldest := LeastKey(pending.Keys);
        RemoveOne(pending, oldest);
        ghost var e := Emission(oldest, pending[oldest]);
        var result := EmitWindow(oldest);
        ReportsOneMore(cfg, emitted, results, e, result);
        emitted := emitted + [e];
        results := results + [result];
      }
      EvictedUnfolds(pending, cfg.maxPending);
      assert emitted + [] == emitted;
    }

    static method LeastKey(keys: set<nat>) returns (least: nat)
      requires keys != {}
      ensures least == Least(keys)
    {
      least :| least in keys;
      var rest := keys - {least};
      while rest != {}
        invariant rest <= keys && least in keys
        invariant forall j :: j in keys && j !in rest ==> least <= j
        decreases |rest|
      {
        var k :| k in rest;
        if k < least {
          least := k;
        }
        rest := rest - {k};
      }
    }

    method CheckTimeouts(now: Duration) returns (results: seq<MergeResult>, ghost emitted: seq<Emission>)
      requires cfg.Valid() && PendingOk(cfg, pending)
      modifies this
      ensures cfg.Valid() && PendingOk(cfg, pending)
      ensures TimedOutStep(cfg, old(pending), now, pending, emitted)
      ensures ReportsAll(cfg, emitted, results)
    {
      hide *;
      results, emitted := [], [];
      var timedOut := TimedOut(cfg, pending, now);
      TimedOutIsPending(cfg, pending, now);
      var left := timedOut;
      ghost var done: set<nat> := {};
      NothingEmitted(cfg, pending);
      while left != {}
        invariant done <= timedOut && left == timedOut - done && pending == old(pending) - done
        invariant EmitsExactly(emitted, old(pending), done) && ReportsAll(cfg, emitted, results)
        decreases |left|
      {
        var id :| id in left;
        var result := EmitWindow(id);
        EmitsOneMore(emitted, old(pending), done, id);
        ReportsOneMore(cfg, emitted, results, Emission(id, old(pending)[id]), result);
        emitted := emitted + [Emission(id, old(pending)[id])];
        results := results + [result];
        RemoveTwice(old(pending), done, id);
        done := done + {id};
        left := left - {id};
      }
      assert done == timedOut;
      AreTheTimedOut(cfg, old(pending), now, pending, emitted);
      TimedOutKeepsInvariant(cfg, old(pending), now, pending, emitted);
    }

    method EmitWindow(windowId: nat) returns (result: MergeResult)
      requires cfg.Valid() && windowId in pending
      modifies this
      ensures pending == old(pending) - {windowId}
      ensures Reports(cfg, Emission(windowId, old(pending)[windowId]), result)
    {
      var window := pending[windowId];
      pending := pending - {windowId};
      var missing := Missing(cfg.expected, window.chunks);
      var merged := MergeChunks(window);
      result := MergeResult(merged, windowId, missing);
    }

    method MergeChunks(window: Window) returns (merged: Chunk)
      ensures IsMergeOf(cfg, window, merged)
    {
      hide MixedSample, SumAt;
      var chunks := window.chunks;
      if chunks == map[] {
        return Silence(cfg, window.timestamp);
      }
      var firstSource :| firstSource in chunks;
      var first := chunks[firstSource];
      NonEmptyMap(chunks, firstSource);
      var sums := Accumulate(chunks, |first.samples|);
      var divisor := Max(|cfg.expected|, |chunks|);
      var samples := AverageAndClamp(sums, divisor);
      MixedFromSums(chunks, divisor, sums, samples);
      merged := Chunk(samples, window.timestamp, first.sampleRate, first.channels, None);
      assert merged.samples == MergedFrom(cfg, window, firstSource).samples;
    }
  }

  lemma TimedOutIsPending(cfg: MergerConfig, p: Pending, now: Duration)
    ensures TimedOut(cfg, p, now) <= p.Keys
  {
  }

  lemma RemoveTwice(p: Pending, ids: set<nat>, id: nat)
    ensures p - ids - {id} == p - (ids + {id})
  {
  }

  lemma AreTheTimedOut(cfg: MergerConfig, p: Pending, now: Duration, p': Pending, emitted: seq<Emission>)
    requires TimedOut(cfg, p, now) <= p.Keys
    requires p' == p - TimedOut(cfg, p, now) && EmitsExactly(emitted, p, TimedOut(cfg, p, now))
    ensures TimedOutStep(cfg, p, now, p', emitted)
  {
  }

  lemma ReportsOneMore(cfg: MergerConfig, emitted: seq<Emission>, results: seq<MergeResult>, e: Emission,
                       r: MergeResult)
    requires ReportsAll(cfg, emitted, results) && Reports(cfg, e, r)
    ensures ReportsAll(cfg, emitted + [e], results + [r])
  {
    hide Reports;
  }

  lemma NothingEmitted(cfg: MergerConfig, p: Pending)
    ensures EmitsExactly([], p, {}) && ReportsAll(cfg, [], []) && p - {} == p
  {
  }

  lemma EmitsOneMore(emitted: seq<Emission>, p: Pending, ids: set<nat>, id: nat)
    requires ids <= p.Keys && EmitsExactly(emitted, p, ids) && id in p && id !in ids
    ensures EmitsExactly(emitted + [Emission(id, p[id])], p, ids + {id})
  {
    var more := emitted + [Emission(id, p[id])];
    forall j | j in ids + {id}
      ensures exists i :: 0 <= i < |more| && more[i].id == j
    {
      if j == id {
        assert more[|emitted|].id == id;
      } else {
        var i :| 0 <= i < |emitted| && emitted[i].id == j;
        assert more[i].id == j;
      }
    }
  }

  /** The accumulation loops of `merge_chunks`: `i32` sums, which wrap, over the sources in any order. */
  method Accumulate(chunks: map<SourceId, Chunk>, len: nat) returns (sums: seq<int>)
    ensures |sums| == len && Accumulated(sums, chunks, chunks.Keys)
  {
    hide *;
    var merged := new int[len](_ => 0);
    ghost var done: set<SourceId> := {};
    var left := chunks.Keys;
    NothingSummed(merged[..], chunks);
    while left != {}
      invariant done <= chunks.Keys && left == chunks.Keys - done
      invariant Accumulated(merged[..], chunks, done)
      decreases |left|
    {
      var source :| source in left;
      ghost var before := merged[..];
      AddChunkSamples(merged, chunks[source].samples);
      AccumulatedOneMore(before, merged[..], chunks, done, source);
      done := done + {source};
      left := left - {source};
    }
    assert done == chunks.Keys;
    sums := merged[..];
  }

  /** The accumulator holds the wrapped sums over the sources visited so far. */
  ghost predicate Accumulated(sums: seq<int>, chunks: map<SourceId, Chunk>, done: set<SourceId>)
    requires done <= chunks.Keys
  {
    forall i :: 0 <= i < |sums| ==> sums[i] == Wrap32(SumAt(chunks, done, i))
  }

  predicate Added(before: seq<int>, after: seq<int>, samples: seq<Sample>)
  {
    |before| == |after| && forall t :: 0 <= t < |after| ==>
      after[t] == if t < |samples| then Wrap32(before[t] + samples[t]) else before[t]
  }

  lemma AccumulatedOneMore(before: seq<int>, after: seq<int>, chunks: map<SourceId, Chunk>, done: set<SourceId>,
                           s: SourceId)
    requires done <= chunks.Keys && s in chunks && s !in done
    requires Accumulated(before, chunks, done) && Added(before, after, chunks[s].samples)
    ensures Accumulated(after, chunks, done + {s})
  {
    hide SumAt, Wrap32;
    forall t | 0 <= t < |after|
      ensures after[t] == Wrap32(SumAt(chunks, done + {s}, t))
    {
      SumAtAdd(chunks, done + {s}, s, t);
      assert done + {s} - {s} == done;
      WrapAbsorbs(SumAt(chunks, done, t), Contribution(chunks[s], t));
    }
  }

  lemma NothingSummed(sums: seq<int>, chunks: map<SourceId, Chunk>)
    requires forall t :: 0 <= t < |sums| ==> sums[t] == 0
    ensures Accumulated(sums, chunks, {})
  {
  }

  /** Adds the samples that fit to the accumulator, in place. */
  method AddChunkSamples(merged: array<int>, samples: seq<Sample>)
    modifies merged
    ensures Added(old(merged[..]), merged[..], samples)
  {
    hide Wrap32;
    for i := 0 to Min(|samples|, merged.Length)
      invariant forall t :: 0 <= t < i ==> merged[t] == Wrap32(old(merged[t]) + samples[t])
      invariant forall t :: i <= t < merged.Length ==> merged[t] == old(merged[t])
    {
      merged[i] := Wrap32(merged[i] + samples[i]);
    }
  }

  function AverageAndClamp(accumulated: seq<int>, divisor: nat): seq<Sample>
    requires 0 < divisor
  {
    seq(|accumulated|, (i: nat) requires i < |accumulated| => ClampSample(TruncDiv(accumulated[i], divisor)))
  }

  lemma MixedFromSums(chunks: map<SourceId, Chunk>, divisor: nat, sums: seq<int>, samples: seq<Sample>)
    requires 0 < divisor && samples == AverageAndClamp(sums, divisor)
    requires Accumulated(sums, chunks, chunks.Keys)
    ensures |samples| == |sums|
    ensures forall i :: 0 <= i < |sums| ==> samples[i] == MixedSample(chunks, divisor, i)
  {
    hide SumAt, Wrap32, TruncDiv, ClampSample;
  }
}
