/**
 The merger as a barrier (src/pipeline/merger.rs, src/config.rs): when every source's j-th chunk falls
 in window j, the merger pairs up the j-th chunks of all sources, in order, exactly as long as no
 source runs more than `max_pending` chunks ahead of another.
 */
module Barrier {

  import opened Audio
  import opened Merger
  import opened MergerRuns

  function Count(fed: seq<Chunk>, s: SourceId): nat
  {
    |FromSource(fed, s)|
  }

  /**
   The operation is an expected source's next chunk, in the window of its number, or a tick that finds nothing
   timed out.
   */
  ghost predicate AlignedOp(cfg: MergerConfig, h: History, op: Op)
    requires cfg.Valid()
  {
    match op
    case Feed(c, _) =>
      c.source.Some? && c.source.value in cfg.expected && cfg.WindowId(c.timestamp) == Count(h.fed, c.source.value)
    case Tick(now) => TimedOut(cfg, h.pending, now) == {}
  }

  ghost predicate AlignedRun(cfg: MergerConfig, hs: seq<History>, ops: seq<Op>)
    requires cfg.Valid()
  {
    IsRun(cfg, hs, ops) && forall i :: 0 <= i < |ops| ==> AlignedOp(cfg, hs[i], ops[i])
  }

  /** No expected source is more than `max_pending` chunks ahead of another. */
  ghost predicate WithinSkew(cfg: MergerConfig, fed: seq<Chunk>)
  {
    forall s, t :: s in cfg.expected && t in cfg.expected ==> Count(fed, s) <= Count(fed, t) + cfg.maxPending
  }

  /** Row `w`: chunk number `w` of every source that has delivered that many. */
  ghost function Row(cfg: MergerConfig, fed: seq<Chunk>, w: nat): map<SourceId, Chunk>
  {
    map s | s in cfg.expected && w < Count(fed, s) :: FromSource(fed, s)[w]
  }

  /** `m` is the fewest chunks any expected source has delivered. */
  ghost predicate IsFewest(cfg: MergerConfig, fed: seq<Chunk>, m: nat)
  {
    && (exists s :: s in cfg.expected && Count(fed, s) == m)
    && (forall s :: s in cfg.expected ==> m <= Count(fed, s))
  }

  /** The open windows are the unfinished rows. */
  ghost predicate OpenRows(cfg: MergerConfig, fed: seq<Chunk>, m: nat, p: Pending)
  {
    && (forall w: nat {:trigger w in p} :: w in p <==> m <= w && Row(cfg, fed, w) != map[])
    && (forall w: nat {:trigger p[w]} :: w in p ==> p[w].chunks == Row(cfg, fed, w))
  }

  /** The emitted windows are the finished rows, each once, in order. */
  ghost predicate FinishedRows(cfg: MergerConfig, fed: seq<Chunk>, m: nat, emitted: seq<Emission>)
  {
    |emitted| == m &&
    forall j :: 0 <= j < m ==> emitted[j].id == j && emitted[j].window.chunks == Row(cfg, fed, j)
  }

  ghost predicate InStep(cfg: MergerConfig, h: History, m: nat)
  {
    && IsFewest(cfg, h.fed, m) && OpenRows(cfg, h.fed, m, h.pending) && FinishedRows(cfg, h.fed, m, h.emitted)
    && h.superseded == []
  }

  // ---------- one more chunk ----------

  lemma CountAppend(fed: seq<Chunk>, c: Chunk, s: SourceId)
    ensures Count(fed + [c], s) == Count(fed, s) + if c.source == Some(s) then 1 else 0
  {
    FromSourceAppend(fed, c, s);
  }

  lemma RowAppend(cfg: MergerConfig, fed: seq<Chunk>, c: Chunk, s: SourceId, w: nat)
    requires c.source == Some(s) && s in cfg.expected
    ensures Row(cfg, fed + [c], w)
         == if w == Count(fed, s) then Row(cfg, fed, w)[s := c] else Row(cfg, fed, w)
  {
    hide FromSource;
    var before, after := Row(cfg, fed, w), Row(cfg, fed + [c], w);
    forall t | t in cfg.expected
      ensures FromSource(fed + [c], t) == FromSource(fed, t) + if t == s then [c] else []
    {
      FromSourceAppend(fed, c, t);
    }
  }

  lemma RowIsEmptyIff(cfg: MergerConfig, fed: seq<Chunk>, w: nat)
    ensures Row(cfg, fed, w) == map[] <==> forall s :: s in cfg.expected ==> Count(fed, s) <= w
  {
    hide FromSource;
    var row := Row(cfg, fed, w);
    assert forall s :: s in row <==> s in cfg.expected && w < Count(fed, s);
  }

  /** Storing the chunk extends the open rows. */
  lemma InsertExtendsRows(cfg: MergerConfig, h: History, m: nat, c: Chunk, now: Duration)
    requires cfg.Valid() && InStep(cfg, h, m) && AlignedOp(cfg, h, Feed(c, now))
    ensures OpenRows(cfg, h.fed + [c], m, Inserted(cfg, h.pending, c, now))
  {
    hide Row, Count, AsMillis, FromMillis, MergerConfig.WindowId;
    var s := c.source.value;
    var k := Count(h.fed, s);
    var p' := Inserted(cfg, h.pending, c, now);
    assert p'.Keys == h.pending.Keys + {k};
    assert m <= k;
    RowAppend(cfg, h.fed, c, s, k);
    assert c == Row(cfg, h.fed + [c], k)[s];
    forall w: nat
      ensures w in p' <==> m <= w && Row(cfg, h.fed + [c], w) != map[]
      ensures w in p' ==> p'[w].chunks == Row(cfg, h.fed + [c], w)
    {
      RowAppend(cfg, h.fed, c, s, w);
    }
  }

  lemma CompleteIff(cfg: MergerConfig, fed: seq<Chunk>, w: nat, window: Window)
    requires window.chunks == Row(cfg, fed, w)
    ensures cfg.IsComplete(window) <==> forall t :: t in cfg.expected ==> w < Count(fed, t)
  {
    hide Count;
  }

  lemma OpenRowHolds(cfg: MergerConfig, fed: seq<Chunk>, m: nat, p: Pending, w: nat)
    requires OpenRows(cfg, fed, m, p) && w in p
    ensures p[w].chunks == Row(cfg, fed, w)
  {
    hide Row;
  }

  lemma FinishedRowLeaves(cfg: MergerConfig, fed: seq<Chunk>, m: nat, p: Pending)
    requires OpenRows(cfg, fed, m, p)
    ensures OpenRows(cfg, fed, m + 1, p - {m})
  {
    hide Row;
    forall w: nat
      ensures w in p - {m} <==> w in p && w != m
    {
    }
  }

  lemma CountsAfter(cfg: MergerConfig, fed: seq<Chunk>, c: Chunk)
    ensures forall t :: t in cfg.expected ==>
              Count(fed + [c], t) == Count(fed, t) + if c.source == Some(t) then 1 else 0
  {
    hide Count;
    forall t | t in cfg.expected
      ensures Count(fed + [c], t) == Count(fed, t) + if c.source == Some(t) then 1 else 0
    {
      CountAppend(fed, c, t);
    }
  }

  lemma FinishedRowsStay(cfg: MergerConfig, fed: seq<Chunk>, c: Chunk, s: SourceId, m: nat, emitted: seq<Emission>)
    requires c.source == Some(s) && s in cfg.expected && m <= Count(fed, s) && FinishedRows(cfg, fed, m, emitted)
    ensures FinishedRows(cfg, fed + [c], m, emitted)
  {
    hide Row, Count;
    forall j | 0 <= j < m
      ensures Row(cfg, fed + [c], j) == Row(cfg, fed, j)
    {
      RowAppend(cfg, fed, c, s, j);
    }
  }

  /** Some source is still without its chunk `m`. */
  lemma StillFewest(cfg: MergerConfig, fed: seq<Chunk>, c: Chunk, s: SourceId, m: nat)
    requires c.source == Some(s) && s in cfg.expected && IsFewest(cfg, fed, m)
    requires exists u :: u in cfg.expected && Count(fed + [c], u) <= Count(fed, s)
    ensures IsFewest(cfg, fed + [c], m)
  {
    hide Count;
    CountsAfter(cfg, fed, c);
    var u :| u in cfg.expected && Count(fed + [c], u) <= Count(fed, s);
    var t :| t in cfg.expected && Count(fed, t) == m;
    assert Count(fed + [c], if t == s then u else t) == m;
  }

  lemma NextFewest(cfg: MergerConfig, fed: seq<Chunk>, c: Chunk, s: SourceId, m: nat)
    requires c.source == Some(s) && s in cfg.expected && IsFewest(cfg, fed, m)
    requires forall t :: t in cfg.expected ==> Count(fed, s) < Count(fed + [c], t)
    ensures Count(fed, s) == m && IsFewest(cfg, fed + [c], m + 1)
  {
    hide Count;
    CountsAfter(cfg, fed, c);
    assert Count(fed + [c], s) == m + 1;
  }

  /** The chunk that completes a window completes the oldest one. */
  lemma CompletingStep(cfg: MergerConfig, h: History, m: nat, c: Chunk, now: Duration)
    requires cfg.Valid() && InStep(cfg, h, m) && AlignedOp(cfg, h, Feed(c, now))
    requires cfg.IsComplete(Inserted(cfg, h.pending, c, now)[cfg.WindowId(c.timestamp)])
    ensures cfg.WindowId(c.timestamp) == m && IsFewest(cfg, h.fed + [c], m + 1)
    ensures var p' := Inserted(cfg, h.pending, c, now);
            && m in p' && OpenRows(cfg, h.fed + [c], m + 1, p' - {m})
            && FinishedRows(cfg, h.fed + [c], m + 1, h.emitted + [Emission(m, p'[m])])
  {
    hide Row, Count, Inserted, AsMillis, FromMillis, MergerConfig.WindowId, MergerConfig.IsComplete, OpenRows, IsFewest,
         FinishedRows, MergerConfig.Valid;
    var s := c.source.value;
    var k, fed', p' := Count(h.fed, s), h.fed + [c], Inserted(cfg, h.pending, c, now);
    InsertExtendsRows(cfg, h, m, c, now);
    InsertedSize(cfg, h.pending, c, now);
    OpenRowHolds(cfg, fed', m, p', k);
    CompleteIff(cfg, fed', k, p'[k]);
    NextFewest(cfg, h.fed, c, s, m);
    FinishedRowLeaves(cfg, fed', m, p');
    FinishedRowsStay(cfg, h.fed, c, s, m, h.emitted);
    FinishedRowsGrow(cfg, fed', m, h.emitted, Emission(m, p'[m]));
  }

  lemma FinishedRowsGrow(cfg: MergerConfig, fed: seq<Chunk>, m: nat, emitted: seq<Emission>, e: Emission)
    requires FinishedRows(cfg, fed, m, emitted) && e.id == m && e.window.chunks == Row(cfg, fed, m)
    ensures FinishedRows(cfg, fed, m + 1, emitted + [e])
  {
    hide Row;
  }

  /** A chunk that completes nothing leaves the oldest row unfinished. */
  lemma WaitingStep(cfg: MergerConfig, h: History, m: nat, c: Chunk, now: Duration)
    requires cfg.Valid() && InStep(cfg, h, m) && AlignedOp(cfg, h, Feed(c, now))
    requires !cfg.IsComplete(Inserted(cfg, h.pending, c, now)[cfg.WindowId(c.timestamp)])
    ensures IsFewest(cfg, h.fed + [c], m) && FinishedRows(cfg, h.fed + [c], m, h.emitted)
  {
    hide Row, Count, Inserted, AsMillis, FromMillis, MergerConfig.WindowId, MergerConfig.IsComplete, OpenRows, IsFewest,
         FinishedRows, MergerConfig.Valid;
    var s := c.source.value;
    var k, fed', p' := Count(h.fed, s), h.fed + [c], Inserted(cfg, h.pending, c, now);
    InsertExtendsRows(cfg, h, m, c, now);
    InsertedSize(cfg, h.pending, c, now);
    OpenRowHolds(cfg, fed', m, p', k);
    CompleteIff(cfg, fed', k, p'[k]);
    StillFewest(cfg, h.fed, c, s, m);
    FewestIsLeast(cfg, h.fed, m, s);
    FinishedRowsStay(cfg, h.fed, c, s, m, h.emitted);
  }

  lemma FewestIsLeast(cfg: MergerConfig, fed: seq<Chunk>, m: nat, s: SourceId)
    requires IsFewest(cfg, fed, m) && s in cfg.expected
    ensures m <= Count(fed, s)
  {
    hide Count;
  }

  // ---------- how many rows are open ----------

  lemma {:induction false} IntervalSize(keys: set<nat>, lo: nat, n: nat)
    requires forall k :: k in keys ==> lo <= k < lo + n
    ensures |keys| <= n
  {
    if n == 0 {
      assert keys == {};
    } else {
      var top := lo + n - 1;
      IntervalSize(keys - {top}, lo, n - 1);
      if top in keys {
        assert keys == (keys - {top}) + {top};
      } else {
        assert keys - {top} == keys;
      }
    }
  }

  lemma {:induction false} IntervalFills(keys: set<nat>, lo: nat, n: nat)
    requires forall k: nat :: lo <= k < lo + n ==> k in keys
    ensures n <= |keys|
  {
    if n > 0 {
      IntervalFills(keys - {lo + n - 1}, lo, n - 1);
      assert keys == (keys - {lo + n - 1}) + {lo + n - 1};
    }
  }

  lemma OpenRowsFit(cfg: MergerConfig, fed: seq<Chunk>, m: nat, p: Pending)
    requires IsFewest(cfg, fed, m) && OpenRows(cfg, fed, m, p) && WithinSkew(cfg, fed)
    ensures |p| <= cfg.maxPending
  {
    hide Row, Count;
    forall w | w in p.Keys
      ensures m <= w < m + cfg.maxPending
    {
      RowIsEmptyIff(cfg, fed, w);
    }
    IntervalSize(p.Keys, m, cfg.maxPending);
    assert |p| == |p.Keys|;
  }

  lemma OpenRowsOverflow(cfg: MergerConfig, fed: seq<Chunk>, m: nat, p: Pending)
    requires IsFewest(cfg, fed, m) && OpenRows(cfg, fed, m, p) && !WithinSkew(cfg, fed)
    ensures cfg.maxPending < |p| && m in p && Least(p.Keys) == m && !cfg.IsComplete(p[m])
  {
    hide Row, Count, MergerConfig.IsComplete;
    var a, b :| a in cfg.expected && b in cfg.expected && Count(fed, b) + cfg.maxPending < Count(fed, a);
    assert m <= Count(fed, b);
    forall w: nat | m <= w < m + cfg.maxPending + 1
      ensures w in p.Keys
    {
      RowIsEmptyIff(cfg, fed, w);
    }
    IntervalFills(p.Keys, m, cfg.maxPending + 1);
    assert |p| == |p.Keys|;
    CompleteIff(cfg, fed, m, p[m]);
  }

  // ---------- one step ----------

  lemma FeedStaysInStep(cfg: MergerConfig, h: History, m: nat, c: Chunk, now: Duration, h': History) returns (m': nat)
    requires cfg.Valid() && PendingOk(cfg, h.pending) && InStep(cfg, h, m) && AlignedOp(cfg, h, Feed(c, now))
    requires Next(cfg, h, Feed(c, now), h') && WithinSkew(cfg, h'.fed)
    ensures InStep(cfg, h', m')
  {
    hide Fed, Inserted, Replaced, HasId, AsMillis, FromMillis, MergerConfig.WindowId, MergerConfig.IsComplete,
         PendingOk, IsFewest, OpenRows, FinishedRows, WithinSkew, Count;
    FedEmitsAtMostOne(cfg, h.pending, c, now);
    NothingReplaced(cfg, h, m, c, now);
    var p' := Inserted(cfg, h.pending, c, now);
    InsertedSize(cfg, h.pending, c, now);
    if cfg.IsComplete(p'[cfg.WindowId(c.timestamp)]) {
      CompletingStep(cfg, h, m, c, now);
      m' := m + 1;
    } else {
      WaitingStep(cfg, h, m, c, now);
      InsertExtendsRows(cfg, h, m, c, now);
      OpenRowsFit(cfg, h'.fed, m, p');
      assert h.emitted + [] == h.emitted;
      m' := m;
    }
  }

  /** A source's next chunk finds its place in the row free. */
  lemma NothingReplaced(cfg: MergerConfig, h: History, m: nat, c: Chunk, now: Duration)
    requires cfg.Valid() && InStep(cfg, h, m) && AlignedOp(cfg, h, Feed(c, now))
    ensures Replaced(cfg, h.pending, c) == []
  {
    hide Count, AsMillis, FromMillis, MergerConfig.WindowId, OpenRows, IsFewest, FinishedRows;
    var k := cfg.WindowId(c.timestamp);
    if k in h.pending {
      OpenRowHolds(cfg, h.fed, m, h.pending, k);
    }
  }

  /** The step in which some source gets too far ahead evicts the oldest window, incomplete. */
  lemma FeedBeyondSkewEvicts(cfg: MergerConfig, h: History, m: nat, c: Chunk, now: Duration, h': History)
    requires cfg.Valid() && PendingOk(cfg, h.pending) && InStep(cfg, h, m) && AlignedOp(cfg, h, Feed(c, now))
    requires Next(cfg, h, Feed(c, now), h') && WithinSkew(cfg, h.fed) && !WithinSkew(cfg, h'.fed)
    ensures |h'.emitted| == m + 1 && h'.emitted[m].id == m && !cfg.IsComplete(h'.emitted[m].window)
  {
    hide Fed, Inserted, Replaced, HasId, AsMillis, FromMillis, MergerConfig.WindowId, MergerConfig.IsComplete,
         PendingOk, OpenRows, WithinSkew, Count, Row;
    FedEmitsAtMostOne(cfg, h.pending, c, now);
    var p' := Inserted(cfg, h.pending, c, now);
    InsertedSize(cfg, h.pending, c, now);
    InsertExtendsRows(cfg, h, m, c, now);
    if cfg.IsComplete(p'[cfg.WindowId(c.timestamp)]) {
      CompletingStep(cfg, h, m, c, now);
      CompletingKeepsSkew(cfg, h, m, c);
    } else {
      WaitingStep(cfg, h, m, c, now);
      OpenRowsOverflow(cfg, h'.fed, m, p');
    }
  }

  lemma CompletingKeepsSkew(cfg: MergerConfig, h: History, m: nat, c: Chunk)
    requires WithinSkew(cfg, h.fed) && IsFewest(cfg, h.fed + [c], m + 1)
    requires c.source.Some? && c.source.value in cfg.expected && Count(h.fed, c.source.value) == m
    ensures WithinSkew(cfg, h.fed + [c])
  {
    hide Count;
    forall t | t in cfg.expected
      ensures Count(h.fed + [c], t) == Count(h.fed, t) + if t == c.source.value then 1 else 0
    {
      CountAppend(h.fed, c, t);
    }
  }

  lemma TickStaysInStep(cfg: MergerConfig, h: History, m: nat, now: Duration, h': History)
    requires cfg.Valid() && InStep(cfg, h, m) && AlignedOp(cfg, h, Tick(now)) && Next(cfg, h, Tick(now), h')
    ensures InStep(cfg, h', m) && h'.fed == h.fed && h'.emitted == h.emitted
  {
    hide Row, Count, OpenRows, FinishedRows, IsFewest;
    var es: seq<Emission> :| TimedOutStep(cfg, h.pending, now, h'.pending, es) &&
                             h' == h.(pending := h'.pending, emitted := h.emitted + es);
    FirstEmitted(es, h.pending, TimedOut(cfg, h.pending, now));
    assert h.pending - {} == h.pending;
    assert h.emitted + [] == h.emitted;
  }

  // ---------- whole runs ----------

  lemma {:induction false} RunStaysInStep(cfg: MergerConfig, hs: seq<History>, ops: seq<Op>, i: nat) returns (m: nat)
    requires cfg.Valid() && cfg.expected != [] && AlignedRun(cfg, hs, ops) && i < |hs|
    requires forall j :: 0 <= j <= i ==> WithinSkew(cfg, hs[j].fed)
    ensures InStep(cfg, hs[i], m)
  {
    hide Next, AlignedOp, InStep, WithinSkew;
    if i == 0 {
      StartsInStep(cfg);
      m := 0;
    } else {
      m := RunStaysInStep(cfg, hs, ops, i - 1);
      RunConserves(cfg, hs, ops, i - 1);
      match ops[i - 1]
      case Feed(c, now) => m := FeedStaysInStep(cfg, hs[i - 1], m, c, now, hs[i]);
      case Tick(now) => TickStaysInStep(cfg, hs[i - 1], m, now, hs[i]);
    }
  }

  lemma StartsInStep(cfg: MergerConfig)
    requires cfg.expected != []
    ensures InStep(cfg, History(map[], [], [], [], false), 0)
  {
    var s := cfg.expected[0];
    assert Count([], s) == 0;
    forall w: nat
      ensures Row(cfg, [], w) == map[]
    {
      assert forall t :: Count([], t) == 0;
    }
  }

  /**
   The barrier. As long as no source is more than `max_pending` chunks ahead, the merger has emitted
   windows 0 to m - 1, each once and in ascending order, where m is the fewest chunks any source has
   delivered; window j holds precisely the j-th chunk of every expected source, and no chunk was superseded.
   */
  lemma BarrierPairsChunks(cfg: MergerConfig, hs: seq<History>, ops: seq<Op>, i: nat, m: nat)
    requires cfg.Valid() && cfg.expected != [] && AlignedRun(cfg, hs, ops) && i < |hs|
    requires forall j :: 0 <= j <= i ==> WithinSkew(cfg, hs[j].fed)
    requires IsFewest(cfg, hs[i].fed, m)
    ensures |hs[i].emitted| == m && hs[i].superseded == []
    ensures forall j :: 0 <= j < m ==> hs[i].emitted[j].id == j && cfg.IsComplete(hs[i].emitted[j].window)
    ensures forall j, s :: 0 <= j < m && s in cfg.expected ==>
              var chunks := hs[i].emitted[j].window.chunks;
              s in chunks && j < Count(hs[i].fed, s) && chunks[s] == FromSource(hs[i].fed, s)[j]
    ensures forall j, s :: 0 <= j < m && s in hs[i].emitted[j].window.chunks ==> s in cfg.expected
  {
    hide Next, AlignedOp, WithinSkew, OpenRows, FromSource;
    var n := RunStaysInStep(cfg, hs, ops, i);
    assert n == m;
  }

  /** All sources have delivered equally many chunks. */
  ghost predicate Level(cfg: MergerConfig, fed: seq<Chunk>)
  {
    forall s, t :: s in cfg.expected && t in cfg.expected ==> Count(fed, s) == Count(fed, t)
  }

  /** Within the skew bound no window is left open exactly when all sources have delivered equally many chunks. */
  lemma NothingPendingIffLevel(cfg: MergerConfig, hs: seq<History>, ops: seq<Op>, i: nat)
    requires cfg.Valid() && cfg.expected != [] && AlignedRun(cfg, hs, ops) && i < |hs|
    requires forall j :: 0 <= j <= i ==> WithinSkew(cfg, hs[j].fed)
    ensures hs[i].pending == map[] <==> Level(cfg, hs[i].fed)
  {
    hide AlignedRun, WithinSkew, FinishedRows, Count;
    var m := RunStaysInStep(cfg, hs, ops, i);
    NoOpenRowsIffLevel(cfg, hs[i].fed, m, hs[i].pending);
  }

  lemma NoOpenRowsIffLevel(cfg: MergerConfig, fed: seq<Chunk>, m: nat, p: Pending)
    requires IsFewest(cfg, fed, m) && OpenRows(cfg, fed, m, p)
    ensures p == map[] <==> Level(cfg, fed)
  {
    hide Row, Count;
    if Level(cfg, fed) {
      forall w | w in p
        ensures false
      {
        RowIsEmptyIff(cfg, fed, w);
      }
    } else {
      var s, t :| s in cfg.expected && t in cfg.expected && Count(fed, s) != Count(fed, t);
      RowIsEmptyIff(cfg, fed, m);
      assert m in p;
    }
  }

  lemma {:induction false} EmittedGrows(cfg: MergerConfig, hs: seq<History>, ops: seq<Op>, i: nat, j: nat)
    requires cfg.Valid() && IsRun(cfg, hs, ops) && i <= j < |hs|
    ensures hs[i].emitted <= hs[j].emitted
  {
    hide Fed, TimedOutStep, MergerConfig.WindowId, HasId, Replaced;
    if i < j {
      EmittedGrows(cfg, hs, ops, i, j - 1);
      assert Next(cfg, hs[j - 1], ops[j - 1], hs[j]);
    }
  }

  /**
   The exact condition. Over an aligned run in which no timeout fires, every emitted window is complete
   if and only if at no point was a source more than `max_pending` chunks ahead of another.
   */
  lemma {:induction false} CompleteIffWithinSkew(cfg: MergerConfig, hs: seq<History>, ops: seq<Op>)
    requires cfg.Valid() && cfg.expected != [] && AlignedRun(cfg, hs, ops)
    ensures (forall j :: 0 <= j < |hs[|ops|].emitted| ==> cfg.IsComplete(hs[|ops|].emitted[j].window))
       <==> (forall i :: 0 <= i < |hs| ==> WithinSkew(cfg, hs[i].fed))
  {
    hide Next, AlignedOp, WithinSkew, InStep, MergerConfig.IsComplete;
    if forall i :: 0 <= i < |hs| ==> WithinSkew(cfg, hs[i].fed) {
      var m := RunStaysInStep(cfg, hs, ops, |ops|);
      InStepIsFewest(cfg, hs[|ops|], m);
      BarrierPairsChunks(cfg, hs, ops, |ops|, m);
    } else {
      var i := FirstBeyondSkew(cfg, hs);
      StartIsWithinSkew(cfg);
      var m := RunStaysInStep(cfg, hs, ops, i - 1);
      RunConserves(cfg, hs, ops, i - 1);
      StepBeyondSkewEvicts(cfg, hs[i - 1], m, ops[i - 1], hs[i]);
      EmittedGrows(cfg, hs, ops, i, |ops|);
      assert hs[|ops|].emitted[m] == hs[i].emitted[m];
    }
  }

  lemma StepBeyondSkewEvicts(cfg: MergerConfig, h: History, m: nat, op: Op, h': History)
    requires cfg.Valid() && PendingOk(cfg, h.pending) && InStep(cfg, h, m) && AlignedOp(cfg, h, op)
    requires Next(cfg, h, op, h') && WithinSkew(cfg, h.fed) && !WithinSkew(cfg, h'.fed)
    ensures m < |h'.emitted| && !cfg.IsComplete(h'.emitted[m].window)
  {
    hide AlignedOp, WithinSkew, InStep, MergerConfig.IsComplete, Next, PendingOk;
    match op
    case Feed(c, now) => FeedBeyondSkewEvicts(cfg, h, m, c, now, h');
    case Tick(now) => TickStaysInStep(cfg, h, m, now, h');
  }

  lemma InStepIsFewest(cfg: MergerConfig, h: History, m: nat)
    requires InStep(cfg, h, m)
    ensures IsFewest(cfg, h.fed, m)
  {
  }

  lemma StartIsWithinSkew(cfg: MergerConfig)
    ensures WithinSkew(cfg, [])
  {
  }

  lemma FirstBeyondSkew(cfg: MergerConfig, hs: seq<History>) returns (i: nat)
    requires exists j :: 0 <= j < |hs| && !WithinSkew(cfg, hs[j].fed)
    ensures i < |hs| && !WithinSkew(cfg, hs[i].fed) && forall j :: 0 <= j < i ==> WithinSkew(cfg, hs[j].fed)
  {
    hide WithinSkew;
    i := 0;
    while WithinSkew(cfg, hs[i].fed)
      invariant i < |hs| && forall j :: 0 <= j < i ==> WithinSkew(cfg, hs[j].fed)
      decreases |hs| - i
    {
      i := i + 1;
    }
  }
}
