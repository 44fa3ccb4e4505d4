/**
 When a window times out (src/pipeline/merger.rs, `check_timeouts`), in terms of a run alone: of the moments at which
 chunks were added and checks were made.
 */
module Timeouts {

  import opened Audio
  import opened Merger
  import opened MergerRuns

  /** Operation `k` added the chunk that opened the window which is still open under `id` in state `i`. */
  ghost predicate Opens(cfg: MergerConfig, hs: seq<History>, ops: seq<Op>, i: nat, id: nat, k: nat)
    requires cfg.Valid()
  {
    && |hs| == |ops| + 1 && k < i < |hs|
    && ops[k].Feed? && ops[k].chunk.source.Some? && cfg.WindowId(ops[k].chunk.timestamp) == id
    && id !in hs[k].pending && forall m :: k < m <= i ==> id in hs[m].pending
  }

  /** `Instant::duration_since`, which saturates at zero. */
  function Elapsed(since: Duration, now: Duration): Duration
  {
    if now <= since then 0.0 else now - since
  }

  // ---------- since when a window is open ----------

  lemma FeedKeepsCreation(cfg: MergerConfig, p: Pending, c: Chunk, now: Duration, id: nat)
    requires cfg.Valid() && PendingOk(cfg, p) && c.source.Some? && id in Fed(cfg, p, c, now).pending
    ensures var p' := Fed(cfg, p, c, now).pending;
            if id in p then p'[id].createdAt == p[id].createdAt
            else id == cfg.WindowId(c.timestamp) && p'[id].createdAt == now
  {
    hide Fed, AsMillis, FromMillis, MergerConfig.WindowId, PendingOk;
    FedMoves(cfg, p, c, now);
  }

  lemma StepKeepsCreation(cfg: MergerConfig, h: History, op: Op, h': History, id: nat)
    requires cfg.Valid() && PendingOk(cfg, h.pending) && Next(cfg, h, op, h') && id in h'.pending
    ensures if id in h.pending then h'.pending[id].createdAt == h.pending[id].createdAt
            else op.Feed? && op.chunk.source.Some? && id == cfg.WindowId(op.chunk.timestamp)
                 && h'.pending[id].createdAt == op.now
  {
    hide Fed, MergerConfig.WindowId, PendingOk, Replaced, HasId, TimedOut, EmitsExactly;
    if op.Feed? && op.chunk.source.Some? {
      FeedKeepsCreation(cfg, h.pending, op.chunk, op.now, id);
    }
  }

  /** Every open window was opened by one operation of the run, and its creation time is that operation's moment. */
  lemma {:induction false} OpenSince(cfg: MergerConfig, hs: seq<History>, ops: seq<Op>, i: nat, id: nat)
    returns (k: nat)
    requires cfg.Valid() && IsRun(cfg, hs, ops) && i < |hs| && id in hs[i].pending
    ensures Opens(cfg, hs, ops, i, id, k) && hs[i].pending[id].createdAt == ops[k].now
  {
    hide Next, MergerConfig.WindowId, MergerConfig.Valid;
    assert 0 < i;
    RunConserves(cfg, hs, ops, i - 1);
    StepKeepsCreation(cfg, hs[i - 1], ops[i - 1], hs[i], id);
    if id in hs[i - 1].pending {
      k := OpenSince(cfg, hs, ops, i - 1, id);
    } else {
      k := i - 1;
    }
  }

  lemma OpenedOnce(cfg: MergerConfig, hs: seq<History>, ops: seq<Op>, i: nat, id: nat, k: nat, l: nat)
    requires cfg.Valid() && Opens(cfg, hs, ops, i, id, k) && Opens(cfg, hs, ops, i, id, l)
    ensures k == l
  {
    hide MergerConfig.WindowId;
  }

  // ---------- when it times out ----------

  /**
   A check at `now` leaves a window open if and only if the chunk that opened it was added less than the timeout
   before.
   */
  lemma CheckKeepsIff(cfg: MergerConfig, hs: seq<History>, ops: seq<Op>, i: nat, id: nat)
    requires cfg.Valid() && IsRun(cfg, hs, ops) && i < |ops| && ops[i].Tick?
    ensures id in hs[i + 1].pending <==>
            exists k: nat :: Opens(cfg, hs, ops, i, id, k) && Elapsed(ops[k].now, ops[i].now) < cfg.windowTimeout
  {
    hide Opens, MergerConfig.WindowId, MergerConfig.Valid, EmitsExactly;
    assert Next(cfg, hs[i], ops[i], hs[i + 1]);
    CheckLeaves(cfg, hs[i], ops[i].now, hs[i + 1], id);
    if id in hs[i].pending {
      var k := OpenSince(cfg, hs, ops, i, id);
      forall l: nat | Opens(cfg, hs, ops, i, id, l)
        ensures l == k
      {
        OpenedOnce(cfg, hs, ops, i, id, k, l);
      }
    } else {
      forall l: nat
        ensures !Opens(cfg, hs, ops, i, id, l)
      {
        OpensIsOpen(cfg, hs, ops, i, id, l);
      }
    }
  }

  lemma OpensIsOpen(cfg: MergerConfig, hs: seq<History>, ops: seq<Op>, i: nat, id: nat, k: nat)
    requires cfg.Valid() && i < |hs|
    ensures Opens(cfg, hs, ops, i, id, k) ==> id in hs[i].pending
  {
    hide MergerConfig.WindowId;
  }

  lemma CheckLeaves(cfg: MergerConfig, h: History, now: Duration, h': History, id: nat)
    requires cfg.Valid() && Next(cfg, h, Tick(now), h')
    ensures id in h'.pending <==>
            id in h.pending && Elapsed(h.pending[id].createdAt, now) < cfg.windowTimeout
  {
    hide EmitsExactly, MergerConfig.Valid;
  }

  /** From one state to the next, window `id` was emitted as it was. */
  ghost predicate Left(h: History, h': History, id: nat)
  {
    id in h.pending &&
    exists e :: |h.emitted| <= e < |h'.emitted| && h'.emitted[e] == Emission(id, h.pending[id])
  }

  /** What a check takes out of the map it emits, and nothing else. */
  lemma CheckEmitsTheRest(cfg: MergerConfig, hs: seq<History>, ops: seq<Op>, i: nat, id: nat)
    requires cfg.Valid() && IsRun(cfg, hs, ops) && i < |ops| && ops[i].Tick?
    ensures Left(hs[i], hs[i + 1], id) <==> id in hs[i].pending && id !in hs[i + 1].pending
  {
    hide MergerConfig.Valid, TimedOut;
    var h, h', now := hs[i], hs[i + 1], ops[i].now;
    assert Next(cfg, h, ops[i], h');
    var es: seq<Emission> :| TimedOutStep(cfg, h.pending, now, h'.pending, es) &&
                             h' == h.(pending := h'.pending, emitted := h.emitted + es);
    var ids, n := TimedOut(cfg, h.pending, now), |h.emitted|;
    assert forall e :: n <= e < |h'.emitted| ==> h'.emitted[e] == es[e - n];
    if id in ids {
      var p :| 0 <= p < |es| && es[p].id == id;
      assert h'.emitted[n + p] == es[p];
    }
  }
}
