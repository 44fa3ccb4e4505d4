/**
 Whole runs of the time-window merger (src/pipeline/merger.rs): any sequence of `add_chunk` and
 `check_timeouts` calls, at any times, from the empty merger.
 */
module MergerRuns {

  import opened Audio
  import opened Merger

  datatype Op = Feed(chunk: Chunk, now: Duration) | Tick(now: Duration)

  /** The merger's state with what happened so far. */
  datatype History = History(
    pending: Pending,
    fed: seq<Chunk>,          // chunks with a source id, in the order they were added
    emitted: seq<Emission>,   // windows that left the map, in the order they left
    superseded: seq<Chunk>,   // chunks replaced in their window before it left
    lateFeed: bool            // some chunk was added for a window that had already left
  )

  ghost predicate HasId(emitted: seq<Emission>, id: nat)
  {
    exists i :: 0 <= i < |emitted| && emitted[i].id == id
  }

  /** The chunk that `c` will replace: the one its source already has in the same open window. */
  function Replaced(cfg: MergerConfig, p: Pending, c: Chunk): seq<Chunk>
    requires cfg.Valid() && c.source.Some?
  {
    var id := cfg.WindowId(c.timestamp);
    if id in p && c.source.value in p[id].chunks then [p[id].chunks[c.source.value]] else []
  }

  ghost predicate Next(cfg: MergerConfig, h: History, op: Op, h': History)
    requires cfg.Valid()
  {
    match op
    case Feed(c, now) =>
      if c.source.None? then h' == h
      else
        var o := Fed(cfg, h.pending, c, now);
        h' == History(o.pending, h.fed + [c], h.emitted + o.emitted, h.superseded + Replaced(cfg, h.pending, c),
                      h.lateFeed || HasId(h.emitted, cfg.WindowId(c.timestamp)))
    case Tick(now) =>
      exists es: seq<Emission> ::
        TimedOutStep(cfg, h.pending, now, h'.pending, es) &&
        h' == h.(pending := h'.pending, emitted := h.emitted + es)
  }

  ghost predicate IsRun(cfg: MergerConfig, hs: seq<History>, ops: seq<Op>)
    requires cfg.Valid()
  {
    && |hs| == |ops| + 1 && hs[0] == History(map[], [], [], [], false)
    && forall i :: 0 <= i < |ops| ==> Next(cfg, hs[i], ops[i], hs[i + 1])
  }

  // ---------- one step: windows move from the map to the output ----------

  /** `es` are the windows that are in `p` but no longer in `p'`. */
  ghost predicate Moves(p: Pending, es: seq<Emission>, p': Pending)
  {
    p'.Keys <= p.Keys && p' == p - (p.Keys - p'.Keys) && EmitsExactly(es, p, p.Keys - p'.Keys)
  }

  /** Every window holds chunks of its own id under their own source. */
  ghost predicate Slotted(cfg: MergerConfig, p: Pending)
    requires cfg.Valid()
  {
    forall id :: id in p ==> Belongs(cfg, id, p[id])
  }

  lemma FedMoves(cfg: MergerConfig, p: Pending, c: Chunk, now: Duration)
    requires cfg.Valid() && PendingOk(cfg, p) && c.source.Some?
    ensures var o := Fed(cfg, p, c, now); Moves(Inserted(cfg, p, c, now), o.emitted, o.pending)
    ensures Slotted(cfg, Inserted(cfg, p, c, now))
  {
    FedEmitsAtMostOne(cfg, p, c, now);
    InsertedOk(cfg, p, c, now);
    hide Fed, Inserted, AsMillis, FromMillis, MergerConfig.WindowId, MergerConfig.IsComplete, Belongs, WindowOk;
    var p' := Inserted(cfg, p, c, now);
    MovesNone(p');
    MovesOne(p', cfg.WindowId(c.timestamp));
    MovesOne(p', Least(p'.Keys));
  }

  lemma MovesNone(p: Pending)
    ensures Moves(p, [], p)
  {
    assert p.Keys - p.Keys == {};
    assert p - {} == p;
  }

  lemma MovesOne(p: Pending, id: nat)
    requires id in p
    ensures Moves(p, [Emission(id, p[id])], p - {id})
  {
    assert (p - {id}).Keys == p.Keys - {id};
    assert p.Keys - (p.Keys - {id}) == {id};
    var es := [Emission(id, p[id])];
    assert es[0].id == id;
  }

  lemma FirstEmitted(es: seq<Emission>, p: Pending, ids: set<nat>)
    requires ids <= p.Keys && EmitsExactly(es, p, ids)
    ensures es == [] || es[0].id in ids
  {
  }

  lemma TimeoutMoves(cfg: MergerConfig, p: Pending, now: Duration, p': Pending, es: seq<Emission>)
    requires TimedOutStep(cfg, p, now, p', es)
    ensures Moves(p, es, p')
  {
    var ids := TimedOut(cfg, p, now);
    assert p'.Keys == p.Keys - ids;
    assert p.Keys - p'.Keys == ids;
  }

  // ---------- conservation ----------

  ghost function AllPending(p: Pending): set<Chunk>
  {
    set id, s | id in p && s in p[id].chunks :: p[id].chunks[s]
  }

  /** The chunks that went into the windows of `es`. */
  ghost function Contributors(es: seq<Emission>): multiset<Chunk>
  {
    if es == [] then multiset{}
    else Contributors(es[..|es| - 1]) + multiset(es[|es| - 1].window.chunks.Values)
  }

  lemma {:induction false} ContributorsConcat(a: seq<Emission>, b: seq<Emission>)
    ensures Contributors(a + b) == Contributors(a) + Contributors(b)
  {
    hide Contributors;
    if b == [] {
      assert a + b == a;
      NoContributors();
    } else {
      var init, last := b[..|b| - 1], b[|b| - 1];
      ContributorsConcat(a, init);
      ContributorsAppend(init, last);
      ContributorsAppend(a + init, last);
      assert init + [last] == b && a + init + [last] == a + b;
      SumsAssociate(Contributors(a), Contributors(init), multiset(last.window.chunks.Values));
    }
  }

  lemma NoContributors()
    ensures Contributors([]) == multiset{}
  {
  }

  lemma ContributorsAppend(es: seq<Emission>, e: Emission)
    ensures Contributors(es + [e]) == Contributors(es) + multiset(e.window.chunks.Values)
  {
    assert (es + [e])[..|es|] == es;
  }

  lemma SumsAssociate<T>(a: multiset<T>, b: multiset<T>, c: multiset<T>)
    ensures a + b + c == a + (b + c)
  {
  }

  lemma InsertConserves(cfg: MergerConfig, p: Pending, c: Chunk, now: Duration)
    requires cfg.Valid() && Slotted(cfg, p) && c.source.Some?
    ensures multiset(AllPending(p)) + multiset{c}
         == multiset(AllPending(Inserted(cfg, p, c, now))) + multiset(Replaced(cfg, p, c))
  {
    hide AsMillis, FromMillis, MergerConfig.WindowId;
    var id, s := cfg.WindowId(c.timestamp), c.source.value;
    var before, after := AllPending(p), AllPending(Inserted(cfg, p, c, now));
    var kept := set x | x in before && !(x.source == c.source && cfg.WindowId(x.timestamp) == id);
    InsertedContents(cfg, p, c, now, kept);
    assert c !in kept;
    if id in p && s in p[id].chunks {
      var r := p[id].chunks[s];
      assert r in before && r !in kept;
      assert before == kept + {r};
    } else {
      assert before == kept;
    }
  }

  lemma InsertedContents(cfg: MergerConfig, p: Pending, c: Chunk, now: Duration, kept: set<Chunk>)
    requires cfg.Valid() && Slotted(cfg, p) && c.source.Some?
    requires kept == set x | x in AllPending(p) &&
                             !(x.source == c.source && cfg.WindowId(x.timestamp) == cfg.WindowId(c.timestamp))
    ensures AllPending(Inserted(cfg, p, c, now)) == kept + {c}
    ensures var id := cfg.WindowId(c.timestamp);
            AllPending(p) ==
              kept + if id in p && c.source.value in p[id].chunks then {p[id].chunks[c.source.value]} else {}
  {
    hide AsMillis, FromMillis, MergerConfig.WindowId;
    var id, s := cfg.WindowId(c.timestamp), c.source.value;
    var p' := Inserted(cfg, p, c, now);
    assert p'[id].chunks[s] == c;
    forall x | x in AllPending(p')
      ensures x in kept + {c}
    {
      var j, t :| j in p' && t in p'[j].chunks && x == p'[j].chunks[t];
      if j != id || t != s {
        assert j in p && t in p[j].chunks && x == p[j].chunks[t];
      }
    }
    forall x | x in kept
      ensures x in AllPending(p')
    {
      var j, t :| j in p && t in p[j].chunks && x == p[j].chunks[t];
      assert j in p' && t in p'[j].chunks && p'[j].chunks[t] == x;
    }
  }

  lemma RemoveConserves(cfg: MergerConfig, p: Pending, id: nat)
    requires cfg.Valid() && Slotted(cfg, p) && id in p
    ensures multiset(AllPending(p)) == multiset(AllPending(p - {id})) + multiset(p[id].chunks.Values)
  {
    hide AsMillis, FromMillis, MergerConfig.WindowId;
    var rest, gone := AllPending(p - {id}), p[id].chunks.Values;
    forall x | x in AllPending(p)
      ensures x in rest + gone
    {
      var j, t :| j in p && t in p[j].chunks && x == p[j].chunks[t];
      if j != id {
        assert j in p - {id};
      }
    }
    assert AllPending(p) == rest + gone;
    assert rest !! gone;
  }

  lemma {:induction false} MovesConserve(cfg: MergerConfig, p: Pending, es: seq<Emission>, p': Pending)
    requires cfg.Valid() && Slotted(cfg, p) && Moves(p, es, p')
    ensures multiset(AllPending(p)) == multiset(AllPending(p')) + Contributors(es)
    ensures Slotted(cfg, p')
    decreases |es|
  {
    hide AsMillis, FromMillis, MergerConfig.WindowId, Belongs, AllPending, Moves;
    if es == [] {
      NothingMoved(p, p');
    } else {
      var init, last := es[..|es| - 1], es[|es| - 1];
      var mid := MovesSplit(p, es, p');
      MovesConserve(cfg, p, init, mid);
      RemoveConserves(cfg, mid, last.id);
    }
  }

  lemma NothingMoved(p: Pending, p': Pending)
    requires Moves(p, [], p')
    ensures p' == p
  {
    assert p.Keys - p'.Keys == {};
  }

  /** The state before the last of several windows leaves. */
  lemma MovesSplit(p: Pending, es: seq<Emission>, p': Pending) returns (mid: Pending)
    requires es != [] && Moves(p, es, p')
    ensures var last := es[|es| - 1];
            Moves(p, es[..|es| - 1], mid) && last.id in mid && last.window == mid[last.id] && p' == mid - {last.id}
  {
    var init, last := es[..|es| - 1], es[|es| - 1];
    var gone := p.Keys - p'.Keys;
    mid := p - (gone - {last.id});
    assert mid.Keys == p.Keys - (gone - {last.id});
    assert p.Keys - mid.Keys == gone - {last.id};
    forall id | id in gone - {last.id}
      ensures exists i :: 0 <= i < |init| && init[i].id == id
    {
      var i :| 0 <= i < |es| && es[i].id == id;
      assert init[i].id == id;
    }
  }

  ghost predicate Conserved(h: History)
  {
    multiset(h.fed) == Contributors(h.emitted) + multiset(h.superseded) + multiset(AllPending(h.pending))
  }

  lemma NextConserves(cfg: MergerConfig, h: History, op: Op, h': History)
    requires cfg.Valid() && PendingOk(cfg, h.pending) && Next(cfg, h, op, h') && Conserved(h)
    ensures PendingOk(cfg, h'.pending) && Conserved(h')
  {
    hide Fed, Inserted, Contributors, Replaced, TimedOutStep, AsMillis, FromMillis, MergerConfig.WindowId, WindowOk,
         HasId, Conserved;
    match op
    case Feed(c, now) =>
      if c.source.Some? {
        FedKeepsInvariant(cfg, h.pending, c, now);
        FeedConserves(cfg, h, c, now, h');
      }
    case Tick(now) =>
      var es: seq<Emission> :| TimedOutStep(cfg, h.pending, now, h'.pending, es) &&
                               h' == h.(pending := h'.pending, emitted := h.emitted + es);
      TimedOutKeepsInvariant(cfg, h.pending, now, h'.pending, es);
      TickConserves(cfg, h, now, h', es);
  }

  lemma FeedConserves(cfg: MergerConfig, h: History, c: Chunk, now: Duration, h': History)
    requires cfg.Valid() && PendingOk(cfg, h.pending) && Conserved(h) && c.source.Some?
    requires var o := Fed(cfg, h.pending, c, now);
             && h'.pending == o.pending && h'.emitted == h.emitted + o.emitted
             && h'.fed == h.fed + [c] && h'.superseded == h.superseded + Replaced(cfg, h.pending, c)
    ensures Conserved(h')
  {
    hide Fed, Inserted, AllPending, Contributors, Replaced, AsMillis, FromMillis, MergerConfig.WindowId, PendingOk,
         Moves, Slotted;
    FedMoves(cfg, h.pending, c, now);
    PendingIsSlotted(cfg, h.pending);
    InsertConserves(cfg, h.pending, c, now);
    var o := Fed(cfg, h.pending, c, now);
    MovesConserve(cfg, Inserted(cfg, h.pending, c, now), o.emitted, o.pending);
    ContributorsConcat(h.emitted, o.emitted);
    assert multiset(h'.fed) == multiset(h.fed) + multiset{c};
    assert multiset(h'.superseded) == multiset(h.superseded) + multiset(Replaced(cfg, h.pending, c));
    Balance(Contributors(h.emitted), multiset(h.superseded), multiset(AllPending(h.pending)), multiset{c},
            multiset(Replaced(cfg, h.pending, c)), multiset(AllPending(o.pending)), Contributors(o.emitted));
  }

  lemma Balance<T>(emitted: multiset<T>, superseded: multiset<T>, pending: multiset<T>, fed: multiset<T>,
                   replaced: multiset<T>, left: multiset<T>, gone: multiset<T>)
    requires pending + fed == left + gone + replaced
    ensures emitted + superseded + pending + fed == emitted + gone + (superseded + replaced) + left
  {
    assert emitted + superseded + pending + fed == emitted + superseded + (pending + fed);
  }

  lemma TickConserves(cfg: MergerConfig, h: History, now: Duration, h': History, es: seq<Emission>)
    requires cfg.Valid() && PendingOk(cfg, h.pending) && Conserved(h)
    requires TimedOutStep(cfg, h.pending, now, h'.pending, es)
    requires h' == h.(pending := h'.pending, emitted := h.emitted + es)
    ensures Conserved(h')
  {
    hide TimedOutStep, AllPending, Contributors, AsMillis, FromMillis, PendingOk, Moves, Slotted;
    TimeoutMoves(cfg, h.pending, now, h'.pending, es);
    PendingIsSlotted(cfg, h.pending);
    MovesConserve(cfg, h.pending, es, h'.pending);
    ContributorsConcat(h.emitted, es);
    Balance(Contributors(h.emitted), multiset(h.superseded), multiset(AllPending(h.pending)), multiset{},
            multiset{}, multiset(AllPending(h'.pending)), Contributors(es));
  }

  lemma PendingIsSlotted(cfg: MergerConfig, p: Pending)
    requires cfg.Valid() && PendingOk(cfg, p)
    ensures Slotted(cfg, p)
  {
    hide Belongs;
  }

  /**
   Conservation, over every run: a chunk added with a source id went into exactly one emitted window,
   or was superseded in its window, or is still pending; as often as it was added, and never twice.
   */
  lemma {:induction false} RunConserves(cfg: MergerConfig, hs: seq<History>, ops: seq<Op>, i: nat)
    requires cfg.Valid() && IsRun(cfg, hs, ops) && i < |hs|
    ensures PendingOk(cfg, hs[i].pending) && Conserved(hs[i])
  {
    hide Next;
    if i == 0 {
      assert AllPending(map[]) == {};
    } else {
      RunConserves(cfg, hs, ops, i - 1);
      NextConserves(cfg, hs[i - 1], ops[i - 1], hs[i]);
    }
  }

  /** A superseded chunk gave way to a later chunk of its own source in its own, still open, window. */
  lemma ReplacedSharesSlot(cfg: MergerConfig, p: Pending, c: Chunk)
    requires cfg.Valid() && PendingOk(cfg, p) && c.source.Some?
    ensures forall r :: r in Replaced(cfg, p, c) ==>
              && r.source == c.source && cfg.WindowId(r.timestamp) == cfg.WindowId(c.timestamp)
              && cfg.WindowId(c.timestamp) in p
  {
    PendingIsSlotted(cfg, p);
    hide AsMillis, FromMillis, MergerConfig.WindowId, MergerConfig.IsComplete;
  }

  // ---------- a window is emitted once, unless a chunk comes late ----------

  /** No window left twice, and none that left is open again. */
  ghost predicate OnceEach(emitted: seq<Emission>, p: Pending)
  {
    && (forall i, j :: 0 <= i < j < |emitted| ==> emitted[i].id != emitted[j].id)
    && (forall i :: 0 <= i < |emitted| ==> emitted[i].id !in p)
  }

  lemma MovesKeepOnce(emitted: seq<Emission>, p: Pending, es: seq<Emission>, p': Pending)
    requires Moves(p, es, p')
    ensures OnceEach(emitted, p) <==> OnceEach(emitted + es, p')
  {
    var all := emitted + es;
    if OnceEach(emitted, p) {
      forall i, j | 0 <= i < j < |all|
        ensures all[i].id != all[j].id
      {
        if i < |emitted| <= j {
          assert all[j] == es[j - |emitted|];
        } else if |emitted| <= i {
          assert all[i] == es[i - |emitted|] && all[j] == es[j - |emitted|];
        }
      }
      forall i | 0 <= i < |all|
        ensures all[i].id !in p'
      {
        if |emitted| <= i {
          assert all[i] == es[i - |emitted|];
        }
      }
    }
    if OnceEach(all, p') {
      assert forall i :: 0 <= i < |emitted| ==> all[i] == emitted[i];
      forall i | 0 <= i < |emitted|
        ensures emitted[i].id !in p
      {
        assert all[i].id !in p';
        forall j | 0 <= j < |es|
          ensures es[j].id != emitted[i].id
        {
          assert all[|emitted| + j] == es[j];
        }
      }
    }
  }

  lemma InsertAndOnce(cfg: MergerConfig, emitted: seq<Emission>, p: Pending, c: Chunk, now: Duration)
    requires cfg.Valid() && c.source.Some?
    ensures OnceEach(emitted, Inserted(cfg, p, c, now)) <==>
            OnceEach(emitted, p) && !HasId(emitted, cfg.WindowId(c.timestamp))
  {
    hide AsMillis, FromMillis, MergerConfig.WindowId, Opened;
    var p' := Inserted(cfg, p, c, now);
    assert p'.Keys == p.Keys + {cfg.WindowId(c.timestamp)};
    assert forall i :: 0 <= i < |emitted| ==>
             (emitted[i].id in p' <==> emitted[i].id in p || emitted[i].id == cfg.WindowId(c.timestamp));
  }

  lemma NextKeepsOnce(cfg: MergerConfig, h: History, op: Op, h': History)
    requires cfg.Valid() && PendingOk(cfg, h.pending) && Next(cfg, h, op, h')
    requires OnceEach(h.emitted, h.pending) <==> !h.lateFeed
    ensures OnceEach(h'.emitted, h'.pending) <==> !h'.lateFeed
  {
    hide Fed, Inserted, Replaced, TimedOutStep, AsMillis, FromMillis, MergerConfig.WindowId, PendingOk, HasId,
         OnceEach, Moves;
    match op
    case Feed(c, now) =>
      if c.source.Some? {
        FedMoves(cfg, h.pending, c, now);
        InsertAndOnce(cfg, h.emitted, h.pending, c, now);
        var o := Fed(cfg, h.pending, c, now);
        MovesKeepOnce(h.emitted, Inserted(cfg, h.pending, c, now), o.emitted, o.pending);
      }
    case Tick(now) =>
      var es: seq<Emission> :| TimedOutStep(cfg, h.pending, now, h'.pending, es) &&
                               h' == h.(pending := h'.pending, emitted := h.emitted + es);
      TimeoutMoves(cfg, h.pending, now, h'.pending, es);
      MovesKeepOnce(h.emitted, h.pending, es, h'.pending);
  }

  /**
   Over every run: each window leaves the map at most once, and stays closed, exactly when no chunk is
   ever added for a window that has already left.
   */
  lemma {:induction false} EmittedOnceIffNoLateFeed(cfg: MergerConfig, hs: seq<History>, ops: seq<Op>, i: nat)
    requires cfg.Valid() && IsRun(cfg, hs, ops) && i < |hs|
    ensures OnceEach(hs[i].emitted, hs[i].pending) <==> !hs[i].lateFeed
  {
    hide Next, OnceEach;
    if i == 0 {
      NothingEmittedOnce();
    } else {
      EmittedOnceIffNoLateFeed(cfg, hs, ops, i - 1);
      RunConserves(cfg, hs, ops, i - 1);
      NextKeepsOnce(cfg, hs[i - 1], ops[i - 1], hs[i]);
    }
  }

  /** A late chunk can have its window emitted twice: here the only expected source delivers a window's chunk twice. */
  lemma LateChunkEmitsTwice(cfg: MergerConfig, c: Chunk, now: Duration) returns (hs: seq<History>, ops: seq<Op>)
    requires cfg.Valid() && c.source.Some? && cfg.expected == [c.source.value]
    ensures ops == [Feed(c, now), Feed(c, now)] && IsRun(cfg, hs, ops)
    ensures var es := hs[2].emitted; |es| == 2 && es[0].id == es[1].id == cfg.WindowId(c.timestamp)
  {
    hide AsMillis, FromMillis, MergerConfig.WindowId, MergerConfig.Valid, HasId, Replaced, Fed;
    var e := SoleSourceEmits(cfg, c, now);
    var h0 := History(map[], [], [], [], false);
    var h1 := History(map[], [c], [e], [] + Replaced(cfg, map[], c), false || HasId([], cfg.WindowId(c.timestamp)));
    var h2 := History(map[], [c, c], [e, e], h1.superseded + Replaced(cfg, map[], c),
                      h1.lateFeed || HasId([e], cfg.WindowId(c.timestamp)));
    ops := [Feed(c, now), Feed(c, now)];
    hs := [h0, h1, h2];
    assert [] + [c] == [c] && [] + [e] == [e] && [c] + [c] == [c, c] && [e] + [e] == [e, e];
    assert Next(cfg, h0, ops[0], h1) && Next(cfg, h1, ops[1], h2);
  }

  lemma SoleSourceEmits(cfg: MergerConfig, c: Chunk, now: Duration) returns (e: Emission)
    requires cfg.Valid() && c.source.Some? && cfg.expected == [c.source.value]
    ensures e.id == cfg.WindowId(c.timestamp) && Fed(cfg, map[], c, now) == Outcome(map[], [e])
  {
    hide AsMillis, FromMillis, MergerConfig.WindowId, Evicted, Fed;
    FedEmitsAtMostOne(cfg, map[], c, now);
    var id := cfg.WindowId(c.timestamp);
    var p' := Inserted(cfg, map[], c, now);
    e := Emission(id, p'[id]);
    assert p' - {id} == map[];
  }

  lemma NothingEmittedOnce()
    ensures OnceEach([], map[])
  {
  }

  // ---------- what every emitted window is ----------

  /**
   Over every run, an emitted window holds at least one chunk, and only chunks of its own id: `merge_chunks`
   never makes silence.
   */
  lemma {:induction false} EmittedWindowsHoldTheirOwn(cfg: MergerConfig, hs: seq<History>, ops: seq<Op>, i: nat)
    requires cfg.Valid() && IsRun(cfg, hs, ops) && i < |hs|
    ensures forall e :: e in hs[i].emitted ==> e.window.chunks != map[] && Belongs(cfg, e.id, e.window)
  {
    hide Fed, TimedOutStep, AsMillis, FromMillis, MergerConfig.WindowId, MergerConfig.IsComplete, Belongs, Conserved;
    if i > 0 {
      EmittedWindowsHoldTheirOwn(cfg, hs, ops, i - 1);
      RunConserves(cfg, hs, ops, i - 1);
      var h, h' := hs[i - 1], hs[i];
      match ops[i - 1]
      case Feed(c, now) =>
        if c.source.Some? {
          FedKeepsInvariant(cfg, h.pending, c, now);
        }
      case Tick(now) =>
        var es: seq<Emission> :| TimedOutStep(cfg, h.pending, now, h'.pending, es) &&
                                 h' == h.(pending := h'.pending, emitted := h.emitted + es);
        TimedOutKeepsInvariant(cfg, h.pending, now, h'.pending, es);
    }
  }
}
