/**
 What a merged chunk contains (src/pipeline/merger.rs, `merge_chunks` and `average_and_clamp`): the
 average over all expected sources, whatever the iteration order of the map.
 */
module MergeValue {

  import opened Arith
  import opened Audio
  import opened Merger

  /** All chunks of the window have `len` samples. */
  predicate EvenWindow(w: Window, len: nat)
  {
    w.chunks != map[] && forall s :: s in w.chunks ==> |w.chunks[s].samples| == len
  }

  ghost predicate Distinct<T>(list: seq<T>)
  {
    forall i, j :: 0 <= i < j < |list| ==> list[i] != list[j]
  }

  /** The sum of sample `i` over a list of sources, a source without a chunk counting as silence. */
  function ListSum(sources: seq<SourceId>, chunks: map<SourceId, Chunk>, i: nat): int
  {
    if sources == [] then 0
    else
      var s := sources[|sources| - 1];
      ListSum(sources[..|sources| - 1], chunks, i) + if s in chunks then Contribution(chunks[s], i) else 0
  }

  function Present(sources: seq<SourceId>, chunks: map<SourceId, Chunk>): set<SourceId>
  {
    set s | s in sources && s in chunks
  }

  // ---------- order of the map ----------

  /** With chunks of one length, every iteration order of the map gives the same samples. */
  lemma MergeIgnoresMapOrder(cfg: MergerConfig, w: Window, len: nat, a: Chunk, b: Chunk)
    requires EvenWindow(w, len) && IsMergeOf(cfg, w, a) && IsMergeOf(cfg, w, b)
    ensures a.samples == b.samples && |a.samples| == len && a.timestamp == b.timestamp == w.timestamp
  {
    hide MixedSample;
  }

  /** With chunks of different lengths the order shows: the result is as long as whichever chunk came first. */
  lemma MergeLengthFollowsMapOrder(cfg: MergerConfig, w: Window, s: SourceId, t: SourceId)
    requires s in w.chunks && t in w.chunks
    ensures IsMergeOf(cfg, w, MergedFrom(cfg, w, s)) && |MergedFrom(cfg, w, s).samples| == |w.chunks[s].samples|
    ensures IsMergeOf(cfg, w, MergedFrom(cfg, w, t)) && |MergedFrom(cfg, w, t).samples| == |w.chunks[t].samples|
    ensures |w.chunks[s].samples| != |w.chunks[t].samples| ==>
              MergedFrom(cfg, w, s).samples != MergedFrom(cfg, w, t).samples
  {
    hide MixedSample;
    assert w.chunks != map[];
  }

  /** `n` is the shortest length among the window's chunks. */
  ghost predicate IsShortest(w: Window, n: nat)
  {
    && (exists s :: s in w.chunks && |w.chunks[s].samples| == n)
    && (forall s :: s in w.chunks ==> n <= |w.chunks[s].samples|)
  }

  /**
   "Handle different chunk lengths by using the minimum": every merge of a window is as long as its shortest chunk,
   whatever the map's order, exactly when all its chunks have that length.
   */
  lemma MergesUseTheMinimumIff(cfg: MergerConfig, w: Window, n: nat)
    requires IsShortest(w, n)
    ensures (forall out :: IsMergeOf(cfg, w, out) ==> |out.samples| == n) <==> EvenWindow(w, n)
  {
    hide IsMergeOf, MergedFrom;
    if EvenWindow(w, n) {
      forall out | IsMergeOf(cfg, w, out)
        ensures |out.samples| == n
      {
        MergeIgnoresMapOrder(cfg, w, n, out, out);
      }
    } else {
      var s :| s in w.chunks && |w.chunks[s].samples| != n;
      MergeLengthFollowsMapOrder(cfg, w, s, s);
      assert |MergedFrom(cfg, w, s).samples| != n;
    }
  }

  /** Where the chunks agree on a format, the merge has it; it starts with the window and is of no single source. */
  lemma MergeKeepsFormat(cfg: MergerConfig, w: Window, rate: u32, channels: u16, out: Chunk)
    requires w.chunks != map[] && IsMergeOf(cfg, w, out)
    requires forall s :: s in w.chunks ==> w.chunks[s].sampleRate == rate && w.chunks[s].channels == channels
    ensures out.sampleRate == rate && out.channels == channels && out.timestamp == w.timestamp && out.source == None
  {
    hide MixedSample;
  }

  /** A chunk cut or filled up with silence to `n` samples. */
  function PaddedTo(c: Chunk, n: nat): Chunk
  {
    c.(samples := seq(n, (i: nat) => if i < |c.samples| then c.samples[i] else 0))
  }

  function Padded(w: Window, n: nat): Window
  {
    w.(chunks := map s | s in w.chunks :: PaddedTo(w.chunks[s], n))
  }

  lemma {:induction false} PaddingKeepsSum(w: Window, keys: set<SourceId>, n: nat, i: nat)
    requires keys <= w.chunks.Keys && i < n
    ensures keys <= Padded(w, n).chunks.Keys
    ensures SumAt(Padded(w, n).chunks, keys, i) == SumAt(w.chunks, keys, i)
    decreases |keys|
  {
    hide SumAt;
    if keys == {} {
      SumOfNone(w.chunks, i);
      SumOfNone(Padded(w, n).chunks, i);
    } else {
      var k :| k in keys;
      SumAtAdd(w.chunks, keys, k, i);
      SumAtAdd(Padded(w, n).chunks, keys, k, i);
      PaddingKeepsSum(w, keys - {k}, n, i);
    }
  }

  /**
   Chunks of different lengths: once the first chunk has set the length, the others count as cut or filled up with
   silence to it, so what is said of windows with chunks of one length applies.
   */
  lemma UnevenMergeIsPadded(cfg: MergerConfig, w: Window, s: SourceId)
    requires s in w.chunks
    ensures var n := |w.chunks[s].samples|;
            && EvenWindow(Padded(w, n), n)
            && MergedFrom(cfg, w, s).samples == MergedFrom(cfg, Padded(w, n), s).samples
  {
    hide SumAt, TruncDiv;
    var n := |w.chunks[s].samples|;
    var w' := Padded(w, n);
    assert w'.chunks.Keys == w.chunks.Keys && s in w'.chunks;
    assert |w'.chunks| == |w'.chunks.Keys| && |w.chunks| == |w.chunks.Keys|;
    NonEmptyMap(w.chunks, s);
    var d := Divisor(cfg, w.chunks);
    forall i | 0 <= i < n
      ensures MixedSample(w.chunks, d, i) == MixedSample(w'.chunks, d, i)
    {
      PaddingKeepsSum(w, w.chunks.Keys, n, i);
    }
  }

  // ---------- no overflow ----------

  lemma {:induction false} SumBounds(chunks: map<SourceId, Chunk>, keys: set<SourceId>, i: nat)
    requires keys <= chunks.Keys
    ensures -32768 * |keys| <= SumAt(chunks, keys, i) <= 32767 * |keys|
    decreases |keys|
  {
    if keys != {} {
      var k :| k in keys;
      SumAtAdd(chunks, keys, k, i);
      SumBounds(chunks, keys - {k}, i);
      assert |keys - {k}| == |keys| - 1;
    }
  }

  /**
   For up to 65536 sources the `i32` accumulator never overflows and the clamp never changes a value:
   a merged sample is the sum divided by the divisor, toward zero.
   */
  lemma MixNeverOverflows(chunks: map<SourceId, Chunk>, divisor: nat, i: nat)
    requires 0 < |chunks| <= 65536 && |chunks| <= divisor
    ensures Wrap32(SumAt(chunks, chunks.Keys, i)) == SumAt(chunks, chunks.Keys, i)
    ensures MixedSample(chunks, divisor, i) as int == TruncDiv(SumAt(chunks, chunks.Keys, i), divisor)
  {
    hide SumAt, TruncDiv;
    SumBounds(chunks, chunks.Keys, i);
    assert |chunks.Keys| == |chunks|;
    MulMonotone(|chunks|, divisor, 32768);
    TruncDivBetween(SumAt(chunks, chunks.Keys, i), divisor, -32768, 32767);
  }

  /** The clamp is dead: it never changes a value, however many sources there are and even when the sum has wrapped. */
  lemma ClampChangesNothing(chunks: map<SourceId, Chunk>, divisor: nat, i: nat)
    requires 0 < |chunks| <= divisor
    ensures MixedSample(chunks, divisor, i) as int == TruncDiv(Wrap32(SumAt(chunks, chunks.Keys, i)), divisor)
  {
    hide SumAt, TruncDiv, Wrap32;
    if |chunks| <= 65536 {
      MixNeverOverflows(chunks, divisor, i);
    } else {
      LargeDivisor(Wrap32(SumAt(chunks, chunks.Keys, i)), divisor);
    }
  }

  lemma LargeDivisor(sum: int, divisor: nat)
    requires -0x8000_0000 <= sum < 0x8000_0000 && 65536 < divisor
    ensures -32768 <= TruncDiv(sum, divisor) <= 32767
  {
    hide TruncDiv;
    TruncDivBounds(sum, divisor);
    var q := TruncDiv(sum, divisor);
    MulMonotone(65537, divisor, 32768);
    assert 65537 * 32768 == 2147516416;
    MulCancels(q, 32768, divisor);
    MulCancels(-32769, q, divisor);
  }

  /** As many sources as expected, or more, that all deliver the same, are merged to just that. */
  lemma MergeOfEqualChunks(cfg: MergerConfig, w: Window, samples: seq<Sample>, out: Chunk)
    requires w.chunks != map[] && |cfg.expected| <= |w.chunks| <= 65536 && IsMergeOf(cfg, w, out)
    requires forall s :: s in w.chunks ==> w.chunks[s].samples == samples
    ensures out.samples == samples
  {
    hide MixedSample, SumAt, TruncDiv;
    var s :| s in w.chunks && out == MergedFrom(cfg, w, s);
    NonEmptyMap(w.chunks, s);
    assert |w.chunks.Keys| == |w.chunks|;
    forall i | 0 <= i < |samples|
      ensures out.samples[i] == samples[i]
    {
      MixNeverOverflows(w.chunks, |w.chunks|, i);
      SumOfEqual(w.chunks, w.chunks.Keys, i, samples[i]);
      TruncDivOfMultiple(samples[i], |w.chunks|);
    }
  }

  /** The accumulator never wraps, whatever `n` sources deliver. */
  ghost predicate SumsFit(n: nat)
  {
    forall chunks: map<SourceId, Chunk>, i: nat | |chunks| == n ::
      Wrap32(SumAt(chunks, chunks.Keys, i)) == SumAt(chunks, chunks.Keys, i)
  }

  /** The bound is exact: the sums of `n` sources' chunks fit in an `i32`, whatever they are, iff `n <= 65536`. */
  lemma SumsFitIff(n: nat)
    ensures SumsFit(n) <==> n <= 65536
  {
    hide SumAt;
    if n <= 65536 {
      forall chunks: map<SourceId, Chunk>, i: nat | |chunks| == n
        ensures Wrap32(SumAt(chunks, chunks.Keys, i)) == SumAt(chunks, chunks.Keys, i)
      {
        SumBounds(chunks, chunks.Keys, i);
        assert |chunks.Keys| == n;
      }
    } else {
      var lowest := Chunk([-32768], 0.0, 16000, 1, None);
      var chunks := SomeSources(n, lowest);
      SumOfEqual(chunks, chunks.Keys, 0, -32768);
      assert |chunks.Keys| == n;
      LowestSumWraps(n);
    }
  }

  lemma LowestSumWraps(n: nat)
    requires 65536 < n
    ensures Wrap32(-32768 * n) != -32768 * n
  {
  }

  /** Equal contributions add up. */
  lemma {:induction false} SumOfEqual(chunks: map<SourceId, Chunk>, keys: set<SourceId>, i: nat, v: int)
    requires keys <= chunks.Keys && forall s :: s in keys ==> Contribution(chunks[s], i) == v
    ensures SumAt(chunks, keys, i) == v * |keys|
    decreases |keys|
  {
    hide SumAt, Contribution;
    if keys == {} {
      SumOfNone(chunks, i);
    } else {
      var k :| k in keys;
      SumAtAdd(chunks, keys, k, i);
      SumOfEqual(chunks, keys - {k}, i, v);
      assert |keys - {k}| == |keys| - 1;
      Distribute(|keys| - 1, 1, v);
    }
  }

  /** `n` sources, named by the length of their ids, that all deliver `c`. */
  lemma {:induction false} SomeSources(n: nat, c: Chunk) returns (chunks: map<SourceId, Chunk>)
    ensures |chunks| == n && forall s :: s in chunks ==> chunks[s] == c && |s| < n
  {
    if n == 0 {
      chunks := map[];
    } else {
      var rest := SomeSources(n - 1, c);
      var s: SourceId := seq(n - 1, (_: nat) => 's');
      assert s !in rest;
      chunks := rest[s := c];
      assert chunks.Keys == rest.Keys + {s};
      assert |chunks| == |chunks.Keys| && |rest| == |rest.Keys|;
    }
  }

  // ---------- the average ----------

  lemma {:induction false} SumOverList(chunks: map<SourceId, Chunk>, sources: seq<SourceId>, i: nat)
    requires Distinct(sources)
    ensures Present(sources, chunks) <= chunks.Keys
    ensures SumAt(chunks, Present(sources, chunks), i) == ListSum(sources, chunks, i)
  {
    hide Contribution, SumAt;
    var keys := Present(sources, chunks);
    if sources == [] {
      assert keys == {};
      SumOfNone(chunks, i);
    } else {
      var init, last := sources[..|sources| - 1], sources[|sources| - 1];
      SumOverList(chunks, init, i);
      var rest := Present(init, chunks);
      assert sources == init + [last];
      assert last !in init;
      if last in chunks {
        SumAtAdd(chunks, keys, last, i);
        assert keys - {last} == rest;
      } else {
        assert keys == rest;
      }
    }
  }

  lemma SumOfNone(chunks: map<SourceId, Chunk>, i: nat)
    ensures SumAt(chunks, {}, i) == 0
  {
  }

  lemma MapWithinList(chunks: map<SourceId, Chunk>, sources: seq<SourceId>)
    requires Distinct(sources) && chunks.Keys <= SetOf(sources)
    ensures |chunks| <= |sources|
  {
    SetOfList(sources);
    SubsetSize(chunks.Keys, SetOf(sources));
    assert |chunks.Keys| == |chunks|;
  }

  lemma {:induction false} SetOfList(sources: seq<SourceId>)
    ensures |SetOf(sources)| <= |sources|
  {
    if sources != [] {
      var init, last := sources[..|sources| - 1], sources[|sources| - 1];
      SetOfList(init);
      assert sources == init + [last];
      assert SetOf(sources) == SetOf(init) + {last};
    }
  }

  /**
   The merged samples of a window: at every position the sum over the expected sources, missing ones
   counting as silence, divided by their number and rounded toward zero.
   */
  lemma MergeIsTheAverage(cfg: MergerConfig, w: Window, len: nat, out: Chunk)
    requires EvenWindow(w, len) && IsMergeOf(cfg, w, out)
    requires Distinct(cfg.expected) && 0 < |cfg.expected| <= 65536 && w.chunks.Keys <= SetOf(cfg.expected)
    ensures |out.samples| == len
    ensures forall i :: 0 <= i < len ==>
              out.samples[i] as int == TruncDiv(ListSum(cfg.expected, w.chunks, i), |cfg.expected|)
  {
    hide MixedSample, SumAt, TruncDiv;
    MapWithinList(w.chunks, cfg.expected);
    var s :| s in w.chunks && out == MergedFrom(cfg, w, s);
    NonEmptyMap(w.chunks, s);
    assert Divisor(cfg, w.chunks) == |cfg.expected|;
    forall i | 0 <= i < len
      ensures out.samples[i] as int == TruncDiv(ListSum(cfg.expected, w.chunks, i), |cfg.expected|)
    {
      MixNeverOverflows(w.chunks, |cfg.expected|, i);
      SumOverList(w.chunks, cfg.expected, i);
      assert Present(cfg.expected, w.chunks) == w.chunks.Keys;
    }
  }

  /** The window with a silent chunk for every expected source it lacks. */
  ghost function Filled(cfg: MergerConfig, w: Window, len: nat): Window
  {
    var silent := Chunk(seq(len, (_: nat) => 0 as Sample), w.timestamp, cfg.sampleRate, cfg.channels, None);
    w.(chunks := map s | s in SetOf(cfg.expected) + w.chunks.Keys ::
         if s in w.chunks then w.chunks[s] else silent.(source := Some(s)))
  }

  lemma {:induction false} FillingKeepsSum(cfg: MergerConfig, w: Window, len: nat, sources: seq<SourceId>, i: nat)
    requires forall s :: s in sources ==> s in cfg.expected
    ensures ListSum(sources, Filled(cfg, w, len).chunks, i) == ListSum(sources, w.chunks, i)
  {
    if sources != [] {
      FillingKeepsSum(cfg, w, len, sources[..|sources| - 1], i);
    }
  }

  /** "Missing sources filled with silence": an incomplete window merges to what its silent completion merges to. */
  lemma IncompleteEqualsSilentlyFilled(cfg: MergerConfig, w: Window, len: nat, out: Chunk, filled: Chunk)
    requires EvenWindow(w, len) && IsMergeOf(cfg, w, out) && IsMergeOf(cfg, Filled(cfg, w, len), filled)
    requires Distinct(cfg.expected) && 0 < |cfg.expected| <= 65536 && w.chunks.Keys <= SetOf(cfg.expected)
    ensures cfg.IsComplete(Filled(cfg, w, len))
    ensures out.samples == filled.samples
  {
    hide IsMergeOf, TruncDiv, ListSum;
    var w' := Filled(cfg, w, len);
    assert exists s :: s in w.chunks;
    assert EvenWindow(w', len);
    MergeIsTheAverage(cfg, w, len, out);
    MergeIsTheAverage(cfg, w', len, filled);
    forall i | 0 <= i < len
      ensures out.samples[i] == filled.samples[i]
    {
      FillingKeepsSum(cfg, w, len, cfg.expected, i);
    }
  }

  // ---------- whose average ----------

  /** `out` is the average of the chunks of just these sources. */
  ghost predicate AverageOf(w: Window, sources: set<SourceId>, len: nat, out: Chunk)
  {
    sources != {} && sources <= w.chunks.Keys && |out.samples| == len &&
    forall x :: 0 <= x < len ==> out.samples[x] as int == TruncDiv(SumAt(w.chunks, sources, x), |sources|)
  }

  /** A window of all expected sources merges to the average of all of them. */
  lemma CompleteAverage(cfg: MergerConfig, w: Window, len: nat, out: Chunk)
    requires Distinct(cfg.expected) && 0 < |cfg.expected| <= 65536
    requires EvenWindow(w, len) && w.chunks.Keys == SetOf(cfg.expected) && IsMergeOf(cfg, w, out)
    ensures AverageOf(w, SetOf(cfg.expected), len, out)
  {
    hide SumAt, TruncDiv, IsMergeOf, EvenWindow;
    SetOfDistinct(cfg.expected);
    MergeIsTheAverage(cfg, w, len, out);
    assert Present(cfg.expected, w.chunks) == SetOf(cfg.expected);
    assert cfg.expected[0] in SetOf(cfg.expected);
    forall x | 0 <= x < len
      ensures out.samples[x] as int == TruncDiv(SumAt(w.chunks, SetOf(cfg.expected), x), |cfg.expected|)
    {
      SumOverList(w.chunks, cfg.expected, x);
    }
  }

  lemma {:induction false} SetOfDistinct(sources: seq<SourceId>)
    requires Distinct(sources)
    ensures |SetOf(sources)| == |sources|
  {
    if sources != [] {
      var init, last := sources[..|sources| - 1], sources[|sources| - 1];
      SetOfDistinct(init);
      assert sources == init + [last];
      assert last !in init;
      assert SetOf(sources) == SetOf(init) + {last};
    }
  }

  /** A chunk of one sample at the start of the recording: one for a source of `sources`, silence for the others. */
  function Marked(sources: set<SourceId>, s: SourceId): Chunk
  {
    Chunk([if s in sources then 1 else 0], 0.0, 16000, 1, Some(s))
  }

  /** A complete window in which just the chunks of some of the sources are not silent does not average to theirs. */
  lemma MarkedWindowTells(cfg: MergerConfig, sources: set<SourceId>, w: Window, out: Chunk)
    requires Distinct(cfg.expected) && 0 < |cfg.expected| <= 65536
    requires w.chunks == map s | s in SetOf(cfg.expected) :: Marked(sources, s)
    requires sources != SetOf(cfg.expected) && IsMergeOf(cfg, w, out)
    ensures EvenWindow(w, 1) && !AverageOf(w, sources, 1, out)
  {
    hide SumAt, TruncDiv, IsMergeOf, ListSum;
    var chunks := w.chunks;
    assert chunks.Keys == SetOf(cfg.expected) && cfg.expected[0] in chunks;
    if AverageOf(w, sources, 1, out) {
      MergeIsTheAverage(cfg, w, 1, out);
      SumOverList(chunks, cfg.expected, 0);
      assert Present(cfg.expected, chunks) == chunks.Keys;
      CountTheirs(chunks, chunks.Keys, sources);
      CountTheirs(chunks, sources, sources);
      assert chunks.Keys * sources == sources && sources * sources == sources;
      SetOfDistinct(cfg.expected);
      ProperSubsetIsSmaller(sources, chunks.Keys);
      OneOfMany(|sources|, |cfg.expected|);
    }
  }

  lemma ProperSubsetIsSmaller<T>(a: set<T>, b: set<T>)
    requires a < b && a != {}
    ensures 0 < |a| < |b|
  {
    assert b == a + (b - a);
  }

  lemma OneOfMany(k: nat, n: nat)
    requires 0 < k < n
    ensures TruncDiv(k, n) == 0 && TruncDiv(k, k) == 1
  {
    DivIsUnique(k, n, 0);
    DivIsUnique(k, k, 1);
  }

  lemma {:induction false} CountTheirs(chunks: map<SourceId, Chunk>, keys: set<SourceId>, sources: set<SourceId>)
    requires keys <= chunks.Keys
    requires forall s :: s in chunks ==> chunks[s].samples == [if s in sources then 1 else 0]
    ensures SumAt(chunks, keys, 0) == |keys * sources|
    decreases |keys|
  {
    if keys == {} {
      assert keys * sources == {};
    } else {
      var k :| k in keys;
      SumAtAdd(chunks, keys, k, 0);
      CountTheirs(chunks, keys - {k}, sources);
      if k in sources {
        assert keys * sources == (keys - {k}) * sources + {k};
      } else {
        assert keys * sources == (keys - {k}) * sources;
      }
    }
  }
}
