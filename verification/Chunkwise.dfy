/**
 When resampling chunk by chunk gives the same samples as resampling the whole stream, and what
 resampling by a whole factor does.

 The capture bridge resamples every chunk on its own (src/pipeline/capture.rs), so `resample` is
 applied to pieces of a stream that was meant to be converted as one.
 */
module Chunkwise {

  import opened Arith
  import opened Audio
  import opened Resampling

  /** The condition on rates and on the length of a chunk under which nothing is lost at its end. */
  predicate ChunkExact(n: nat, from: Rate, to: Rate)
  {
    from == to || (to < from && n * to % from == 0)
  }

  // ---------- sufficiency ----------

  lemma {:induction false} ResampleConcat(a: seq<Sample>, b: seq<Sample>, from: Rate, to: Rate)
    requires ChunkExact(|a|, from, to)
    ensures Resampled(a + b, from, to) == Resampled(a, from, to) + Resampled(b, from, to)
  {
    hide *;
    if from == to || a == [] || b == [] {
      TrivialConcat(a, b, from, to);
    } else {
      var m := ExactOutputLen(|a|, |b|, from, to);
      ResampledLens(a, b, from, to);
      var whole, left, right := Resampled(a + b, from, to), Resampled(a, from, to), Resampled(b, from, to);
      forall i | 0 <= i < m
        ensures whole[i] == left[i]
      {
        FirstPart(a, b, from, to, m, i);
      }
      forall k | 0 <= k < |right|
        ensures whole[m + k] == right[k]
      {
        SecondPart(a, b, from, to, m, k);
      }
      EqualByParts(whole, left, right);
    }
  }

  lemma TrivialConcat(a: seq<Sample>, b: seq<Sample>, from: Rate, to: Rate)
    requires from == to || a == [] || b == []
    ensures Resampled(a + b, from, to) == Resampled(a, from, to) + Resampled(b, from, to)
  {
    hide SampleAt, OutputLen;
    assert a == [] ==> a + b == b;
    assert b == [] ==> a + b == a;
  }

  lemma ExactOutputLen(n: nat, n': nat, from: Rate, to: Rate) returns (m: nat)
    requires from != to && ChunkExact(n, from, to)
    ensures to < from && n * to == m * from
    ensures OutputLen(n, from, to) == m
    ensures OutputLen(n + n', from, to) == m + OutputLen(n', from, to)
  {
    m := n * to / from;
    OutputLenOfConcat(n, n', from, to, m);
  }

  lemma ResampledLens(a: seq<Sample>, b: seq<Sample>, from: Rate, to: Rate)
    requires from != to && a != [] && b != []
    ensures |Resampled(a, from, to)| == OutputLen(|a|, from, to)
    ensures |Resampled(b, from, to)| == OutputLen(|b|, from, to)
    ensures |Resampled(a + b, from, to)| == OutputLen(|a| + |b|, from, to)
  {
  }

  lemma FirstPart(a: seq<Sample>, b: seq<Sample>, from: Rate, to: Rate, m: nat, i: nat)
    requires from != to && a != []
    requires to < from && |a| * to == m * from && i < m == OutputLen(|a|, from, to) <= OutputLen(|a + b|, from, to)
    ensures Resampled(a + b, from, to)[i] == Resampled(a, from, to)[i]
  {
    hide SampleAt, OutputLen;
    SampleAtInFirst(a, b, from, to, m, i);
  }

  lemma SecondPart(a: seq<Sample>, b: seq<Sample>, from: Rate, to: Rate, m: nat, k: nat)
    requires from != to && a != [] && b != []
    requires |a| * to == m * from && k < OutputLen(|b|, from, to)
    requires m + k < OutputLen(|a + b|, from, to)
    ensures Resampled(a + b, from, to)[m + k] == Resampled(b, from, to)[k]
  {
    hide SampleAt, OutputLen;
    SampleAtShifts(a, b, from, to, m, k);
  }

  lemma EqualByParts(whole: seq<Sample>, left: seq<Sample>, right: seq<Sample>)
    requires |whole| == |left| + |right|
    requires forall i :: 0 <= i < |left| ==> whole[i] == left[i]
    requires forall k :: 0 <= k < |right| ==> whole[|left| + k] == right[k]
    ensures whole == left + right
  {
    forall i | 0 <= i < |whole|
      ensures whole[i] == (left + right)[i]
    {
      if |left| <= i {
        assert whole[|left| + (i - |left|)] == right[i - |left|];
      }
    }
  }

  lemma OutputLenOfConcat(n: nat, n': nat, from: Rate, to: Rate, m: nat)
    requires n * to == m * from
    ensures OutputLen(n, from, to) == m
    ensures OutputLen(n + n', from, to) == m + OutputLen(n', from, to)
  {
    CeilDivIsUnique(n * to, from, m);
    assert (n + n') * to == n' * to + m * from;
    CeilDivShifts(n' * to, from, m);
  }

  /** Down-sampling an exact chunk, the two inputs of every output are inside the chunk. */
  lemma ExactChunkNeverReadsPastItself(n: nat, from: Rate, to: Rate, m: nat, i: nat)
    requires to < from && n * to == m * from && i < m
    ensures i * from / to + 1 < n
  {
    MulMonotone(i + 1, m, from);
    assert (i + 1) * from == i * from + from;
    var j := i * from / to;
    assert j * to <= i * from;
    assert (j + 1) * to == j * to + to;
    MulCancels(j + 1, n, to);
  }

  /** The sample at position `j` and a fraction `r / to`, as `SampleAt` computes it. */
  function At(s: seq<Sample>, j: nat, r: nat, to: Rate): Sample
    requires j < |s| && r < to
  {
    if j + 1 < |s| then Interpolate(s[j], s[j + 1], r, to) else s[j]
  }

  lemma SampleAtIs(s: seq<Sample>, from: Rate, to: Rate, i: nat, j: int, r: int)
    requires i < OutputLen(|s|, from, to) && j == i * from / to && r == i * from % to
    ensures 0 <= j < |s| && 0 <= r < to && SampleAt(s, from, to, i) == At(s, j, r, to)
  {
    hide Interpolate, OutputLen, CeilDiv;
    SourceIndexInRange(|s|, from, to, i);
    MulMonotone(0, i, from);
    QuotientIsNat(i * from, to);
  }

  lemma AtInFirst(a: seq<Sample>, b: seq<Sample>, j: nat, r: nat, to: Rate)
    requires j + 1 < |a| && r < to
    ensures At(a + b, j, r, to) == At(a, j, r, to)
  {
    hide Interpolate;
  }

  lemma AtShifts(a: seq<Sample>, b: seq<Sample>, j: nat, r: nat, to: Rate)
    requires j < |b| && r < to
    ensures At(a + b, |a| + j, r, to) == At(b, j, r, to)
  {
    hide Interpolate;
  }

  lemma SampleAtInFirst(a: seq<Sample>, b: seq<Sample>, from: Rate, to: Rate, m: nat, i: nat)
    requires to < from && |a| * to == m * from && i < m == OutputLen(|a|, from, to) <= OutputLen(|a + b|, from, to)
    ensures SampleAt(a + b, from, to, i) == SampleAt(a, from, to, i)
  {
    hide *;
    var j, r := i * from / to, i * from % to;
    ExactChunkNeverReadsPastItself(|a|, from, to, m, i);
    SampleAtIs(a, from, to, i, j, r);
    SampleAtIs(a + b, from, to, i, j, r);
    AtInFirst(a, b, j, r, to);
  }

  lemma SampleAtShifts(a: seq<Sample>, b: seq<Sample>, from: Rate, to: Rate, m: nat, k: nat)
    requires |a| * to == m * from && k < OutputLen(|b|, from, to)
    requires m + k < OutputLen(|a + b|, from, to)
    ensures SampleAt(a + b, from, to, m + k) == SampleAt(b, from, to, k)
  {
    hide *;
    var j, r := k * from / to, k * from % to;
    PositionShifts(|a|, from, to, m, k);
    SampleAtIs(b, from, to, k, j, r);
    SampleAtIs(a + b, from, to, m + k, |a| + j, r);
    AtShifts(a, b, j, r, to);
  }

  lemma PositionShifts(n: nat, from: Rate, to: Rate, m: nat, k: nat)
    requires n * to == m * from
    ensures (m + k) * from / to == n + k * from / to && (m + k) * from % to == k * from % to
  {
    var j, r := k * from / to, k * from % to;
    assert (m + k) * from == m * from + k * from;
    assert (n + j) * to == n * to + j * to;
    DivModIsUnique((m + k) * from, to, n + j, r);
  }

  // ---------- necessity ----------

  /** A fraction of an output at the end of the chunk: the pieces are longer than the whole. */
  lemma InexactLengthDiffers(a: seq<Sample>, b: seq<Sample>, from: Rate, to: Rate)
    requires |a| * to % from != 0 && |b| == |a| * (from - 1) && 0 < |b|
    requires from != to
    ensures |Resampled(a + b, from, to)| < |Resampled(a, from, to) + Resampled(b, from, to)|
  {
    var n := |a|;
    assert |a + b| == n * from by { assert n * (from - 1) == n * from - n; }
    InexactLengths(n, from, to);
  }

  lemma InexactLengths(n: nat, from: Rate, to: Rate)
    requires n * to % from != 0
    ensures 0 <= n * (from - 1)
    ensures OutputLen(n * from, from, to) < OutputLen(n, from, to) + OutputLen(n * (from - 1), from, to)
  {
    hide CeilDiv;
    MulMonotone(0, from - 1, n);
    RestOfProduct(n, from, to);
    PartsRoundUp(n * to, from);
    CeilDivIsUnique(n * to * from, from, n * to);
  }

  /** Rounding up two parts of a multiple, neither of them one, gives more than rounding it up whole. */
  lemma PartsRoundUp(x: nat, from: Rate)
    requires x % from != 0
    ensures 0 <= x * (from - 1) && x < CeilDiv(x, from) + CeilDiv(x * (from - 1), from)
  {
    hide CeilDiv;
    MulMonotone(0, from - 1, x);
    CeilDivBounds(x, from);
    CeilDivBounds(x * (from - 1), from);
    var p, q := CeilDiv(x, from), CeilDiv(x * (from - 1), from);
    if p * from == x { DivModIsUnique(x, from, p, 0); }
    assert x * (from - 1) == x * from - x;
    Distribute(p, q, from);
    MulCancels(x, p + q, from);
  }

  lemma RestOfProduct(n: nat, from: Rate, to: Rate)
    ensures n * (from - 1) * to == n * to * (from - 1) && n * from * to == n * to * from
    ensures 0 <= n * to * (from - 1)
  {
    MulMonotone(0, from - 1, n * to);
  }

  /** Up-sampling, the last output of the chunk should lean toward the next chunk, but cannot see it. */
  lemma UpsampledChunkEndsDiffer(a: seq<Sample>, b: seq<Sample>, from: Rate, to: Rate)
    requires 0 < |a| && from < to && |a| * to % from == 0
    requires a[|a| - 1] == -32768 && b != [] && b[0] == -32767
    ensures Resampled(a + b, from, to) != Resampled(a, from, to) + Resampled(b, from, to)
  {
    hide SampleAt, OutputLen;
    var m := |a| * to / from;
    OutputLenOfConcat(|a|, |b|, from, to, m);
    MulCancels(0, m, from);
    LastSamples(a, b, from, to, m);
    assert Resampled(a + b, from, to)[m - 1] == -32767;
    assert (Resampled(a, from, to) + Resampled(b, from, to))[m - 1] == -32768;
  }

  lemma LastSamples(a: seq<Sample>, b: seq<Sample>, from: Rate, to: Rate, m: nat)
    requires 0 < |a| && from < to && |a| * to == m * from && 0 < m
    requires a[|a| - 1] == -32768 && b != [] && b[0] == -32767
    requires OutputLen(|a|, from, to) == m <= OutputLen(|a + b|, from, to)
    ensures SampleAt(a + b, from, to, m - 1) == -32767 && SampleAt(a, from, to, m - 1) == -32768
  {
    hide Interpolate, OutputLen;
    LastPosition(|a|, from, to, m);
    JustAboveLowest(to - from, to);
  }

  lemma LastPosition(n: nat, from: Rate, to: Rate, m: nat)
    requires from < to && n * to == m * from
    ensures (m - 1) * from / to == n - 1 && (m - 1) * from % to == to - from
  {
    assert (m - 1) * from == m * from - from && (n - 1) * to == n * to - to;
    DivModIsUnique((m - 1) * from, to, n - 1, to - from);
  }

  lemma JustAboveLowest(r: int, to: Rate)
    requires 0 < r < to
    ensures Interpolate(-32768, -32767, r, to) == -32767
  {
    var a := -32768 * to + (-32767 - -32768) * r;
    DivIsUnique(-a, to, 32767);
  }

  /**
   Resampling a stream in chunks of `n` frames equals resampling it whole, whatever the samples and
   whatever follows, exactly when the rates are equal or the chunk down-samples to whole frames.
   */
  lemma {:induction false} ChunkwiseIffExact(n: nat, from: Rate, to: Rate)
    requires 0 < n
    ensures ChunkExact(n, from, to) <==>
            forall a: seq<Sample>, b: seq<Sample> | |a| == n ::
              Resampled(a + b, from, to) == Resampled(a, from, to) + Resampled(b, from, to)
  {
    if ChunkExact(n, from, to) {
      forall a: seq<Sample>, b: seq<Sample> | |a| == n
        ensures Resampled(a + b, from, to) == Resampled(a, from, to) + Resampled(b, from, to)
      {
        ResampleConcat(a, b, from, to);
      }
    } else if n * to % from != 0 {
      var a: seq<Sample> := seq(n, (_: nat) => 0 as Sample);
      assert from != 1 by {
        if from == 1 { DivModIsUnique(n * to, 1, n * to, 0); }
      }
      MulMonotone(1, from - 1, n);
      var b: seq<Sample> := seq(n * (from - 1), (_: nat) => 0 as Sample);
      InexactLengthDiffers(a, b, from, to);
      assert |a| == n && Resampled(a + b, from, to) != Resampled(a, from, to) + Resampled(b, from, to);
    } else {
      var a: seq<Sample> := seq(n, (_: nat) => -32768 as Sample);
      var b: seq<Sample> := [-32767];
      UpsampledChunkEndsDiffer(a, b, from, to);
    }
  }

  // ---------- whole factors ----------

  /** Up-sampling by `k` puts input `j` at output `j * k`. */
  lemma UpsampleKeepsInputs(s: seq<Sample>, from: Rate, to: Rate, k: nat)
    requires to == k * from && s != []
    ensures OutputLen(|s|, from, to) == |s| * k
    ensures |Resampled(s, from, to)| == |s| * k
    ensures forall j :: 0 <= j < |s| ==> j * k < |s| * k && Resampled(s, from, to)[j * k] == s[j]
  {
    hide SampleAt, OutputLen;
    UpsampledLen(|s|, from, to, k);
    forall j | 0 <= j < |s|
      ensures j * k < |s| * k && Resampled(s, from, to)[j * k] == s[j]
    {
      MulStrictlyMonotone(j, |s|, k);
      UpsampledAt(s, from, to, k, j);
    }
  }

  lemma UpsampledLen(n: nat, from: Rate, to: Rate, k: nat)
    requires to == k * from
    ensures 1 <= k && OutputLen(n, from, to) == n * k
    ensures from == to ==> k == 1
  {
    assert n * to == (n * k) * from;
    CeilDivIsUnique(n * to, from, n * k);
    if 2 <= k { MulMonotone(2, k, from); }
  }

  lemma UpsampledAt(s: seq<Sample>, from: Rate, to: Rate, k: nat, j: nat)
    requires to == k * from && j < |s| && j * k < OutputLen(|s|, from, to)
    ensures SampleAt(s, from, to, j * k) == s[j]
  {
    hide OutputLen, TruncDiv;
    assert (j * k) * from == j * to;
    DivModIsUnique(j * to, to, j, 0);
    TruncDivOfMultiple(s[j], to);
  }

  /** Down-sampling by `k` keeps every `k`-th input and drops the rest. */
  lemma DownsampleDecimates(s: seq<Sample>, from: Rate, to: Rate, k: nat)
    requires from == k * to && s != []
    ensures |Resampled(s, from, to)| == CeilDiv(|s|, k)
    ensures forall i :: 0 <= i < CeilDiv(|s|, k) ==> i * k < |s| && Resampled(s, from, to)[i] == s[i * k]
  {
    hide SampleAt, OutputLen, CeilDiv;
    DecimatedLen(|s|, from, to, k);
    if k == 1 { CeilDivIsUnique(|s|, k, |s|); }
    forall i | 0 <= i < CeilDiv(|s|, k)
      ensures i * k < |s| && Resampled(s, from, to)[i] == s[i * k]
    {
      DecimatedAt(s, from, to, k, i);
    }
  }

  lemma DecimatedAt(s: seq<Sample>, from: Rate, to: Rate, k: nat, i: nat)
    requires from == k * to && 1 <= k && i < CeilDiv(|s|, k) == OutputLen(|s|, from, to)
    ensures i * k < |s| && SampleAt(s, from, to, i) == s[i * k]
  {
    hide OutputLen, TruncDiv, CeilDiv;
    DecimatedIndex(|s|, from, to, k, i);
    TruncDivOfMultiple(s[i * k], to);
  }

  lemma DecimatedLen(n: nat, from: Rate, to: Rate, k: nat)
    requires from == k * to
    ensures 1 <= k && OutputLen(n, from, to) == CeilDiv(n, k)
    ensures from == to ==> k == 1
  {
    assert 1 <= k;
    var len := CeilDiv(n, k);
    CeilDivBounds(n, k);
    MulMonotone(n, len * k, to);
    MulStrictlyMonotone(len * k, n + k, to);
    assert len * from == (len * k) * to && (n + k) * to == n * to + from;
    CeilDivIsUnique(n * to, from, len);
    if 2 <= k { MulMonotone(2, k, to); }
  }

  lemma DecimatedIndex(n: nat, from: Rate, to: Rate, k: nat, i: nat)
    requires from == k * to && 1 <= k && i < CeilDiv(n, k)
    ensures i * k < n && i * from / to == i * k && i * from % to == 0
  {
    CeilDivBounds(n, k);
    MulMonotone(i + 1, CeilDiv(n, k), k);
    assert (i + 1) * k == i * k + k;
    assert i * from == (i * k) * to;
    DivModIsUnique(i * from, to, i * k, 0);
  }

  lemma UpsampleThenDownsample(s: seq<Sample>, from: Rate, to: Rate, k: nat)
    requires to == k * from
    ensures Resampled(Resampled(s, from, to), to, from) == s
  {
    hide SampleAt, OutputLen, CeilDiv;
    if s != [] {
      UpsampledLen(|s|, from, to, k);
      UpsampleKeepsInputs(s, from, to, k);
      var up := Resampled(s, from, to);
      MulMonotone(1, |s|, k);
      DownsampleDecimates(up, to, from, k);
      CeilDivIsUnique(|up|, k, |s|);
    }
  }
}
