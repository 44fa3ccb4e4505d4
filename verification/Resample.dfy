/**
 Sample-rate conversion by linear interpolation (src/format/resample.rs).

 `Resample` and `ResampleStereo` follow the code step by step, with exact reals for `f64`; they are
 proved equal to `Resampled` and `ResampledStereo`, which compute in integers. The laws about
 resampling are then proved of those two functions.
 */
module Resampling {

  import opened Arith
  import opened Audio

  function OutputLen(n: nat, from: Rate, to: Rate): nat
  {
    CeilDiv(n * to, from)
  }

  /** The point a fraction `r / to` of the way from `s1` to `s2`, truncated toward zero. */
  function Interpolate(s1: Sample, s2: Sample, r: int, to: Rate): (y: Sample)
    requires 0 <= r < to
    ensures Min(s1, s2) <= y <= Max(s1, s2)
  {
    InterpolateIsBetween(s1, s2, r, to);
    TruncDiv(s1 * to + (s2 - s1) * r, to)
  }

  /** Output sample `i`; there is no "beyond input" case, which `SourceIndexInRange` justifies. */
  function SampleAt(s: seq<Sample>, from: Rate, to: Rate, i: nat): Sample
    requires i < OutputLen(|s|, from, to)
  {
    SourceIndexInRange(|s|, from, to, i);
    var j := i * from / to;
    if j + 1 < |s| then Interpolate(s[j], s[j + 1], i * from % to, to) else s[j]
  }

  function Resampled(s: seq<Sample>, from: Rate, to: Rate): seq<Sample>
  {
    if from == to || s == [] then s
    else seq(OutputLen(|s|, from, to), (i: nat) requires i < OutputLen(|s|, from, to) => SampleAt(s, from, to, i))
  }

  // ---------- the code ----------

  method Resample(samples: seq<Sample>, fromRate: Rate, toRate: Rate) returns (output: seq<Sample>)
    ensures output == Resampled(samples, fromRate, toRate)
  {
    if fromRate == toRate || samples == [] {
      return samples;
    }
    var ratio := toRate as real / fromRate as real;
    OutputLenIsCeil(|samples|, ratio, fromRate, toRate);
    var outputLen := Ceil(|samples| as real * ratio);
    output := ResampleLoop(samples, outputLen, ratio, fromRate, toRate);
  }

  ghost predicate IsRatio(ratio: real, from: Rate, to: Rate)
  {
    ratio == to as real / from as real
  }

  /** The loop of `resample`. */
  method ResampleLoop(samples: seq<Sample>, outputLen: nat, ratio: real, ghost fromRate: Rate, ghost toRate: Rate)
    returns (output: seq<Sample>)
    requires IsRatio(ratio, fromRate, toRate) && outputLen == OutputLen(|samples|, fromRate, toRate)
    ensures |output| == outputLen
    ensures forall k :: 0 <= k < outputLen ==> output[k] == SampleAt(samples, fromRate, toRate, k)
  {
    hide *;
    output := [];
    for i := 0 to outputLen
      invariant |output| == i
      invariant forall k :: 0 <= k < i ==> output[k] == SampleAt(samples, fromRate, toRate, k)
    {
      var sample := ResampleOne(samples, i, ratio, fromRate, toRate);
      output := output + [sample];
    }
  }

  /** One iteration: the source position of output `i` and the sample there. */
  method ResampleOne(samples: seq<Sample>, i: nat, ratio: real, ghost fromRate: Rate, ghost toRate: Rate)
    returns (sample: Sample)
    requires IsRatio(ratio, fromRate, toRate)
    requires i < OutputLen(|samples|, fromRate, toRate)
    ensures sample == SampleAt(samples, fromRate, toRate, i)
  {
    SourceIndexInRange(|samples|, fromRate, toRate, i);
    SourcePosition(i, ratio, fromRate, toRate);
    sample := Interpolated(samples, i as real / ratio, i * fromRate / toRate, i * fromRate % toRate, toRate);
  }

  method Interpolated(samples: seq<Sample>, srcPos: real, ghost j: nat, ghost r: nat, ghost to: Rate)
    returns (sample: Sample)
    requires j < |samples| && r < to
    requires srcPos.Floor == j && srcPos - j as real == r as real / to as real
    ensures sample == if j + 1 < |samples| then Interpolate(samples[j], samples[j + 1], r, to) else samples[j]
  {
    var srcIdx := srcPos.Floor;
    var frac := srcPos - srcIdx as real;
    sample := samples[|samples| - 1];
    if srcIdx + 1 < |samples| {
      var s1 := samples[srcIdx];
      var s2 := samples[srcIdx + 1];
      sample := ToSample(s1 as real + (s2 as real - s1 as real) * frac);
      InterpolationIsExact(s1, s2, frac, r, to);
    } else if srcIdx < |samples| {
      sample := samples[srcIdx];
    }
  }

  lemma OutputLenIsCeil(n: nat, ratio: real, from: Rate, to: Rate)
    requires ratio == to as real / from as real
    ensures Ceil(n as real * ratio) == OutputLen(n, from, to)
  {
    RealProduct(n, to);
    ProductOverQuotient(n as real, to as real, from as real);
    CeilOfQuotient(n * to, from);
  }

  lemma ProductOverQuotient(x: real, y: real, z: real)
    requires 0.0 < z
    ensures x * y / z == x * (y / z)
  {
  }

  lemma SourcePosition(i: nat, ratio: real, from: Rate, to: Rate)
    requires ratio == to as real / from as real
    ensures 0.0 < ratio
    ensures (i as real / ratio).Floor == i * from / to
    ensures i as real / ratio - (i * from / to) as real == (i * from % to) as real / to as real
  {
    QuotientByRatio(i as real, to as real, from as real);
    RealProduct(i, from);
    QuotientAndRemainder(i * from, to);
  }

  lemma QuotientByRatio(x: real, to: real, from: real)
    requires 0.0 < to && 0.0 < from
    ensures to / from > 0.0 && x / (to / from) == x * from / to
  {
    var ratio := to / from;
    assert ratio * from == to;
    if ratio <= 0.0 {
      RealMulMonotone(ratio, 0.0, from);
    }
    var y := x / ratio;
    assert y * ratio == x;
    assert y * to == y * (ratio * from) == (y * ratio) * from == x * from;
  }

  lemma RealProduct(a: int, b: int)
    ensures (a * b) as real == a as real * b as real
  {
  }

  lemma QuotientAndRemainder(a: int, b: int)
    requires 0 < b
    ensures (a as real / b as real).Floor == a / b
    ensures a as real / b as real - (a / b) as real == (a % b) as real / b as real
  {
    FloorOfQuotient(a, b);
    SplitQuotient(a, b, a / b, a % b);
  }

  lemma SplitQuotient(a: int, b: int, q: int, r: int)
    requires 0 < b && a == q * b + r
    ensures a as real / b as real == q as real + r as real / b as real
  {
    assert a as real == q as real * b as real + r as real;
  }

  /** The float expression of the code is the integer interpolation; the saturating cast changes nothing. */
  lemma InterpolationIsExact(s1: Sample, s2: Sample, frac: real, r: int, to: Rate)
    requires 0 <= r < to && frac == r as real / to as real
    ensures ToSample(s1 as real + (s2 as real - s1 as real) * frac) == Interpolate(s1, s2, r, to)
  {
    InterpolationOverReals(s1, s2, frac, r, to);
    ToSampleInRange(s1 * to + (s2 - s1) * r, to, s1, s2, r);
  }

  lemma InterpolationOverReals(s1: int, s2: int, frac: real, r: int, to: int)
    requires 0 < to && frac == r as real / to as real
    ensures s1 as real + (s2 as real - s1 as real) * frac == (s1 * to + (s2 - s1) * r) as real / to as real
  {
    RealProduct(s1, to);
    RealProduct(s2 - s1, r);
    InterpolateOverQuotient(s1 as real, (s2 - s1) as real, r as real, to as real, frac);
  }

  lemma InterpolateOverQuotient(x: real, d: real, r: real, to: real, frac: real)
    requires 0.0 < to && frac == r / to
    ensures x + d * frac == (x * to + d * r) / to
  {
    assert d * r == d * (frac * to) == (d * frac) * to;
    assert x * to + d * r == (x + d * frac) * to;
  }

  lemma ToSampleInRange(a: int, to: Rate, s1: Sample, s2: Sample, r: int)
    requires 0 <= r < to && a == s1 * to + (s2 - s1) * r
    ensures ToSample(a as real / to as real) == TruncDiv(a, to)
  {
    TruncOfQuotient(a, to);
    InterpolateIsBetween(s1, s2, r, to);
  }

  // ---------- range and monotonicity ----------

  /** The source index never passes the last sample: the "beyond input" branch of the code is dead. */
  lemma SourceIndexInRange(n: nat, from: Rate, to: Rate, i: nat)
    requires i < OutputLen(n, from, to)
    ensures i * from < n * to && i * from / to < n
  {
    var len := OutputLen(n, from, to);
    CeilDivBounds(n * to, from);
    MulMonotone(i + 1, len, from);
    assert (i + 1) * from == i * from + from;
    var j := i * from / to;
    assert j * to <= i * from;
    MulCancels(j, n, to);
  }

  lemma InterpolateIsBetween(s1: Sample, s2: Sample, r: int, to: Rate)
    requires 0 <= r < to
    ensures Min(s1, s2) <= TruncDiv(s1 * to + (s2 - s1) * r, to) <= Max(s1, s2)
  {
    var d := s2 - s1;
    if 0 <= d {
      MulMonotone(r, to, d);
      assert d * to == s2 * to - s1 * to;
      TruncDivBetween(s1 * to + d * r, to, s1, s2);
    } else {
      MulMonotone(r, to, -d);
      assert r * -d == -(d * r) && to * -d == s1 * to - s2 * to;
      TruncDivBetween(s1 * to + d * r, to, s2, s1);
    }
  }

  lemma InterpolateIsMonotone(s1: Sample, s2: Sample, r: int, r': int, to: Rate)
    requires s1 <= s2 && 0 <= r <= r' < to
    ensures Interpolate(s1, s2, r, to) <= Interpolate(s1, s2, r', to)
  {
    MulMonotone(r, r', s2 - s1);
    TruncDivMonotone(s1 * to + (s2 - s1) * r, s1 * to + (s2 - s1) * r', to);
  }

  /** Every output lies between the input at its source index and the one after (the last one twice). */
  lemma OutputBetweenNeighbours(s: seq<Sample>, from: Rate, to: Rate, i: nat)
    requires i < OutputLen(|s|, from, to)
    ensures var j := i * from / to; var next := Min(j + 1, |s| - 1);
            0 <= j < |s| && Min(s[j], s[next]) <= SampleAt(s, from, to, i) <= Max(s[j], s[next])
  {
    SourceIndexInRange(|s|, from, to, i);
  }

  ghost predicate NonDecreasing(s: seq<Sample>)
  {
    forall i, j :: 0 <= i <= j < |s| ==> s[i] <= s[j]
  }

  lemma {:induction false} ResampleKeepsOrder(s: seq<Sample>, from: Rate, to: Rate)
    requires NonDecreasing(s)
    ensures NonDecreasing(Resampled(s, from, to))
  {
    if from != to && s != [] {
      forall i, j | 0 <= i <= j < OutputLen(|s|, from, to)
        ensures SampleAt(s, from, to, i) <= SampleAt(s, from, to, j)
      {
        SampleAtIsMonotone(s, from, to, i, j);
      }
    }
  }

  lemma SampleAtIsMonotone(s: seq<Sample>, from: Rate, to: Rate, i: nat, j: nat)
    requires NonDecreasing(s) && i <= j < OutputLen(|s|, from, to)
    ensures SampleAt(s, from, to, i) <= SampleAt(s, from, to, j)
  {
    var p, q := i * from / to, j * from / to;
    OutputBetweenNeighbours(s, from, to, i);
    OutputBetweenNeighbours(s, from, to, j);
    PositionsAreMonotone(i, j, from, to);
    if p == q && p + 1 < |s| {
      InterpolateIsMonotone(s[p], s[p + 1], i * from % to, j * from % to, to);
    }
  }

  lemma PositionsAreMonotone(i: nat, j: nat, from: Rate, to: Rate)
    requires i <= j
    ensures i * from / to <= j * from / to
    ensures i * from / to == j * from / to ==> i * from % to <= j * from % to
  {
    MulMonotone(i, j, from);
    var a, b := i * from, j * from;
    DivMonotone(a, b, to);
    assert a == a / to * to + a % to && b == b / to * to + b % to;
  }

  // ---------- linear interpolation ----------

  /** The straight line through the samples around position `p`, and the last sample from there on. */
  function LineAt(s: seq<Sample>, p: real): real
    requires 0.0 <= p && p.Floor < |s|
  {
    var j := p.Floor;
    if j + 1 < |s| then OnLine(s[j], s[j + 1], p - j as real) else s[j] as real
  }

  /** Output `i` is the point of that line at position `i / ratio`, truncated toward zero. */
  lemma ResampledIsLinear(s: seq<Sample>, from: Rate, to: Rate, i: nat)
    requires from != to && i < |Resampled(s, from, to)|
    ensures var p := i as real / (to as real / from as real);
            0.0 <= p && p.Floor < |s| && Resampled(s, from, to)[i] as int == Trunc(LineAt(s, p))
  {
    hide *;
    ResampledAt(s, from, to, i);
    PositionIs(|s|, from, to, i);
    LineAtPosition(s, i as real / (to as real / from as real), i * from / to, i * from % to, to);
  }

  lemma ResampledAt(s: seq<Sample>, from: Rate, to: Rate, i: nat)
    requires from != to && i < |Resampled(s, from, to)|
    ensures i < OutputLen(|s|, from, to)
    ensures 0 <= i * from / to < |s|
    ensures var j, r := i * from / to, i * from % to;
            Resampled(s, from, to)[i] == if j + 1 < |s| then Interpolate(s[j], s[j + 1], r, to) else s[j]
  {
    hide Interpolate, OutputLen;
    if s == [] { NothingResampled(from, to); }
    SourceIndexInRange(|s|, from, to, i);
    MulMonotone(0, i, from);
    QuotientIsNat(i * from, to);
  }

  lemma NothingResampled(from: Rate, to: Rate)
    ensures Resampled([], from, to) == []
  {
  }

  lemma PositionIs(n: nat, from: Rate, to: Rate, i: nat)
    requires i < OutputLen(n, from, to)
    ensures var p, j, r := i as real / (to as real / from as real), i * from / to, i * from % to;
            && 0.0 <= p && p.Floor == j < n && 0 <= j && 0 <= r < to && p - j as real == r as real / to as real
  {
    hide OutputLen;
    SourceIndexInRange(n, from, to, i);
    SourcePosition(i, to as real / from as real, from, to);
    MulMonotone(0, i, from);
    QuotientIsNat(i * from, to);
    RealQuotient(i * from % to, to, 0);
  }

  lemma LineAtPosition(s: seq<Sample>, p: real, j: nat, r: nat, to: Rate)
    requires 0.0 <= p && p.Floor == j < |s| && r < to && p - j as real == r as real / to as real
    ensures Trunc(LineAt(s, p)) == (if j + 1 < |s| then Interpolate(s[j], s[j + 1], r, to) else s[j]) as int
  {
    hide *;
    LineAtIs(s, p, j, p - j as real);
    if j + 1 < |s| {
      LineIsInterpolated(s[j], s[j + 1], p - j as real, r, to);
    } else {
      TruncOfInteger(s[j]);
    }
  }

  lemma LineAtIs(s: seq<Sample>, p: real, j: nat, frac: real)
    requires 0.0 <= p && p.Floor == j < |s| && frac == p - j as real
    ensures LineAt(s, p) == if j + 1 < |s| then OnLine(s[j], s[j + 1], frac) else s[j] as real
  {
  }

  /** A fraction of the way from one sample to the next. */
  function OnLine(s1: Sample, s2: Sample, frac: real): real
  {
    s1 as real + (s2 as real - s1 as real) * frac
  }

  lemma LineIsInterpolated(s1: Sample, s2: Sample, frac: real, r: int, to: Rate)
    requires 0 <= r < to && frac == r as real / to as real
    ensures Trunc(OnLine(s1, s2, frac)) == Interpolate(s1, s2, r, to)
  {
    hide TruncDiv, Trunc, Interpolate;
    InterpolationOverReals(s1, s2, frac, r, to);
    TruncOfQuotient(s1 * to + (s2 - s1) * r, to);
    InterpolateUnfolds(s1, s2, r, to);
  }

  lemma InterpolateUnfolds(s1: Sample, s2: Sample, r: int, to: Rate)
    requires 0 <= r < to
    ensures Interpolate(s1, s2, r, to) == TruncDiv(s1 * to + (s2 - s1) * r, to)
  {
    hide TruncDiv;
  }

  lemma TruncOfInteger(x: int)
    ensures Trunc(x as real) == x
  {
  }
}
